/** The limit of human authority: which first-pass findings stay open whatever the authorizations are. */
module AuthorityLimits {
  import opened Domain
  import opened Records
  import opened Checker
  import opened CheckerProofs
  import opened Authority
  import opened AuthorityProofs

  // ---------------------------------------------------------------- what a binding reaches

  predicate IsAmbiguous(inp: CheckerInput, o: Obligation) {
    o.status == Active && ResolveParty(inp.(bindings := map[]), o) == Unresolved(AMBIGUOUS_IDENTITY)
  }

  /** The obligations that a binding of their id can touch: ACTIVE ones whose party is read from free text. */
  predicate TextResolved(o: Obligation) {
    o.status == Active && o.creditedPartyId.None? && HasObligee(o)
  }

  /** The obligation is not ambiguous itself, but shares its id with one that is, and so is rebound together with it. */
  ghost predicate Exposed(inp: CheckerInput, o: Obligation) {
    && o in inp.obligations && TextResolved(o) && !IsAmbiguous(inp, o)
    && exists p :: p in inp.obligations && p.id == o.id && IsAmbiguous(inp, p)
  }

  function Unbound(inp: CheckerInput): CheckerInput {
    inp.(bindings := map[])
  }

  /** An obligation that no binding touches raises the finding as well. */
  ghost predicate RaisedOutOfReach(inp: CheckerInput, i: Issue)
    requires inp.layout.Some?
  {
    exists q :: q in inp.obligations && !TextResolved(q) && RaisedByObligation(Unbound(inp), q, i)
  }

  /** The manifest credits the contributor on the surface of every reachable obligation with that id and source. */
  ghost predicate CreditsAll(inp: CheckerInput, c: string, o: Obligation) {
    c != "" && forall q :: q in inp.obligations && TextResolved(q) && q.id == o.id && q.source == o.source ==>
                 FirstEntry(inp.manifest.entries, c, q.surface).Some?
  }

  /** A party finding of the obligation that some choice of contributor takes away: a field finding always, a
      MISSING_CREDIT when some contributor is credited on all the surfaces. */
  ghost predicate Takeable(inp: CheckerInput, o: Obligation, i: Issue)
    requires inp.layout.Some?
  {
    && i in PartyIssues(Unbound(inp), o, inp.layout.value.assertions)
    && !RaisedOutOfReach(inp, i)
    && (i.code == MISSING_CREDIT ==> exists c :: CreditsAll(inp, c, o))
  }

  /** No exposed obligation has a finding that a binding can take. */
  ghost predicate BindingsTakeNothing(inp: CheckerInput) {
    EvidenceCovers(inp) ==> forall o, i :: Exposed(inp, o) ==> !Takeable(inp, o, i)
  }

  predicate HumanClearable(code: IssueCode) {
    code == AMBIGUOUS_IDENTITY || code == VISUAL_OBSERVATION_UNCERTAIN
  }

  /** A human may confirm a flagged observation, or choose the contributor of an ambiguous obligation
      while no two valid choices contradict each other. */
  ghost predicate ClearedByHumans(auths: seq<Authorization>, h: Hashes, i: Issue) {
    || (i.code == VISUAL_OBSERVATION_UNCERTAIN
        && exists a :: a in auths && ConfirmsVisual(a, h) && a.issueId == i.id)
    || (i.code == AMBIGUOUS_IDENTITY && !Conflicted(auths, h)
        && exists a :: a in auths && ConfirmsIdentity(a, h) && a.issueId == i.id)
  }

  // ---------------------------------------------------------------- one obligation, bound or not

  lemma UntouchedIsUnchanged(inp: CheckerInput, o: Obligation, layout: seq<LayoutAssertion>, m: map<string, string>)
    requires o.id !in m || !TextResolved(o)
    ensures ObligationIssues(inp.(bindings := m), o, layout) == ObligationIssues(Unbound(inp), o, layout)
  {
    if o.status == Active {
      assert ResolveParty(inp.(bindings := m), o) == ResolveParty(Unbound(inp), o);
    }
  }

  lemma BoundIsNotAmbiguous(inp: CheckerInput, o: Obligation, layout: seq<LayoutAssertion>, i: Issue)
    requires ResolveParty(inp, o).Party? && i.code == AMBIGUOUS_IDENTITY
    ensures i !in PartyIssues(inp, o, layout)
  {
    var entry := FirstEntry(inp.manifest.entries, ResolveParty(inp, o).id, o.surface);
    if entry.Some? && FontSize(layout, entry.value.elementId).Some? && i in FieldIssues(o, entry.value, layout) {
      FieldIssueShape(o, entry.value, layout, i);
    }
  }

  lemma AmbiguityIssueMeansAmbiguous(inp: CheckerInput, o: Obligation, layout: seq<LayoutAssertion>, i: Issue)
    requires i.code == AMBIGUOUS_IDENTITY && i in ObligationIssues(Unbound(inp), o, layout)
    ensures IsAmbiguous(inp, o) && i == NewIssue(AMBIGUOUS_IDENTITY, Some(o), {}, "")
  {
    ObligationIssueShape(Unbound(inp), o, layout, i);
    if ResolveParty(Unbound(inp), o).Party? {
      BoundIsNotAmbiguous(Unbound(inp), o, layout, i);
    }
  }

  lemma AmbiguousRaises(inp: CheckerInput, o: Obligation, layout: seq<LayoutAssertion>)
    requires IsAmbiguous(inp, o)
    ensures PartyIssues(Unbound(inp), o, layout) == [NewIssue(AMBIGUOUS_IDENTITY, Some(o), {}, "")]
    ensures NewIssue(AMBIGUOUS_IDENTITY, Some(o), {}, "") in ObligationIssues(Unbound(inp), o, layout)
    ensures TextResolved(o)
  {
  }

  /** Bound, the obligation raises MISSING_CREDIT exactly when the contributor is not credited on its surface. */
  lemma BoundMissing(inp: CheckerInput, o: Obligation, layout: seq<LayoutAssertion>, c: string, i: Issue)
    requires TextResolved(o) && o.id in inp.bindings && inp.bindings[o.id] == c && i.code == MISSING_CREDIT
    ensures i in ObligationIssues(inp, o, layout) <==>
            FirstEntry(inp.manifest.entries, c, o.surface).None? && i == NewIssue(MISSING_CREDIT, Some(o), {}, "")
  {
    var entry := FirstEntry(inp.manifest.entries, c, o.surface);
    if entry.Some? && FontSize(layout, entry.value.elementId).Some? && i in FieldIssues(o, entry.value, layout) {
      FieldIssueShape(o, entry.value, layout, i);
    }
  }

  /** Bound to a contributor without any entry, the obligation raises no other party finding. */
  lemma BoundToStranger(inp: CheckerInput, o: Obligation, layout: seq<LayoutAssertion>, c: string, i: Issue)
    requires TextResolved(o) && o.id in inp.bindings && inp.bindings[o.id] == c
    requires FirstEntry(inp.manifest.entries, c, o.surface).None?
    requires i.code != MISSING_CREDIT && i.code != UNSUPPORTED_PRESENTATION_ASSERTION
    ensures i !in ObligationIssues(inp, o, layout)
  {
  }

  /** The party findings of a text-resolved obligation. */
  lemma PartyIssueShape(inp: CheckerInput, o: Obligation, layout: seq<LayoutAssertion>, i: Issue)
    requires TextResolved(o) && i in PartyIssues(inp, o, layout) && ResolveParty(inp, o) != Unresolved(AMBIGUOUS_IDENTITY)
    ensures i.obligationId == Some(o.id) && !HumanClearable(i.code) && i.code != UNSUPPORTED_PRESENTATION_ASSERTION
    ensures i.code == MISSING_CREDIT ==> i == NewIssue(MISSING_CREDIT, Some(o), {}, "")
  {
    var party := ResolveParty(inp, o);
    if party.Party? {
      var entry := FirstEntry(inp.manifest.entries, party.id, o.surface);
      if entry.Some? && FontSize(layout, entry.value.elementId).Some? {
        FieldIssueShape(o, entry.value, layout, i);
      }
    }
  }

  /** An issue of an ACTIVE obligation is its duration issue or a party issue. */
  lemma DurationOrParty(inp: CheckerInput, o: Obligation, layout: seq<LayoutAssertion>, i: Issue)
    requires o.status == Active
    ensures i in ObligationIssues(inp, o, layout) <==>
            || (o.minimumVisibleDurationMs.Some? && i == NewIssue(UNSUPPORTED_PRESENTATION_ASSERTION, Some(o), {}, ""))
            || i in PartyIssues(inp, o, layout)
  {
  }

  // ---------------------------------------------------------------- the findings of an export

  /** The finding of the first pass, before any overlay, is in the second. */
  ghost predicate Stays(inp: CheckerInput, m: map<string, string>, i: Issue) {
    i in Findings(inp.(bindings := m))
  }

  lemma RaisedStays(inp: CheckerInput, m: map<string, string>, q: Obligation, i: Issue)
    requires EvidenceCovers(inp) && q in inp.obligations && RaisedByObligation(inp.(bindings := m), q, i)
    ensures Stays(inp, m, i)
  {
    InFindings(inp.(bindings := m), i);
  }

  lemma UntouchedStays(inp: CheckerInput, m: map<string, string>, q: Obligation, i: Issue)
    requires EvidenceCovers(inp) && q in inp.obligations && RaisedByObligation(Unbound(inp), q, i)
    requires q.id !in m || !TextResolved(q)
    ensures Stays(inp, m, i)
  {
    UntouchedIsUnchanged(inp, q, inp.layout.value.assertions, m);
    RaisedStays(inp, m, q, i);
  }

  /** The contributors that bindings name are not empty. */
  ghost predicate NamesContributors(m: map<string, string>) {
    forall k :: k in m ==> m[k] != ""
  }

  /** An uncredited contributor leaves the MISSING_CREDIT of some reachable obligation with that id and source. */
  lemma MissingStays(inp: CheckerInput, m: map<string, string>, o: Obligation, i: Issue)
    requires EvidenceCovers(inp) && o.id in m && NamesContributors(m) && !CreditsAll(inp, m[o.id], o)
    requires i == NewIssue(MISSING_CREDIT, Some(o), {}, "")
    ensures Stays(inp, m, i)
  {
    var q :| q in inp.obligations && TextResolved(q) && q.id == o.id && q.source == o.source
             && FirstEntry(inp.manifest.entries, m[o.id], q.surface).None?;
    BoundMissing(inp.(bindings := m), q, inp.layout.value.assertions, m[o.id], i);
    RaisedStays(inp, m, q, i);
  }

  lemma UntakeableStays(inp: CheckerInput, m: map<string, string>, o: Obligation, i: Issue)
    requires EvidenceCovers(inp) && o in inp.obligations && o.id in m && NamesContributors(m) && TextResolved(o)
    requires !IsAmbiguous(inp, o) && !Takeable(inp, o, i)
    requires i in PartyIssues(Unbound(inp), o, inp.layout.value.assertions)
    ensures Stays(inp, m, i)
  {
    if RaisedOutOfReach(inp, i) {
      var q :| q in inp.obligations && !TextResolved(q) && RaisedByObligation(Unbound(inp), q, i);
      UntouchedStays(inp, m, q, i);
    } else {
      PartyIssueShape(Unbound(inp), o, inp.layout.value.assertions, i);
      MissingStays(inp, m, o, i);
    }
  }

  /** Bindings reach only ids of ambiguous obligations. */
  ghost predicate BindsAmbiguous(inp: CheckerInput, m: map<string, string>) {
    forall k :: k in m ==> exists p :: p in inp.obligations && p.id == k && IsAmbiguous(inp, p)
  }

  lemma ObligationFindingStays(inp: CheckerInput, m: map<string, string>, o: Obligation, i: Issue)
    requires EvidenceCovers(inp) && BindingsTakeNothing(inp) && BindsAmbiguous(inp, m) && NamesContributors(m)
    requires o in inp.obligations && RaisedByObligation(Unbound(inp), o, i) && !HumanClearable(i.code)
    ensures Stays(inp, m, i)
  {
    var layout := inp.layout.value.assertions;
    if o.id !in m || !TextResolved(o) {
      UntouchedStays(inp, m, o, i);
    } else {
      DurationOrParty(Unbound(inp), o, layout, i);
      DurationOrParty(inp.(bindings := m), o, layout, i);
      if i in PartyIssues(Unbound(inp), o, layout) {
        if IsAmbiguous(inp, o) {
          AmbiguousRaises(inp, o, layout);
        } else {
          assert Exposed(inp, o);
          UntakeableStays(inp, m, o, i);
        }
      } else {
        RaisedStays(inp, m, o, i);
      }
    }
  }

  lemma AmbiguousIds(inp: CheckerInput, id: string)
    requires EvidenceCovers(inp)
    ensures id in AmbiguousObligations(FirstPass(inp)) <==>
            exists p :: p in inp.obligations && p.id == id && IsAmbiguous(inp, p)
  {
    var layout := inp.layout.value.assertions;
    if id in AmbiguousObligations(FirstPass(inp)) {
      var i :| i in FirstPass(inp) && i.code == AMBIGUOUS_IDENTITY && i.obligationId == Some(id);
      InFindings(Unbound(inp), i);
      InVisualIssues(inp.visual.value.observations, i);
      var p :| p in inp.obligations && RaisedByObligation(Unbound(inp), p, i);
      AmbiguityIssueMeansAmbiguous(inp, p, layout, i);
    }
    if p :| p in inp.obligations && p.id == id && IsAmbiguous(inp, p) {
      AmbiguousIsFound(inp, p);
    }
  }

  lemma AmbiguousIsFound(inp: CheckerInput, p: Obligation)
    requires EvidenceCovers(inp) && p in inp.obligations && IsAmbiguous(inp, p)
    ensures NewIssue(AMBIGUOUS_IDENTITY, Some(p), {}, "") in FirstPass(inp)
    ensures p.id in AmbiguousObligations(FirstPass(inp))
  {
    var i := NewIssue(AMBIGUOUS_IDENTITY, Some(p), {}, "");
    AmbiguousRaises(inp, p, inp.layout.value.assertions);
    assert RaisedByObligation(Unbound(inp), p, i);
    InFindings(Unbound(inp), i);
  }

  lemma BindingsAreSound(inp: CheckerInput, auths: seq<Authorization>, h: Hashes)
    requires EvidenceCovers(inp)
    ensures BindsAmbiguous(inp, IdentityBindings(inp, auths, h)) && NamesContributors(IdentityBindings(inp, auths, h))
  {
    forall k | k in IdentityBindings(inp, auths, h)
      ensures exists p :: p in inp.obligations && p.id == k && IsAmbiguous(inp, p)
    {
      AmbiguousIds(inp, k);
    }
  }

  // ---------------------------------------------------------------- what humans clear

  lemma OtherFindingStays(inp: CheckerInput, auths: seq<Authorization>, h: Hashes, i: Issue)
    requires EvidenceCovers(inp) && BindingsTakeNothing(inp) && i in FirstPass(inp) && !HumanClearable(i.code)
    ensures Stays(inp, IdentityBindings(inp, auths, h), i)
  {
    InFindings(Unbound(inp), i);
    InVisualIssues(inp.visual.value.observations, i);
    var o :| o in inp.obligations && RaisedByObligation(Unbound(inp), o, i);
    BindingsAreSound(inp, auths, h);
    ObligationFindingStays(inp, IdentityBindings(inp, auths, h), o, i);
  }

  lemma VisualStays(inp: CheckerInput, m: map<string, string>, i: Issue)
    requires EvidenceCovers(inp) && i.code == VISUAL_OBSERVATION_UNCERTAIN
    ensures Stays(inp, m, i) <==> i in FirstPass(inp)
  {
    InFindings(Unbound(inp), i);
    InFindings(inp.(bindings := m), i);
    VisualNotOfObligations(Unbound(inp), i);
    VisualNotOfObligations(inp.(bindings := m), i);
  }

  lemma VisualNotOfObligations(inp: CheckerInput, i: Issue)
    requires EvidenceCovers(inp) && i.code == VISUAL_OBSERVATION_UNCERTAIN
    ensures forall o :: o in inp.obligations ==> !RaisedByObligation(inp, o, i)
  {
    forall o | o in inp.obligations ensures !RaisedByObligation(inp, o, i) {
      if RaisedByObligation(inp, o, i) {
        ObligationIssueShape(inp, o, inp.layout.value.assertions, i);
      }
    }
  }

  /** An ambiguity finding leaves the second pass exactly when its obligation's id is bound. */
  lemma AmbiguityStays(inp: CheckerInput, m: map<string, string>, i: Issue)
    requires EvidenceCovers(inp) && i.code == AMBIGUOUS_IDENTITY && i in FirstPass(inp)
    ensures i.obligationId.Some?
    ensures Stays(inp, m, i) <==> i.obligationId.value !in m
  {
    InFindings(Unbound(inp), i);
    InVisualIssues(inp.visual.value.observations, i);
    var o :| o in inp.obligations && RaisedByObligation(Unbound(inp), o, i);
    ObligationIssueShape(Unbound(inp), o, inp.layout.value.assertions, i);
    if o.id !in m {
      UntouchedStays(inp, m, o, i);
    } else if Stays(inp, m, i) {
      InFindings(inp.(bindings := m), i);
      var q :| q in inp.obligations && RaisedByObligation(inp.(bindings := m), q, i);
      BoundRaisesNoAmbiguity(inp, m, q, i);
    }
  }

  lemma BoundRaisesNoAmbiguity(inp: CheckerInput, m: map<string, string>, q: Obligation, i: Issue)
    requires inp.layout.Some? && RaisedByObligation(inp.(bindings := m), q, i) && i.code == AMBIGUOUS_IDENTITY
    ensures i.obligationId == Some(q.id) && q.id !in m
  {
    var (bound, layout) := (inp.(bindings := m), inp.layout.value.assertions);
    ObligationIssueShape(bound, q, layout, i);
    if q.id in m && TextResolved(q) {
      DurationOrParty(bound, q, layout, i);
      BoundIsNotAmbiguous(bound, q, layout, i);
    } else if q.id in m {
      UntouchedIsUnchanged(inp, q, layout, m);
      AmbiguityIssueMeansAmbiguous(inp, q, layout, i);
      AmbiguousRaises(inp, q, layout);
    }
  }

  lemma UncoveredFindingsIgnoreBindings(inp: CheckerInput, m: map<string, string>, i: Issue)
    requires !EvidenceCovers(inp)
    ensures Findings(inp.(bindings := m)) == FirstPass(inp)
    ensures i in FirstPass(inp) ==> i.code in {ARTIFACT_PENDING, ARTIFACT_INTEGRITY_FAILURE}
  {
    if EvidenceBound(inp) {
      EvidenceGate(inp);
    }
  }

  /** The findings that humans are there to clear are cleared exactly by them, whatever the input. */
  lemma ClearableClosesIffCleared(inp: CheckerInput, auths: seq<Authorization>, h: Hashes, i: Issue)
    requires i in FirstPass(inp) && HumanClearable(i.code)
    ensures i !in OpenIssues(inp, auths, h) <==> ClearedByHumans(auths, h, i)
  {
    var m := IdentityBindings(inp, auths, h);
    InStillOpen(SecondPass(inp, auths, h), VisualConfirmations(auths, h), i);
    if !EvidenceCovers(inp) {
      UncoveredFindingsIgnoreBindings(inp, m, i);
    } else if i.code == VISUAL_OBSERVATION_UNCERTAIN {
      VisualStays(inp, m, i);
    } else {
      AmbiguityStays(inp, m, i);
      BoundIffChosen(inp, auths, h, i);
    }
  }

  /** Exactly what human authority clears, when bindings take nothing: a flagged observation with a valid confirmation,
      and an ambiguous identity with a valid, unconflicted choice. Every other first-pass finding is still open. */
  lemma WhatHumansClear(inp: CheckerInput, auths: seq<Authorization>, h: Hashes, i: Issue)
    requires BindingsTakeNothing(inp) && i in FirstPass(inp)
    ensures i !in OpenIssues(inp, auths, h) <==> ClearedByHumans(auths, h, i)
  {
    if HumanClearable(i.code) {
      ClearableClosesIffCleared(inp, auths, h, i);
    } else {
      var m := IdentityBindings(inp, auths, h);
      InStillOpen(SecondPass(inp, auths, h), VisualConfirmations(auths, h), i);
      if !EvidenceCovers(inp) {
        UncoveredFindingsIgnoreBindings(inp, m, i);
      } else {
        OtherFindingStays(inp, auths, h, i);
      }
    }
  }

  // ---------------------------------------------------------------- the choice that takes a finding

  /** A name longer than every contributor's. */
  function Stranger(entries: seq<ManifestEntry>): (s: string)
    ensures s != "" && forall i :: 0 <= i < |entries| ==> |entries[i].contributorId| < |s|
  {
    if entries == [] then "x" else Stranger(entries[..|entries|-1]) + entries[|entries|-1].contributorId
  }

  lemma StrangerHasNoEntry(entries: seq<ManifestEntry>, surface: CreditSurface)
    ensures FirstEntry(entries, Stranger(entries), surface) == None
  {
    AbsentHasNoEntry(entries, Stranger(entries), surface);
  }

  /** The contributor to choose against the finding. */
  ghost predicate Takes(inp: CheckerInput, o: Obligation, i: Issue, c: string) {
    if i.code == MISSING_CREDIT then CreditsAll(inp, c, o) else c == Stranger(inp.manifest.entries)
  }

  lemma TakenFromEach(inp: CheckerInput, o: Obligation, i: Issue, c: string, q: Obligation)
    requires EvidenceCovers(inp) && Exposed(inp, o) && Takeable(inp, o, i) && Takes(inp, o, i, c) && q in inp.obligations
    ensures !RaisedByObligation(inp.(bindings := map[o.id := c]), q, i)
  {
    var (bound, layout) := (inp.(bindings := map[o.id := c]), inp.layout.value.assertions);
    PartyIssueShape(Unbound(inp), o, layout, i);
    if RaisedByObligation(bound, q, i) {
      ObligationIssueShape(bound, q, layout, i);
      if !TextResolved(q) {
        UntouchedIsUnchanged(inp, q, layout, bound.bindings);
        assert RaisedByObligation(Unbound(inp), q, i);
      } else if i.code == MISSING_CREDIT {
        BoundMissing(bound, q, layout, c, i);
      } else {
        StrangerHasNoEntry(inp.manifest.entries, q.surface);
        BoundToStranger(bound, q, layout, c, i);
      }
    }
  }

  lemma TakenFromAll(inp: CheckerInput, o: Obligation, i: Issue, c: string)
    requires EvidenceCovers(inp) && Exposed(inp, o) && Takeable(inp, o, i) && Takes(inp, o, i, c)
    ensures !Stays(inp, map[o.id := c], i)
  {
    PartyIssueShape(Unbound(inp), o, inp.layout.value.assertions, i);
    InFindings(inp.(bindings := map[o.id := c]), i);
    InVisualIssues(inp.visual.value.observations, i);
    forall q | q in inp.obligations ensures !RaisedByObligation(inp.(bindings := map[o.id := c]), q, i) {
      TakenFromEach(inp, o, i, c, q);
    }
  }

  /** One authorization that chooses `c` for the ambiguous obligations with the id. */
  function Choice(id: string, c: string, h: Hashes): Authorization {
    Authorization("a", "", "", AmbiguousId(id), "", "", CONFIRM_IDENTITY, Text("", 0), Some(c), h, "")
  }

  lemma ChoiceIsRaw(id: string, c: string, h: Hashes)
    requires c != ""
    ensures RawBindings([Choice(id, c, h)], h) == map[AmbiguousId(id) := c]
  {
    var a := Choice(id, c, h);
    assert !Conflicted([a], h);
    assert a in [a] && ConfirmsIdentity(a, h);
  }

  lemma OneBindingFor(findings: seq<Issue>, id: string, c: string)
    requires id in AmbiguousObligations(findings)
    ensures BindingsFor(findings, map[AmbiguousId(id) := c]) == map[id := c]
  {
    forall o | o in BindingsFor(findings, map[AmbiguousId(id) := c]) ensures o == id {
      AmbiguousIdInjective(o, id);
    }
  }

  lemma ChoiceBinds(inp: CheckerInput, id: string, c: string, h: Hashes)
    requires c != "" && id in AmbiguousObligations(FirstPass(inp))
    ensures IdentityBindings(inp, [Choice(id, c, h)], h) == map[id := c]
  {
    ChoiceIsRaw(id, c, h);
    OneBindingFor(FirstPass(inp), id, c);
  }

  /** A choice for the ambiguous obligations with an exposed one's id closes the finding of the exposed one. */
  lemma ChoiceTakes(inp: CheckerInput, o: Obligation, i: Issue, h: Hashes) returns (c: string)
    requires EvidenceCovers(inp) && Exposed(inp, o) && Takeable(inp, o, i)
    ensures i in FirstPass(inp) && !HumanClearable(i.code)
    ensures i !in OpenIssues(inp, [Choice(o.id, c, h)], h)
  {
    if i.code == MISSING_CREDIT {
      c :| CreditsAll(inp, c, o);
    } else {
      c := Stranger(inp.manifest.entries);
    }
    PartyIssueShape(Unbound(inp), o, inp.layout.value.assertions, i);
    DurationOrParty(Unbound(inp), o, inp.layout.value.assertions, i);
    RaisedStays(inp, map[], o, i);
    AmbiguousIds(inp, o.id);
    ChoiceBinds(inp, o.id, c, h);
    TakenFromAll(inp, o, i, c);
    InStillOpen(SecondPass(inp, [Choice(o.id, c, h)], h), VisualConfirmations([Choice(o.id, c, h)], h), i);
  }

  /** Human authority stays within its limit: it closes nothing but what it is there to clear. */
  ghost predicate OnlyHumansClear(inp: CheckerInput) {
    forall auths, h, i :: i in FirstPass(inp) && !HumanClearable(i.code) ==> i in OpenIssues(inp, auths, h)
  }

  /** The exact limit: every finding that humans may not clear stays open under all authorizations exactly when no
      obligation that shares an ambiguous one's id has a party finding that a binding can take. */
  lemma LimitIff(inp: CheckerInput)
    ensures OnlyHumansClear(inp) <==> BindingsTakeNothing(inp)
  {
    if BindingsTakeNothing(inp) {
      forall auths, h, i | i in FirstPass(inp) && !HumanClearable(i.code) ensures i in OpenIssues(inp, auths, h) {
        WhatHumansClear(inp, auths, h, i);
      }
    } else {
      var o, i :| Exposed(inp, o) && Takeable(inp, o, i);
      var d := OtherText("");
      var c := ChoiceTakes(inp, o, i, Hashes(d, d, d, d));
    }
  }

  /** Distinct obligation ids are enough. */
  lemma DistinctIdsKeepTheLimit(inp: CheckerInput)
    requires forall o, p :: o in inp.obligations && p in inp.obligations && o.id == p.id ==> o == p
    ensures BindingsTakeNothing(inp)
  {
  }

  // ---------------------------------------------------------------- an input beyond the limit

  /** Two obligations with one id: the first resolves to "x", whom the manifest lacks; the second is
      ambiguous; the manifest credits "c". */
  function SharedIdsInput(src: Source, known: Text, unknown: Text): CheckerInput {
    CheckerInput([Obligation("o", Active, None, Some(known), None, None, END_CRAWL, None, None, None, None, None, src, known),
                  Obligation("o", Active, None, Some(unknown), None, None, END_CRAWL, None, None, None, None, None, src, known)],
                 Manifest("m", "v", [ManifestEntry("e", "c", known, known, END_CRAWL, None, 0, [])]),
                 Some(LayoutEvidence("m", "p", [LayoutAssertion("e", known, 1.0)])),
                 Some(VisualObservations("m", [VisualObservation("e", known, false)])),
                 [Contributor("x", known, [])], map[])
  }

  lemma SharedIdsEvidence(inp: CheckerInput, src: Source, known: Text, unknown: Text, m: map<string, string>)
    requires inp == SharedIdsInput(src, known, unknown).(bindings := m)
    ensures EvidenceCovers(inp) && VisualIssues(inp.visual.value.observations) == []
  {
    assert ElementIds(inp.manifest.entries) == ["e"];
    assert LayoutIds(inp.layout.value.assertions) == ["e"];
    assert VisualIds(inp.visual.value.observations) == ["e"];
    assert VisualIssues(inp.visual.value.observations[..0]) == [];
  }

  lemma SharedIdsFirstPass(inp: CheckerInput, src: Source, known: Text, unknown: Text)
    requires known.normalForm == "k" && unknown.normalForm == "u" && inp == SharedIdsInput(src, known, unknown)
    ensures NewIssue(MISSING_CREDIT, Some(inp.obligations[0]), {}, "") in FirstPass(inp)
    ensures NewIssue(AMBIGUOUS_IDENTITY, Some(inp.obligations[1]), {}, "") in FirstPass(inp)
    ensures !IsAmbiguous(inp, inp.obligations[0]) && IsAmbiguous(inp, inp.obligations[1])
  {
    var base, o, p := inp.(bindings := map[]), inp.obligations[0], inp.obligations[1];
    SharedIdsEvidence(base, src, known, unknown, map[]);
    assert inp.registry[0] in inp.registry;
    RegistryUnique(known, inp.registry, "x");
    assert RegistryMatches(known, inp.registry) == {"x"};
    assert RegistryMatches(unknown, inp.registry) == {};
    assert RaisedByObligation(base, o, NewIssue(MISSING_CREDIT, Some(o), {}, ""));
    assert RaisedByObligation(base, p, NewIssue(AMBIGUOUS_IDENTITY, Some(p), {}, ""));
    InFindings(base, NewIssue(MISSING_CREDIT, Some(o), {}, ""));
    InFindings(base, NewIssue(AMBIGUOUS_IDENTITY, Some(p), {}, ""));
  }

  lemma UnconstrainedIsClean(o: Obligation, e: ManifestEntry, layout: seq<LayoutAssertion>)
    requires o.displayText.None? && o.roleLabel.None? && o.cardType.None? && o.cardPosition.None?
    requires o.minimumRelativeSize.None?
    ensures FieldIssues(o, e, layout) == []
  {
  }

  lemma SharedIdsEntry(inp: CheckerInput, src: Source, known: Text, unknown: Text)
    requires inp == SharedIdsInput(src, known, unknown).(bindings := inp.bindings)
    ensures FirstEntry(inp.manifest.entries, "c", END_CRAWL) == Some(inp.manifest.entries[0])
    ensures FontSize(inp.layout.value.assertions, "e") == Some(1.0)
  {
    assert inp.manifest.entries[..0] == [];
  }

  lemma BoundToManifestIsClean(inp: CheckerInput, o: Obligation, layout: seq<LayoutAssertion>, e: ManifestEntry)
    requires o.status == Active && o.creditedPartyId.None? && HasObligee(o) && o.minimumVisibleDurationMs.None?
    requires o.displayText.None? && o.roleLabel.None? && o.cardType.None? && o.cardPosition.None?
    requires o.minimumRelativeSize.None?
    requires o.id in inp.bindings && FirstEntry(inp.manifest.entries, inp.bindings[o.id], o.surface) == Some(e)
    requires FontSize(layout, e.elementId).Some?
    ensures ObligationIssues(inp, o, layout) == []
  {
    UnconstrainedIsClean(o, e, layout);
  }

  lemma SharedIdsSecondPass(inp: CheckerInput, src: Source, known: Text, unknown: Text, m: map<string, string>, i: Issue)
    requires inp == SharedIdsInput(src, known, unknown).(bindings := m)
    requires known.normalForm == "k" && unknown.normalForm == "u" && "o" in m && m["o"] == "c"
    ensures i !in Findings(inp)
  {
    SharedIdsEvidence(inp, src, known, unknown, m);
    SharedIdsEntry(inp, src, known, unknown);
    assert !Blank(known.normalForm) && !Blank(unknown.normalForm) by {
      assert known.normalForm[0] == 'k' && unknown.normalForm[0] == 'u';
    }
    forall o | o in inp.obligations ensures ObligationIssues(inp, o, inp.layout.value.assertions) == [] {
      assert o == inp.obligations[0] || o == inp.obligations[1];
      BoundToManifestIsClean(inp, o, inp.layout.value.assertions, inp.manifest.entries[0]);
    }
    InFindings(inp, i);
  }

  /** Beyond the limit: when an ambiguous obligation shares its id with one that is not,
      choosing a contributor for the former also rebinds the latter, and its MISSING_CREDIT closes. */
  lemma SharedIdsLoseFindings(src: Source, known: Text, unknown: Text, h: Hashes, a: Authorization)
    requires known.normalForm == "k" && unknown.normalForm == "u"
    requires ConfirmsIdentity(a, h) && a.issueId == AmbiguousId("o") && a.selectedContributorId == Some("c")
    ensures var inp := SharedIdsInput(src, known, unknown);
            var i := NewIssue(MISSING_CREDIT, Some(inp.obligations[0]), {}, "");
            i in FirstPass(inp) && i !in OpenIssues(inp, [a], h)
  {
    var inp := SharedIdsInput(src, known, unknown);
    var i := NewIssue(MISSING_CREDIT, Some(inp.obligations[0]), {}, "");
    SharedIdsFirstPass(inp, src, known, unknown);
    var m := IdentityBindings(inp, [a], h);
    assert !Conflicted([a], h);
    assert a in [a];
    assert "o" in AmbiguousObligations(FirstPass(inp));
    assert m["o"] == "c";
    SharedIdsSecondPass(inp.(bindings := m), src, known, unknown, m, i);
    InStillOpen(SecondPass(inp, [a], h), VisualConfirmations([a], h), i);
  }
}
