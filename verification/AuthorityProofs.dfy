/** When the gate opens, and what human authority can and cannot change. */
module AuthorityProofs {
  import opened Domain
  import opened Gate
  import opened Records
  import opened Checker
  import opened CheckerProofs
  import opened Authority

  // ---------------------------------------------------------------- the gate opens exactly when

  lemma {:induction false} InStillOpen(issues: seq<Issue>, confirmed: set<IssueId>, i: Issue)
    ensures i in StillOpen(issues, confirmed) <==> i in issues && !ClearedBy(i, confirmed)
  {
    if issues != [] {
      var init, last := issues[..|issues|-1], issues[|issues|-1];
      InStillOpen(init, confirmed, i);
      assert i in issues <==> i in init || i == last;
    }
  }

  lemma NothingOpen(issues: seq<Issue>, confirmed: set<IssueId>)
    ensures StillOpen(issues, confirmed) == [] <==> forall i :: i in issues ==> ClearedBy(i, confirmed)
  {
    var open := StillOpen(issues, confirmed);
    forall i ensures i in open <==> i in issues && !ClearedBy(i, confirmed) {
      InStillOpen(issues, confirmed, i);
    }
    assert open != [] ==> open[0] in open;
  }

  ghost predicate FlagsConfirmed(inp: CheckerInput, auths: seq<Authorization>, h: Hashes)
    requires inp.visual.Some?
  {
    forall v :: v in inp.visual.value.observations && v.flagged ==>
                  exists a :: a in auths && ConfirmsVisual(a, h) && a.issueId == VisualIssue(v.elementId).id
  }

  /** Everything the release rules ask for. */
  ghost predicate Releasable(inp: CheckerInput, auths: seq<Authorization>, h: Hashes, p: ProjectionStatus) {
    && EvidenceCovers(inp)
    && (forall o :: o in inp.obligations ==> Met(inp, o))
    && FlagsConfirmed(inp, auths, h)
    && !Flagged(p)
  }

  lemma ObligationsClearedIffMet(inp: CheckerInput, confirmed: set<IssueId>)
    requires EvidenceCovers(inp)
    ensures var layout := inp.layout.value.assertions;
            (forall i :: i in Concat(IssuesPerObligation(inp, inp.obligations, layout)) ==> ClearedBy(i, confirmed))
            <==> (forall o :: o in inp.obligations ==> Met(inp, o))
  {
    var layout := inp.layout.value.assertions;
    var lists := IssuesPerObligation(inp, inp.obligations, layout);
    var all := Concat(lists);
    forall i | i in all ensures !ClearedBy(i, confirmed) {
      InObligationFindings(inp, inp.obligations, layout, i);
      var k :| 0 <= k < |inp.obligations| && i in lists[k];
      ObligationIssueShape(inp, inp.obligations[k], layout, i);
    }
    assert all != [] ==> all[0] in all;
    ConcatEmpty(lists);
    forall k | 0 <= k < |lists| ensures lists[k] == [] <==> Met(inp, inp.obligations[k]) {
      ObligationCleanIffMet(inp, inp.obligations[k]);
    }
    forall o | o in inp.obligations && all == [] ensures Met(inp, o) {
      var k :| 0 <= k < |inp.obligations| && inp.obligations[k] == o;
      assert lists[k] == [];
    }
  }

  lemma VisualsClearedIffConfirmed(inp: CheckerInput, auths: seq<Authorization>, h: Hashes)
    requires inp.visual.Some?
    ensures (forall i :: i in VisualIssues(inp.visual.value.observations) ==> ClearedBy(i, VisualConfirmations(auths, h)))
            <==> FlagsConfirmed(inp, auths, h)
  {
    var vs, confirmed := inp.visual.value.observations, VisualConfirmations(auths, h);
    forall i | i in VisualIssues(vs) && FlagsConfirmed(inp, auths, h) ensures ClearedBy(i, confirmed) {
      InVisualIssues(vs, i);
      var k :| 0 <= k < |vs| && vs[k].flagged && i == VisualIssue(vs[k].elementId);
      assert vs[k] in vs;
    }
    if forall i :: i in VisualIssues(vs) ==> ClearedBy(i, confirmed) {
      forall v | v in vs && v.flagged
        ensures exists a :: a in auths && ConfirmsVisual(a, h) && a.issueId == VisualIssue(v.elementId).id
      {
        InVisualIssues(vs, VisualIssue(v.elementId));
        assert ClearedBy(VisualIssue(v.elementId), confirmed);
      }
    }
  }

  lemma EvidenceIssuesNeverCleared(inp: CheckerInput, confirmed: set<IssueId>)
    requires !EvidenceCovers(inp)
    ensures exists i :: i in Findings(inp) && !ClearedBy(i, confirmed)
  {
    if EvidenceBound(inp) {
      EvidenceGate(inp);
    }
    assert Findings(inp)[0] in Findings(inp) && Findings(inp)[0].code != VISUAL_OBSERVATION_UNCERTAIN;
  }

  lemma FindingsClearedIffReleasable(inp: CheckerInput, auths: seq<Authorization>, h: Hashes)
    ensures (forall i :: i in Findings(inp) ==> ClearedBy(i, VisualConfirmations(auths, h)))
            <==> Releasable(inp, auths, h, NO_FLAGS)
  {
    var confirmed := VisualConfirmations(auths, h);
    if !EvidenceCovers(inp) {
      EvidenceIssuesNeverCleared(inp, confirmed);
    } else {
      EvidenceGate(inp);
      ObligationsClearedIffMet(inp, confirmed);
      VisualsClearedIffConfirmed(inp, auths, h);
      var os := Concat(IssuesPerObligation(inp, inp.obligations, inp.layout.value.assertions));
      var vs := VisualIssues(inp.visual.value.observations);
      assert Findings(inp) == os + vs;
      assert forall i :: i in Findings(inp) <==> i in os || i in vs;
    }
  }

  /** The checker is sound and complete: with the given bindings, the gate is READY_TO_EXPORT exactly when
      the evidence covers each manifest element once, every obligation is met or no longer enforced, every
      flagged observation has a hash-bound confirmation, and no projection flag is set. */
  lemma ReadyIffReleasable(inp: CheckerInput, auths: seq<Authorization>, h: Hashes, p: ProjectionStatus)
    ensures Folded(Codes(StillOpen(Findings(inp), VisualConfirmations(auths, h))), p) == READY_TO_EXPORT <==>
            Releasable(inp, auths, h, p)
  {
    var open := StillOpen(Findings(inp), VisualConfirmations(auths, h));
    ReadyIffNothingOpen(Codes(open), p);
    NothingOpen(Findings(inp), VisualConfirmations(auths, h));
    FindingsClearedIffReleasable(inp, auths, h);
    assert Codes(open) == [] <==> open == [];
  }

  /** The same for export's two passes. */
  lemma ExportReadyIffReleasable(inp: CheckerInput, auths: seq<Authorization>, h: Hashes, p: ProjectionStatus)
    ensures Folded(Codes(OpenIssues(inp, auths, h)), p) == READY_TO_EXPORT <==>
            Releasable(inp.(bindings := IdentityBindings(inp, auths, h)), auths, h, p)
  {
    ReadyIffReleasable(inp.(bindings := IdentityBindings(inp, auths, h)), auths, h, p);
  }

  // ---------------------------------------------------------------- which records count

  predicate Counts(a: Authorization, h: Hashes) {
    ConfirmsIdentity(a, h) || ConfirmsVisual(a, h)
  }

  /** Only the set of hash-matching confirmations matters: records with another hash or another action have
      no effect, and neither do order and repetition. */
  lemma OnlyValidRecordsMatter(inp: CheckerInput, auths: seq<Authorization>, others: seq<Authorization>, h: Hashes)
    requires forall a :: Counts(a, h) ==> (a in auths <==> a in others)
    ensures IdentityBindings(inp, auths, h) == IdentityBindings(inp, others, h)
    ensures OpenIssues(inp, auths, h) == OpenIssues(inp, others, h)
  {
    assert Conflicted(auths, h) <==> Conflicted(others, h) by {
      assert forall a, b :: Contradict(a, b, h) ==> Counts(a, h) && Counts(b, h);
    }
    assert RawBindings(auths, h) == RawBindings(others, h);
    assert VisualConfirmations(auths, h) == VisualConfirmations(others, h);
  }

  // ---------------------------------------------------------------- bindings and findings

  ghost predicate RaisedByObligation(inp: CheckerInput, o: Obligation, i: Issue)
    requires inp.layout.Some?
  {
    i in ObligationIssues(inp, o, inp.layout.value.assertions)
  }

  lemma InFindings(inp: CheckerInput, i: Issue)
    requires EvidenceCovers(inp)
    ensures i in Findings(inp) <==>
            || (exists o :: o in inp.obligations && RaisedByObligation(inp, o, i))
            || i in VisualIssues(inp.visual.value.observations)
  {
    EvidenceGate(inp);
    var layout := inp.layout.value.assertions;
    var lists := IssuesPerObligation(inp, inp.obligations, layout);
    InConcat(lists, i);
    if k :| 0 <= k < |lists| && i in lists[k] {
      assert inp.obligations[k] in inp.obligations && RaisedByObligation(inp, inp.obligations[k], i);
    }
    if o :| o in inp.obligations && RaisedByObligation(inp, o, i) {
      var k :| 0 <= k < |inp.obligations| && inp.obligations[k] == o;
      assert i in lists[k];
    }
  }

  lemma BoundIffChosen(inp: CheckerInput, auths: seq<Authorization>, h: Hashes, i: Issue)
    requires i in FirstPass(inp) && i.code == AMBIGUOUS_IDENTITY
    ensures i.obligationId.Some?
    ensures i.obligationId.value in IdentityBindings(inp, auths, h) <==>
            !Conflicted(auths, h) && exists a :: a in auths && ConfirmsIdentity(a, h) && a.issueId == i.id
  {
    FindingsIdsAreStable(inp.(bindings := map[]));
    assert i.obligationId.value in AmbiguousObligations(FirstPass(inp));
  }

  // ---------------------------------------------------------------- a bound obligation

  lemma IssueIgnoresParty(code: IssueCode, o: Obligation, party: Option<string>, refs: set<string>, discriminator: string)
    ensures NewIssue(code, Some(o), refs, discriminator) ==
            NewIssue(code, Some(o.(creditedPartyId := party)), refs, discriminator)
  {
  }

  lemma SizeIgnoresParty(o: Obligation, party: Option<string>, e: ManifestEntry, layout: seq<LayoutAssertion>)
    ensures SizeIssue(o, e, layout) == SizeIssue(o.(creditedPartyId := party), e, layout)
  {
  }

  lemma FieldsIgnoreParty(o: Obligation, party: Option<string>, e: ManifestEntry, layout: seq<LayoutAssertion>)
    ensures FieldIssues(o, e, layout) == FieldIssues(o.(creditedPartyId := party), e, layout)
  {
    var refs := {e.elementId};
    IssueIgnoresParty(ARTIFACT_TEXT_MISMATCH, o, party, refs, "display_name");
    IssueIgnoresParty(ARTIFACT_TEXT_MISMATCH, o, party, refs, "role");
    IssueIgnoresParty(ARTIFACT_GROUPING_MISMATCH, o, party, refs, "");
    IssueIgnoresParty(ARTIFACT_POSITION_MISMATCH, o, party, refs, "");
    SizeIgnoresParty(o, party, e, layout);
  }

  /** The party issues once the party is known. */
  lemma PartyDecides(inp: CheckerInput, o: Obligation, party: Option<string>, layout: seq<LayoutAssertion>)
    requires ResolveParty(inp, o).Party? && ResolveParty(inp, o.(creditedPartyId := party)) == ResolveParty(inp, o)
    ensures PartyIssues(inp, o, layout) == PartyIssues(inp, o.(creditedPartyId := party), layout)
  {
    var entry := FirstEntry(inp.manifest.entries, ResolveParty(inp, o).id, o.surface);
    if entry.Some? {
      FieldsIgnoreParty(o, party, entry.value, layout);
    }
  }

  lemma AbsentIsMissing(inp: CheckerInput, o: Obligation, id: string, layout: seq<LayoutAssertion>)
    requires o.creditedPartyId.None? && HasObligee(o) && o.id in inp.bindings && inp.bindings[o.id] == id
    requires !InManifest(inp.manifest, id)
    ensures PartyIssues(inp, o, layout) == PartyIssues(inp, o.(creditedPartyId := Some(id)), layout)
  {
    AbsentHasNoEntry(inp.manifest.entries, id, o.surface);
  }

  /** A bound obligation is checked as if its credited party had named that contributor. */
  lemma BoundAsIfCredited(inp: CheckerInput, o: Obligation, layout: seq<LayoutAssertion>)
    requires o.creditedPartyId.None? && HasObligee(o) && o.id in inp.bindings
    ensures ObligationIssues(inp, o, layout) ==
            ObligationIssues(inp, o.(creditedPartyId := Some(inp.bindings[o.id])), layout)
  {
    var id := inp.bindings[o.id];
    if InManifest(inp.manifest, id) {
      PartyDecides(inp, o, Some(id), layout);
    } else {
      AbsentIsMissing(inp, o, id, layout);
    }
  }

  // ---------------------------------------------------------------- issue ids

  predicate ColonFree(s: string) {
    forall i :: 0 <= i < |s| ==> s[i] != ':'
  }

  lemma FirstColonSplits(a: string, b: string, c: string, d: string)
    requires ColonFree(a) && ColonFree(c) && a + ":" + b == c + ":" + d
    ensures a == c && b == d
  {
    var l, r := a + ":" + b, c + ":" + d;
    assert l[|a|] == ':' && r[|c|] == ':';
    assert forall i :: 0 <= i < |a| ==> l[i] == a[i];
    assert forall i :: 0 <= i < |c| ==> r[i] == c[i];
    assert |a| == |c|;
    assert a == l[..|a|] && c == r[..|c|] && b == l[|a|+1..] && d == r[|c|+1..];
  }

  lemma MismatchNameColonFree(c: IssueCode)
    ensures c in {ARTIFACT_TEXT_MISMATCH, ARTIFACT_GROUPING_MISMATCH, ARTIFACT_POSITION_MISMATCH, ARTIFACT_SIZE_MISMATCH} ==>
              ColonFree(CodeName(c))
  {
  }

  lemma BlockingNameColonFree(c: IssueCode)
    ensures Contribution(c) == BLOCKED ==> ColonFree(CodeName(c))
  {
    MismatchNameColonFree(c);
  }

  lemma UncertainNameColonFree(c: IssueCode)
    ensures c in {VISUAL_OBSERVATION_UNCERTAIN, UNSUPPORTED_PRESENTATION_ASSERTION} ==> ColonFree(CodeName(c))
  {
    assert ColonFree("VISUAL_OBSERVATION_UNCERTAIN") && ColonFree("UNSUPPORTED_PRESENTATION_ASSERTION");
  }

  lemma ConflictNameColonFree(c: IssueCode)
    ensures c in {AMBIGUOUS_IDENTITY, CONFLICTING_OBLIGATION} ==> ColonFree(CodeName(c))
  {
    assert ColonFree("AMBIGUOUS_IDENTITY") && ColonFree("CONFLICTING_OBLIGATION");
  }

  lemma HumanNameColonFree(c: IssueCode)
    ensures Contribution(c) == NEEDS_HUMAN ==> ColonFree(CodeName(c))
  {
    UncertainNameColonFree(c);
    ConflictNameColonFree(c);
  }

  lemma OtherNameColonFree(c: IssueCode)
    ensures Contribution(c) != BLOCKED && Contribution(c) != NEEDS_HUMAN ==> ColonFree(CodeName(c))
  {
    assert ColonFree("REQUIRED_EVIDENCE_UNAVAILABLE") && ColonFree("UNCONFIRMED_OBLIGATION");
    assert ColonFree("STALE_MANIFEST") && ColonFree("ARTIFACT_PENDING");
  }

  lemma CodeNameColonFree(c: IssueCode)
    ensures ColonFree(CodeName(c))
  {
    BlockingNameColonFree(c);
    HumanNameColonFree(c);
    OtherNameColonFree(c);
  }

  /** Length, first and tenth letter tell the code names apart. */
  lemma CodeNamesDiffer(c: IssueCode, d: IssueCode)
    requires CodeName(c) == CodeName(d)
    ensures c == d
  {
    assert |CodeName(c)| == |CodeName(d)| && CodeName(c)[0] == CodeName(d)[0] && CodeName(c)[9] == CodeName(d)[9];
  }

  lemma RawIssueId(o: string, c: IssueCode, d: string)
    ensures StableIssueId(Some(o), c, d).raw == o + ":" + (CodeName(c) + ":" + d)
  {
  }

  /** For colon-free obligation ids, an issue id determines the obligation, the code and the discriminator. */
  lemma IssueIdDetermines(o1: string, c1: IssueCode, d1: string, o2: string, c2: IssueCode, d2: string)
    requires ColonFree(o1) && ColonFree(o2)
    requires StableIssueId(Some(o1), c1, d1) == StableIssueId(Some(o2), c2, d2)
    ensures o1 == o2 && c1 == c2 && d1 == d2
  {
    var t1, t2 := CodeName(c1) + ":" + d1, CodeName(c2) + ":" + d2;
    RawIssueId(o1, c1, d1);
    RawIssueId(o2, c2, d2);
    FirstColonSplits(o1, t1, o2, t2);
    CodeNameColonFree(c1);
    CodeNameColonFree(c2);
    FirstColonSplits(CodeName(c1), d1, CodeName(c2), d2);
    CodeNamesDiffer(c1, c2);
  }
}
