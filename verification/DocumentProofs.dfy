/** The evaluation does not see how a string is spelled: run on normalised inputs it gives the normalised findings,
    the same bindings and the same codes. */
module DocumentProofs {
  import opened Domain
  import opened Records
  import opened Documents
  import opened Checker
  import opened Authority

  function NfcInput(inp: CheckerInput): CheckerInput {
    CheckerInput(Map(inp.obligations, NfcObligation), NfcManifest(inp.manifest), MapOption(inp.layout, NfcLayout),
                 MapOption(inp.visual, NfcVisual), Map(inp.registry, NfcContributor), inp.bindings)
  }

  // ---------------------------------------------------------------- the parts of the checker

  lemma NamedByNormalised(c: Contributor, needle: Text)
    ensures NamedBy(NfcContributor(c), needle) <==> NamedBy(c, needle)
  {
    if i :| 0 <= i < |c.aliases| && Nfc(c.aliases[i]) == needle {
      assert Nfc(NfcContributor(c).aliases[i]) == needle;
    }
    if i :| 0 <= i < |c.aliases| && Nfc(NfcContributor(c).aliases[i]) == needle {
      assert Nfc(c.aliases[i]) == needle;
    }
  }

  lemma RegistryMatchesNormalised(text: Text, registry: seq<Contributor>)
    ensures RegistryMatches(Nfc(text), Map(registry, NfcContributor)) == RegistryMatches(text, registry)
  {
    var normalised := Map(registry, NfcContributor);
    forall i | 0 <= i < |registry|
      ensures NamedBy(normalised[i], Nfc(text)) <==> NamedBy(registry[i], Nfc(text))
    {
      NamedByNormalised(registry[i], Nfc(text));
    }
  }

  lemma InManifestNormalised(m: Manifest, id: string)
    ensures InManifest(NfcManifest(m), id) <==> InManifest(m, id)
  {
    var n := NfcManifest(m);
    if i :| 0 <= i < |m.entries| && m.entries[i].contributorId == id {
      assert n.entries[i].contributorId == id;
    }
    if i :| 0 <= i < |n.entries| && n.entries[i].contributorId == id {
      assert m.entries[i].contributorId == id;
    }
  }

  lemma ResolvePartyNormalised(inp: CheckerInput, o: Obligation)
    ensures ResolveParty(NfcInput(inp), NfcObligation(o)) == ResolveParty(inp, o)
  {
    if o.creditedPartyId.Some? {
      InManifestNormalised(inp.manifest, o.creditedPartyId.value);
    } else if HasObligee(o) {
      RegistryMatchesNormalised(o.obligeeText.value, inp.registry);
      var matches := RegistryMatches(o.obligeeText.value, inp.registry);
      if |matches| == 1 {
        InManifestNormalised(inp.manifest, Only(matches));
      }
    }
  }

  lemma {:induction false} FirstEntryNormalised(entries: seq<ManifestEntry>, id: string, surface: CreditSurface)
    ensures FirstEntry(Map(entries, NfcEntry), id, surface) == MapOption(FirstEntry(entries, id, surface), NfcEntry)
  {
    if entries != [] {
      FirstEntryNormalised(entries[..|entries|-1], id, surface);
      assert Map(entries, NfcEntry)[..|entries|-1] == Map(entries[..|entries|-1], NfcEntry);
    }
  }

  lemma {:induction false} FontSizeNormalised(layout: seq<LayoutAssertion>, id: string)
    ensures FontSize(Map(layout, NfcAssertion), id) == FontSize(layout, id)
  {
    if layout != [] {
      FontSizeNormalised(layout[..|layout|-1], id);
      assert Map(layout, NfcAssertion)[..|layout|-1] == Map(layout[..|layout|-1], NfcAssertion);
    }
  }

  lemma MapAppend(s: seq<Issue>, t: seq<Issue>)
    ensures Map(s + t, NfcIssue) == Map(s, NfcIssue) + Map(t, NfcIssue)
  {
  }

  lemma IssueIfNormalised(bad: bool, code: IssueCode, o: Obligation, refs: set<string>, d: string)
    ensures IssueIf(bad, NewIssue(code, Some(NfcObligation(o)), refs, d)) ==
            Map(IssueIf(bad, NewIssue(code, Some(o), refs, d)), NfcIssue)
  {
  }

  lemma SizeIssueNormalised(o: Obligation, e: ManifestEntry, layout: seq<LayoutAssertion>)
    ensures SizeIssue(NfcObligation(o), NfcEntry(e), Map(layout, NfcAssertion)) == Map(SizeIssue(o, e, layout), NfcIssue)
  {
    FontSizeNormalised(layout, e.elementId);
    if o.sizeReference.Some? {
      FontSizeNormalised(layout, o.sizeReference.value);
    }
  }

  lemma FieldIssuesNormalised(o: Obligation, e: ManifestEntry, layout: seq<LayoutAssertion>)
    ensures FieldIssues(NfcObligation(o), NfcEntry(e), Map(layout, NfcAssertion)) ==
            Map(FieldIssues(o, e, layout), NfcIssue)
  {
    var refs := {e.elementId};
    var a := IssueIf(!TextMet(o.displayText, e.displayName), NewIssue(ARTIFACT_TEXT_MISMATCH, Some(o), refs, "display_name"));
    var b := IssueIf(!TextMet(o.roleLabel, e.role), NewIssue(ARTIFACT_TEXT_MISMATCH, Some(o), refs, "role"));
    var c := IssueIf(!GroupingMet(o, e), NewIssue(ARTIFACT_GROUPING_MISMATCH, Some(o), refs, ""));
    var d := IssueIf(!PositionMet(o, e), NewIssue(ARTIFACT_POSITION_MISMATCH, Some(o), refs, ""));
    IssueIfNormalised(!TextMet(o.displayText, e.displayName), ARTIFACT_TEXT_MISMATCH, o, refs, "display_name");
    IssueIfNormalised(!TextMet(o.roleLabel, e.role), ARTIFACT_TEXT_MISMATCH, o, refs, "role");
    IssueIfNormalised(!GroupingMet(o, e), ARTIFACT_GROUPING_MISMATCH, o, refs, "");
    IssueIfNormalised(!PositionMet(o, e), ARTIFACT_POSITION_MISMATCH, o, refs, "");
    SizeIssueNormalised(o, e, layout);
    MapAppend(a, b);
    MapAppend(a + b, c);
    MapAppend(a + b + c, d);
    MapAppend(a + b + c + d, SizeIssue(o, e, layout));
  }

  lemma PartyIssuesNormalised(inp: CheckerInput, o: Obligation, layout: seq<LayoutAssertion>)
    ensures PartyIssues(NfcInput(inp), NfcObligation(o), Map(layout, NfcAssertion)) ==
            Map(PartyIssues(inp, o, layout), NfcIssue)
  {
    ResolvePartyNormalised(inp, o);
    var party := ResolveParty(inp, o);
    if party.Party? {
      FirstEntryNormalised(inp.manifest.entries, party.id, o.surface);
      var entry := FirstEntry(inp.manifest.entries, party.id, o.surface);
      if entry.Some? {
        FontSizeNormalised(layout, entry.value.elementId);
        FieldIssuesNormalised(o, entry.value, layout);
      }
    }
  }

  lemma ObligationIssuesNormalised(inp: CheckerInput, o: Obligation, layout: seq<LayoutAssertion>)
    ensures ObligationIssues(NfcInput(inp), NfcObligation(o), Map(layout, NfcAssertion)) ==
            Map(ObligationIssues(inp, o, layout), NfcIssue)
  {
    if o.status == Active {
      PartyIssuesNormalised(inp, o, layout);
      IssueIfNormalised(o.minimumVisibleDurationMs.Some?, UNSUPPORTED_PRESENTATION_ASSERTION, o, {}, "");
      MapAppend(IssueIf(o.minimumVisibleDurationMs.Some?, NewIssue(UNSUPPORTED_PRESENTATION_ASSERTION, Some(o), {}, "")),
                PartyIssues(inp, o, layout));
    }
  }

  lemma {:induction false} ConcatNormalised(lists: seq<seq<Issue>>, normalised: seq<seq<Issue>>)
    requires |lists| == |normalised| && forall k :: 0 <= k < |lists| ==> normalised[k] == Map(lists[k], NfcIssue)
    ensures Concat(normalised) == Map(Concat(lists), NfcIssue)
  {
    if lists != [] {
      ConcatNormalised(lists[..|lists|-1], normalised[..|lists|-1]);
      MapAppend(Concat(lists[..|lists|-1]), lists[|lists|-1]);
    }
  }

  lemma {:induction false} VisualIssuesNormalised(vs: seq<VisualObservation>)
    ensures VisualIssues(Map(vs, NfcObservation)) == Map(VisualIssues(vs), NfcIssue)
  {
    if vs != [] {
      var (init, v) := (vs[..|vs|-1], vs[|vs|-1]);
      VisualIssuesNormalised(init);
      assert Map(vs, NfcObservation)[..|vs|-1] == Map(init, NfcObservation);
      MapAppend(VisualIssues(init), IssueIf(v.flagged, VisualIssue(v.elementId)));
    }
  }

  /** Checking normalised inputs gives the normalised findings. */
  lemma FindingsNormalised(inp: CheckerInput)
    ensures Findings(NfcInput(inp)) == Map(Findings(inp), NfcIssue)
  {
    var n := NfcInput(inp);
    if EvidenceBound(inp) {
      var (layout, visual) := (inp.layout.value.assertions, inp.visual.value.observations);
      assert ElementIds(n.manifest.entries) == ElementIds(inp.manifest.entries);
      assert LayoutIds(Map(layout, NfcAssertion)) == LayoutIds(layout);
      assert VisualIds(Map(visual, NfcObservation)) == VisualIds(visual);
      var lists := IssuesPerObligation(inp, inp.obligations, layout);
      forall k | 0 <= k < |lists|
        ensures IssuesPerObligation(n, n.obligations, Map(layout, NfcAssertion))[k] == Map(lists[k], NfcIssue)
      {
        ObligationIssuesNormalised(inp, inp.obligations[k], layout);
      }
      ConcatNormalised(lists, IssuesPerObligation(n, n.obligations, Map(layout, NfcAssertion)));
      VisualIssuesNormalised(visual);
      MapAppend(Concat(lists), VisualIssues(visual));
    }
  }

  // ---------------------------------------------------------------- the overlay

  lemma MapIsSameUpToReason(auths: seq<Authorization>)
    ensures SameUpToReason(auths, Map(auths, NfcAuthorization))
  {
    var n := Map(auths, NfcAuthorization);
    forall a | a in auths ensures NfcAuthorization(a) in n {
      var i :| 0 <= i < |auths| && auths[i] == a;
      assert n[i] in n;
    }
  }

  lemma SameConflicts(auths: seq<Authorization>, n: seq<Authorization>, h: Hashes)
    requires SameUpToReason(auths, n)
    ensures Conflicted(auths, h) <==> Conflicted(n, h)
  {
    if Conflicted(auths, h) {
      var a, b :| a in auths && b in auths && Contradict(a, b, h);
      assert Contradict(NfcAuthorization(a), NfcAuthorization(b), h);
    }
    if Conflicted(n, h) {
      var a, b :| a in n && b in n && Contradict(a, b, h);
      var c :| c in auths && a == NfcAuthorization(c);
      var d :| d in auths && b == NfcAuthorization(d);
      assert Contradict(c, d, h);
    }
  }

  lemma RawBindingsNormalised(auths: seq<Authorization>, h: Hashes)
    ensures RawBindings(Map(auths, NfcAuthorization), h) == RawBindings(auths, h)
    ensures VisualConfirmations(Map(auths, NfcAuthorization), h) == VisualConfirmations(auths, h)
  {
    var n := Map(auths, NfcAuthorization);
    MapIsSameUpToReason(auths);
    SameConflicts(auths, n, h);
    SameConfirmations(auths, n, h);
    if !Conflicted(auths, h) {
      SameRawBindings(auths, n, h);
    }
  }

  ghost predicate SameUpToReason(auths: seq<Authorization>, n: seq<Authorization>) {
    && (forall a :: a in auths ==> NfcAuthorization(a) in n)
    && (forall b :: b in n ==> exists a :: a in auths && b == NfcAuthorization(a))
  }

  lemma SameConfirmations(auths: seq<Authorization>, n: seq<Authorization>, h: Hashes)
    requires SameUpToReason(auths, n)
    ensures VisualConfirmations(n, h) == VisualConfirmations(auths, h)
  {
    forall i | i in VisualConfirmations(auths, h) ensures i in VisualConfirmations(n, h) {
      var a :| a in auths && ConfirmsVisual(a, h) && a.issueId == i;
      assert ConfirmsVisual(NfcAuthorization(a), h);
    }
  }

  lemma RawBindingKept(auths: seq<Authorization>, n: seq<Authorization>, h: Hashes, i: IssueId)
    requires SameUpToReason(auths, n) && !Conflicted(auths, h) && !Conflicted(n, h) && i in RawBindings(auths, h)
    ensures i in RawBindings(n, h) && RawBindings(n, h)[i] == RawBindings(auths, h)[i]
  {
    var (raw, rawN) := (RawBindings(auths, h), RawBindings(n, h));
    var a :| a in auths && ConfirmsIdentity(a, h) && a.issueId == i && a.selectedContributorId.value == raw[i];
    var b := NfcAuthorization(a);
    assert b in n && ConfirmsIdentity(b, h);
    var c :| c in n && ConfirmsIdentity(c, h) && c.issueId == i && c.selectedContributorId.value == rawN[i];
    assert !Contradict(b, c, h);
  }

  lemma RawBindingKnown(auths: seq<Authorization>, n: seq<Authorization>, h: Hashes, i: IssueId)
    requires SameUpToReason(auths, n) && !Conflicted(auths, h) && !Conflicted(n, h) && i in RawBindings(n, h)
    ensures i in RawBindings(auths, h)
  {
    var b :| b in n && ConfirmsIdentity(b, h) && b.issueId == i;
    var a :| a in auths && b == NfcAuthorization(a);
    assert ConfirmsIdentity(a, h);
  }

  lemma SameRawBindings(auths: seq<Authorization>, n: seq<Authorization>, h: Hashes)
    requires SameUpToReason(auths, n) && !Conflicted(auths, h) && !Conflicted(n, h)
    ensures RawBindings(n, h) == RawBindings(auths, h)
  {
    forall i | i in RawBindings(auths, h) ensures i in RawBindings(n, h) && RawBindings(n, h)[i] == RawBindings(auths, h)[i] {
      RawBindingKept(auths, n, h, i);
    }
    forall i | i in RawBindings(n, h) ensures i in RawBindings(auths, h) {
      RawBindingKnown(auths, n, h, i);
    }
  }

  lemma {:induction false} StillOpenNormalised(issues: seq<Issue>, confirmed: set<IssueId>)
    ensures StillOpen(Map(issues, NfcIssue), confirmed) == Map(StillOpen(issues, confirmed), NfcIssue)
  {
    if issues != [] {
      var (init, last) := (issues[..|issues|-1], issues[|issues|-1]);
      StillOpenNormalised(init, confirmed);
      assert Map(issues, NfcIssue)[..|issues|-1] == Map(init, NfcIssue);
      MapAppend(StillOpen(init, confirmed), IssueIf(!ClearedBy(last, confirmed), last));
    }
  }

  lemma AmbiguousObligationsNormalised(findings: seq<Issue>)
    ensures AmbiguousObligations(Map(findings, NfcIssue)) == AmbiguousObligations(findings)
  {
    var n := Map(findings, NfcIssue);
    forall o | o in AmbiguousObligations(findings) ensures o in AmbiguousObligations(n) {
      var i :| i in findings && i.code == AMBIGUOUS_IDENTITY && i.obligationId == Some(o);
      var k :| 0 <= k < |findings| && findings[k] == i;
      assert n[k] in n;
    }
    forall o | o in AmbiguousObligations(n) ensures o in AmbiguousObligations(findings) {
      var i :| i in n && i.code == AMBIGUOUS_IDENTITY && i.obligationId == Some(o);
      var k :| 0 <= k < |n| && n[k] == i;
      assert findings[k] in findings;
    }
  }

  /** Evaluating the documents as they are read back: the same bindings, the normalised findings, the same codes. */
  lemma EvaluationNormalised(inp: CheckerInput, auths: seq<Authorization>, h: Hashes)
    ensures IdentityBindings(NfcInput(inp), Map(auths, NfcAuthorization), h) == IdentityBindings(inp, auths, h)
    ensures OpenIssues(NfcInput(inp), Map(auths, NfcAuthorization), h) == Map(OpenIssues(inp, auths, h), NfcIssue)
    ensures Codes(Map(OpenIssues(inp, auths, h), NfcIssue)) == Codes(OpenIssues(inp, auths, h))
  {
    var unbound := inp.(bindings := map[]);
    assert NfcInput(unbound) == NfcInput(inp).(bindings := map[]);
    FindingsNormalised(unbound);
    AmbiguousObligationsNormalised(Findings(unbound));
    RawBindingsNormalised(auths, h);
    var bindings := IdentityBindings(inp, auths, h);
    assert NfcInput(inp.(bindings := bindings)) == NfcInput(inp).(bindings := bindings);
    FindingsNormalised(inp.(bindings := bindings));
    StillOpenNormalised(SecondPass(inp, auths, h), VisualConfirmations(auths, h));
  }
}
