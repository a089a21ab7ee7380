/** The checker against a declarative reading of the rules. */
module CheckerProofs {
  import opened Domain
  import opened Records
  import opened Checker

  // ---------------------------------------------------------------- the rules, declaratively

  /** Each expected id occurs once among the ids, and nothing else occurs. */
  ghost predicate ExactlyOnce(ids: seq<string>, expected: seq<string>) {
    forall x :: multiset(ids)[x] == if x in expected then 1 else 0
  }

  ghost predicate EvidenceCovers(inp: CheckerInput) {
    && EvidenceBound(inp)
    && ExactlyOnce(LayoutIds(inp.layout.value.assertions), ElementIds(inp.manifest.entries))
    && ExactlyOnce(VisualIds(inp.visual.value.observations), ElementIds(inp.manifest.entries))
  }

  /** The obligation is about this contributor. */
  ghost predicate ResolvesTo(inp: CheckerInput, o: Obligation, id: string) {
    if o.creditedPartyId.Some? then o.creditedPartyId.value == id && InManifest(inp.manifest, id)
    else if !HasObligee(o) then false
    else if o.id in inp.bindings then inp.bindings[o.id] == id
    else
      && (exists r :: r in inp.registry && r.id == id && NamedBy(r, Nfc(o.obligeeText.value)))
      && (forall r :: r in inp.registry && NamedBy(r, Nfc(o.obligeeText.value)) ==> r.id == id)
      && InManifest(inp.manifest, id)
  }

  /** `e` is the first manifest entry of the contributor on the surface. */
  ghost predicate IsFirstEntry(entries: seq<ManifestEntry>, id: string, surface: CreditSurface, e: ManifestEntry) {
    exists i :: 0 <= i < |entries| && entries[i] == e && OnSurface(entries[i], id, surface)
                && forall j :: 0 <= j < i ==> !OnSurface(entries[j], id, surface)
  }

  ghost predicate SizeRecorded(layout: seq<LayoutAssertion>, elementId: string, px: real) {
    exists i :: 0 <= i < |layout| && layout[i].elementId == elementId && layout[i].fontSizePx == px
  }

  ghost predicate SizeMet(o: Obligation, e: ManifestEntry, layout: seq<LayoutAssertion>) {
    o.minimumRelativeSize.Some? ==>
      && o.sizeReference.Some? && o.sizeReference.value != ""
      && exists subject, reference ::
           && SizeRecorded(layout, e.elementId, subject)
           && SizeRecorded(layout, o.sizeReference.value, reference)
           && subject + 0.1 >= o.minimumRelativeSize.value * reference
  }

  ghost predicate EntryMeets(o: Obligation, e: ManifestEntry, layout: seq<LayoutAssertion>) {
    && TextMet(o.displayText, e.displayName)
    && TextMet(o.roleLabel, e.role)
    && GroupingMet(o, e)
    && PositionMet(o, e)
    && SizeMet(o, e, layout)
  }

  ghost predicate PartyMeets(inp: CheckerInput, o: Obligation, id: string, e: ManifestEntry)
    requires inp.layout.Some?
  {
    && ResolvesTo(inp, o, id)
    && IsFirstEntry(inp.manifest.entries, id, o.surface, e)
    && EntryMeets(o, e, inp.layout.value.assertions)
  }

  /** The obligation is met, or no longer enforced. */
  ghost predicate Met(inp: CheckerInput, o: Obligation)
    requires inp.layout.Some?
  {
    || o.status == Waived
    || o.status == Superseded
    || (o.status == Active && o.minimumVisibleDurationMs.None? && exists id, e :: PartyMeets(inp, o, id, e))
  }

  // ---------------------------------------------------------------- lookups

  lemma {:induction false} FirstEntryMeaning(entries: seq<ManifestEntry>, id: string, surface: CreditSurface)
    ensures var r := FirstEntry(entries, id, surface);
            && (r.Some? ==> IsFirstEntry(entries, id, surface, r.value))
            && (r.None? ==> forall j :: 0 <= j < |entries| ==> !OnSurface(entries[j], id, surface))
  {
    if entries != [] {
      var init := entries[..|entries|-1];
      FirstEntryMeaning(init, id, surface);
      var r := FirstEntry(init, id, surface);
      if r.Some? {
        var i :| 0 <= i < |init| && init[i] == r.value && OnSurface(init[i], id, surface)
                 && forall j :: 0 <= j < i ==> !OnSurface(init[j], id, surface);
        assert entries[i] == init[i] && forall j :: 0 <= j < i ==> entries[j] == init[j];
      } else {
        assert forall j :: 0 <= j < |init| ==> entries[j] == init[j];
      }
    }
  }

  lemma FirstEntryUnique(entries: seq<ManifestEntry>, id: string, surface: CreditSurface, e: ManifestEntry)
    ensures IsFirstEntry(entries, id, surface, e) <==> FirstEntry(entries, id, surface) == Some(e)
  {
    FirstEntryMeaning(entries, id, surface);
    var r := FirstEntry(entries, id, surface);
    if IsFirstEntry(entries, id, surface, e) {
      var i :| 0 <= i < |entries| && entries[i] == e && OnSurface(entries[i], id, surface)
               && forall j :: 0 <= j < i ==> !OnSurface(entries[j], id, surface);
      if r.Some? {
        var k :| 0 <= k < |entries| && entries[k] == r.value && OnSurface(entries[k], id, surface)
                 && forall j :: 0 <= j < k ==> !OnSurface(entries[j], id, surface);
        assert i == k;
      }
    }
  }

  lemma {:induction false} FontSizeMeaning(layout: seq<LayoutAssertion>, x: string)
    ensures FontSize(layout, x).Some? <==> x in LayoutIds(layout)
    ensures FontSize(layout, x).Some? ==> SizeRecorded(layout, x, FontSize(layout, x).value)
  {
    if layout != [] {
      var init, last := layout[..|layout|-1], layout[|layout|-1];
      FontSizeMeaning(init, x);
      assert LayoutIds(layout) == LayoutIds(init) + [last.elementId];
      if last.elementId != x && FontSize(init, x).Some? {
        var i :| 0 <= i < |init| && init[i].elementId == x && init[i].fontSizePx == FontSize(init, x).value;
        assert layout[i] == init[i];
      }
    }
  }

  lemma TwiceCounts(ids: seq<string>, i: nat, j: nat)
    requires i < j < |ids| && ids[i] == ids[j]
    ensures multiset(ids)[ids[i]] >= 2
  {
    assert ids == ids[..j] + [ids[j]] + ids[j+1..];
    assert ids[i] in ids[..j];
  }

  /** With one assertion per element, the recorded size is the one the checker uses. */
  lemma OneRecordedSize(layout: seq<LayoutAssertion>, x: string, px: real)
    requires multiset(LayoutIds(layout))[x] <= 1
    ensures SizeRecorded(layout, x, px) <==> FontSize(layout, x) == Some(px)
  {
    FontSizeMeaning(layout, x);
    if SizeRecorded(layout, x, px) {
      var i :| 0 <= i < |layout| && layout[i].elementId == x && layout[i].fontSizePx == px;
      assert LayoutIds(layout)[i] == x;
      var j :| 0 <= j < |layout| && layout[j].elementId == x && layout[j].fontSizePx == FontSize(layout, x).value;
      if i < j {
        TwiceCounts(LayoutIds(layout), i, j);
      } else if j < i {
        TwiceCounts(LayoutIds(layout), j, i);
      }
    }
  }

  lemma RegistryUnique(text: Text, registry: seq<Contributor>, id: string)
    ensures RegistryMatches(text, registry) == {id} <==>
            && (exists r :: r in registry && r.id == id && NamedBy(r, Nfc(text)))
            && (forall r :: r in registry && NamedBy(r, Nfc(text)) ==> r.id == id)
  {
    var matches := RegistryMatches(text, registry);
    forall r | r in registry && NamedBy(r, Nfc(text)) ensures r.id in matches {
      var i :| 0 <= i < |registry| && registry[i] == r;
    }
    forall x | x in matches ensures exists r :: r in registry && r.id == x && NamedBy(r, Nfc(text)) {
      var i :| 0 <= i < |registry| && NamedBy(registry[i], Nfc(text)) && registry[i].id == x;
      assert registry[i] in registry;
    }
  }

  lemma ResolvePartyMeaning(inp: CheckerInput, o: Obligation, id: string)
    ensures ResolvesTo(inp, o, id) <==> ResolveParty(inp, o) == Party(id)
  {
    if o.creditedPartyId.None? && HasObligee(o) && o.id !in inp.bindings {
      RegistryUnique(o.obligeeText.value, inp.registry, id);
    }
  }

  // ---------------------------------------------------------------- one obligation

  lemma SizeIssueMeaning(o: Obligation, e: ManifestEntry, layout: seq<LayoutAssertion>)
    requires forall x :: multiset(LayoutIds(layout))[x] <= 1
    ensures SizeIssue(o, e, layout) == [] <==> SizeMet(o, e, layout)
  {
    if o.minimumRelativeSize.Some? && o.sizeReference.Some? {
      forall px ensures SizeRecorded(layout, e.elementId, px) <==> FontSize(layout, e.elementId) == Some(px) {
        OneRecordedSize(layout, e.elementId, px);
      }
      forall px
        ensures SizeRecorded(layout, o.sizeReference.value, px) <==> FontSize(layout, o.sizeReference.value) == Some(px)
      {
        OneRecordedSize(layout, o.sizeReference.value, px);
      }
    }
  }

  lemma ObligationCleanIffMet(inp: CheckerInput, o: Obligation)
    requires EvidenceCovers(inp)
    ensures ObligationIssues(inp, o, inp.layout.value.assertions) == [] <==> Met(inp, o)
  {
    var layout := inp.layout.value.assertions;
    if o.status == Active {
      var party := ResolveParty(inp, o);
      forall id, e ensures PartyMeets(inp, o, id, e) ==> PartyIssues(inp, o, layout) == [] {
        if PartyMeets(inp, o, id, e) {
          ResolvePartyMeaning(inp, o, id);
          FirstEntryUnique(inp.manifest.entries, id, o.surface, e);
          CoveredEntryHasSize(inp, id, o.surface, e);
          SizeIssueMeaning(o, e, layout);
        }
      }
      if party.Party? {
        ResolvePartyMeaning(inp, o, party.id);
        var entry := FirstEntry(inp.manifest.entries, party.id, o.surface);
        if entry.Some? {
          FirstEntryUnique(inp.manifest.entries, party.id, o.surface, entry.value);
          SizeIssueMeaning(o, entry.value, layout);
          if PartyIssues(inp, o, layout) == [] {
            assert PartyMeets(inp, o, party.id, entry.value);
          }
        }
      }
    }
  }

  lemma CoveredEntryHasSize(inp: CheckerInput, id: string, surface: CreditSurface, e: ManifestEntry)
    requires EvidenceCovers(inp) && IsFirstEntry(inp.manifest.entries, id, surface, e)
    ensures FontSize(inp.layout.value.assertions, e.elementId).Some?
  {
    var i :| 0 <= i < |inp.manifest.entries| && inp.manifest.entries[i] == e;
    assert ElementIds(inp.manifest.entries)[i] == e.elementId;
    assert multiset(LayoutIds(inp.layout.value.assertions))[e.elementId] == 1;
    FontSizeMeaning(inp.layout.value.assertions, e.elementId);
  }

  // ---------------------------------------------------------------- all findings

  lemma EvidenceCleanIffExact(expected: seq<string>, ids: seq<string>)
    ensures !HasStray(ids, expected) && Missing(expected, ids) == {} <==> ExactlyOnce(ids, expected)
  {
    if ExactlyOnce(ids, expected) {
      forall i | 0 <= i < |ids| ensures ids[i] in expected && multiset(ids)[ids[i]] == 1 {
        assert multiset(ids)[ids[i]] >= 1;
      }
      forall i | 0 <= i < |expected| ensures expected[i] in ids {
        assert multiset(ids)[expected[i]] == 1;
      }
    }
    if !HasStray(ids, expected) && Missing(expected, ids) == {} {
      forall x ensures multiset(ids)[x] == if x in expected then 1 else 0 {
        if x in ids {
          var k :| 0 <= k < |ids| && ids[k] == x;
          assert x in multiset(ids);
        } else {
          assert x in expected ==> x in Missing(expected, ids);
        }
      }
    }
  }

  lemma {:induction false} InConcat(lists: seq<seq<Issue>>, i: Issue)
    ensures i in Concat(lists) <==> exists k :: 0 <= k < |lists| && i in lists[k]
  {
    if lists != [] {
      InConcat(lists[..|lists|-1], i);
    }
  }

  lemma InObligationFindings(inp: CheckerInput, os: seq<Obligation>, layout: seq<LayoutAssertion>, i: Issue)
    ensures i in Concat(IssuesPerObligation(inp, os, layout)) <==>
            exists k :: 0 <= k < |os| && i in IssuesPerObligation(inp, os, layout)[k]
  {
    InConcat(IssuesPerObligation(inp, os, layout), i);
  }

  lemma {:induction false} ConcatEmpty(lists: seq<seq<Issue>>)
    ensures Concat(lists) == [] <==> forall k :: 0 <= k < |lists| ==> lists[k] == []
  {
    if lists != [] {
      ConcatEmpty(lists[..|lists|-1]);
    }
  }

  lemma InVisualIssues(vs: seq<VisualObservation>, i: Issue)
    ensures i in VisualIssues(vs) <==> exists k :: 0 <= k < |vs| && vs[k].flagged && i == VisualIssue(vs[k].elementId)
  {
    if i in VisualIssues(vs) {
      var k := VisualIssueSource(vs, i);
    }
    if k :| 0 <= k < |vs| && vs[k].flagged && i == VisualIssue(vs[k].elementId) {
      FlaggedIsRaised(vs, k);
    }
  }

  lemma {:induction false} VisualIssueSource(vs: seq<VisualObservation>, i: Issue) returns (k: nat)
    requires i in VisualIssues(vs)
    ensures k < |vs| && vs[k].flagged && i == VisualIssue(vs[k].elementId)
  {
    var init := vs[..|vs|-1];
    if i in VisualIssues(init) {
      k := VisualIssueSource(init, i);
    } else {
      k := |vs| - 1;
    }
  }

  lemma {:induction false} FlaggedIsRaised(vs: seq<VisualObservation>, k: nat)
    requires k < |vs| && vs[k].flagged
    ensures VisualIssue(vs[k].elementId) in VisualIssues(vs)
  {
    if k < |vs| - 1 {
      FlaggedIsRaised(vs[..|vs|-1], k);
    }
  }

  /** The evidence passes exactly when it covers each manifest element once and nothing else. */
  lemma EvidenceGate(inp: CheckerInput)
    requires EvidenceBound(inp)
    ensures EvidenceCovers(inp) <==>
            EvidenceIssues(ElementIds(inp.manifest.entries), LayoutIds(inp.layout.value.assertions),
                           VisualIds(inp.visual.value.observations)) == []
  {
    var expected := ElementIds(inp.manifest.entries);
    EvidenceCleanIffExact(expected, LayoutIds(inp.layout.value.assertions));
    EvidenceCleanIffExact(expected, VisualIds(inp.visual.value.observations));
    var m1 := Missing(expected, LayoutIds(inp.layout.value.assertions));
    var m2 := Missing(expected, VisualIds(inp.visual.value.observations));
    assert m1 + m2 == {} <==> m1 == {} && m2 == {};
  }
}
