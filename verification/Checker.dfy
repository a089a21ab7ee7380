/** The deterministic compliance checker: `evaluate_findings` and the functions it is proved against. */
module Checker {
  import opened Domain
  import opened Records

  datatype CheckerInput = CheckerInput(obligations: seq<Obligation>, manifest: Manifest,
                                       layout: Option<LayoutEvidence>, visual: Option<VisualObservations>,
                                       registry: seq<Contributor>, bindings: map<string, string>)

  // ---------------------------------------------------------------- issues

  function StableIssueId(obligationId: Option<string>, code: IssueCode, discriminator: string): IssueId {
    Sha256Of((if obligationId.Some? then obligationId.value else "") + ":" + CodeName(code) + ":" + discriminator)
  }

  function NewIssue(code: IssueCode, o: Option<Obligation>, refs: set<string>, discriminator: string): Issue {
    var oid := if o.Some? then Some(o.value.id) else None;
    Issue(StableIssueId(oid, code, discriminator), code, oid, refs,
          if o.Some? then Some(o.value.source) else None)
  }

  // ---------------------------------------------------------------- identity resolution

  predicate NamedBy(c: Contributor, needle: Text) {
    Nfc(c.canonicalName) == needle || exists i :: 0 <= i < |c.aliases| && Nfc(c.aliases[i]) == needle
  }

  /** The contributors whose canonical name or an alias is the text; rows of one id count once. */
  function RegistryMatches(text: Text, registry: seq<Contributor>): set<string> {
    set i | 0 <= i < |registry| && NamedBy(registry[i], Nfc(text)) :: registry[i].id
  }

  method ResolveObligeeText(text: Text, registry: seq<Contributor>) returns (matches: set<string>)
    ensures matches == RegistryMatches(text, registry)
  {
    var needle := Nfc(text);
    matches := {};
    for i := 0 to |registry|
      invariant matches == set k | 0 <= k < i && NamedBy(registry[k], needle) :: registry[k].id
    {
      var record := registry[i];
      if Nfc(record.canonicalName) == needle {
        matches := matches + {record.id};
        continue;
      }
      for j := 0 to |record.aliases|
        invariant forall k :: 0 <= k < j ==> Nfc(record.aliases[k]) != needle
        invariant matches == set k | 0 <= k < i && NamedBy(registry[k], needle) :: registry[k].id
      {
        if Nfc(record.aliases[j]) == needle {
          matches := matches + {record.id};
          break;
        }
      }
    }
  }

  predicate InManifest(m: Manifest, contributorId: string) {
    exists i :: 0 <= i < |m.entries| && m.entries[i].contributorId == contributorId
  }

  predicate HasObligee(o: Obligation) {
    o.obligeeText.Some? && !Blank(o.obligeeText.value.normalForm)
  }

  /** The contributor an ACTIVE obligation is about, or the code of the issue raised instead. */
  datatype Party = Party(id: string) | Unresolved(code: IssueCode)

  function ResolveParty(inp: CheckerInput, o: Obligation): Party {
    if o.creditedPartyId.Some? then
      if InManifest(inp.manifest, o.creditedPartyId.value) then Party(o.creditedPartyId.value)
      else Unresolved(MISSING_CREDIT)
    else if HasObligee(o) then
      if o.id in inp.bindings then Party(inp.bindings[o.id])
      else
        var matches := RegistryMatches(o.obligeeText.value, inp.registry);
        if |matches| != 1 then Unresolved(AMBIGUOUS_IDENTITY)
        else
          var id := Only(matches);
          if InManifest(inp.manifest, id) then Party(id) else Unresolved(MISSING_CREDIT)
    else Unresolved(UNCONFIRMED_OBLIGATION)
  }

  lemma SingletonIsUnique(s: set<string>, a: string, b: string)
    requires |s| == 1 && a in s && b in s
    ensures a == b
  {
    assert |s - {a}| == 0;
    assert b !in s - {a};
  }

  function Only(s: set<string>): (x: string)
    requires |s| == 1
    ensures s == {x}
  {
    assert s != {};
    var x :| x in s;
    assert s == {x} by {
      forall y | y in s ensures y == x { SingletonIsUnique(s, x, y); }
    }
    assert forall y :: y in s ==> y == x;
    x
  }

  // ---------------------------------------------------------------- field checks

  predicate OnSurface(e: ManifestEntry, contributorId: string, surface: CreditSurface) {
    e.contributorId == contributorId && e.surface == surface
  }

  /** The contributor's first manifest entry on the surface: the only one that is checked. */
  function FirstEntry(entries: seq<ManifestEntry>, contributorId: string, surface: CreditSurface): Option<ManifestEntry> {
    if entries == [] then None
    else
      var before := FirstEntry(entries[..|entries|-1], contributorId, surface);
      var last := entries[|entries|-1];
      if before.Some? then before else if OnSurface(last, contributorId, surface) then Some(last) else None
  }

  predicate TextMet(required: Option<Text>, actual: Text) {
    required.Some? ==> Nfc(required.value) == Nfc(actual)
  }

  predicate Grouped(e: ManifestEntry) {
    e.groupId.Some? || e.sharedWith != []
  }

  predicate GroupingMet(o: Obligation, e: ManifestEntry) {
    && (o.cardType == Some(SOLO) ==> !Grouped(e))
    && (o.cardType == Some(SHARED) ==> Grouped(e))
  }

  predicate PositionMet(o: Obligation, e: ManifestEntry) {
    o.cardPosition.Some? && o.cardPosition.value.AbsolutePosition? ==> e.ordinal == o.cardPosition.value.ordinal
  }

  /** The font size recorded for an element; the last assertion about it counts. */
  function FontSize(layout: seq<LayoutAssertion>, elementId: string): Option<real> {
    if layout == [] then None
    else if layout[|layout|-1].elementId == elementId then Some(layout[|layout|-1].fontSizePx)
    else FontSize(layout[..|layout|-1], elementId)
  }

  function ReferenceSize(o: Obligation, layout: seq<LayoutAssertion>): Option<real> {
    if o.sizeReference.Some? && o.sizeReference.value != "" then FontSize(layout, o.sizeReference.value) else None
  }

  function SizeIssue(o: Obligation, e: ManifestEntry, layout: seq<LayoutAssertion>): seq<Issue> {
    if o.minimumRelativeSize.None? then []
    else
      var subject, reference := FontSize(layout, e.elementId), ReferenceSize(o, layout);
      if subject.None? || reference.None? then
        [NewIssue(REQUIRED_EVIDENCE_UNAVAILABLE, Some(o), {e.elementId}, "")]
      else if subject.value + 0.1 < o.minimumRelativeSize.value * reference.value then
        [NewIssue(ARTIFACT_SIZE_MISMATCH, Some(o), {e.elementId}, "")]
      else []
  }

  function IssueIf(bad: bool, i: Issue): seq<Issue> {
    if bad then [i] else []
  }

  function FieldIssues(o: Obligation, e: ManifestEntry, layout: seq<LayoutAssertion>): seq<Issue> {
    var refs := {e.elementId};
    IssueIf(!TextMet(o.displayText, e.displayName), NewIssue(ARTIFACT_TEXT_MISMATCH, Some(o), refs, "display_name"))
    + IssueIf(!TextMet(o.roleLabel, e.role), NewIssue(ARTIFACT_TEXT_MISMATCH, Some(o), refs, "role"))
    + IssueIf(!GroupingMet(o, e), NewIssue(ARTIFACT_GROUPING_MISMATCH, Some(o), refs, ""))
    + IssueIf(!PositionMet(o, e), NewIssue(ARTIFACT_POSITION_MISMATCH, Some(o), refs, ""))
    + SizeIssue(o, e, layout)
  }

  function PartyIssues(inp: CheckerInput, o: Obligation, layout: seq<LayoutAssertion>): seq<Issue> {
    var party := ResolveParty(inp, o);
    if party.Unresolved? then [NewIssue(party.code, Some(o), {}, "")]
    else
      var entry := FirstEntry(inp.manifest.entries, party.id, o.surface);
      if entry.None? then [NewIssue(MISSING_CREDIT, Some(o), {}, "")]
      else if FontSize(layout, entry.value.elementId).None? then
        [NewIssue(ARTIFACT_PENDING, Some(o), {entry.value.elementId}, "")]
      else FieldIssues(o, entry.value, layout)
  }

  function ObligationIssues(inp: CheckerInput, o: Obligation, layout: seq<LayoutAssertion>): seq<Issue> {
    match o.status
    case Waived => []
    case Superseded => []
    case Conflicting => [NewIssue(CONFLICTING_OBLIGATION, Some(o), {}, "")]
    case PendingExternalAuthority => [NewIssue(UNSUPPORTED_PRESENTATION_ASSERTION, Some(o), {}, "")]
    case Candidate => [NewIssue(UNCONFIRMED_OBLIGATION, Some(o), {}, "")]
    case NeedsConfirmation => [NewIssue(UNCONFIRMED_OBLIGATION, Some(o), {}, "")]
    case Active =>
      IssueIf(o.minimumVisibleDurationMs.Some?, NewIssue(UNSUPPORTED_PRESENTATION_ASSERTION, Some(o), {}, ""))
      + PartyIssues(inp, o, layout)
  }

  function Concat(lists: seq<seq<Issue>>): seq<Issue> {
    if lists == [] then [] else Concat(lists[..|lists|-1]) + lists[|lists|-1]
  }

  function IssuesPerObligation(inp: CheckerInput, os: seq<Obligation>, layout: seq<LayoutAssertion>): seq<seq<Issue>> {
    seq(|os|, k requires 0 <= k < |os| => ObligationIssues(inp, os[k], layout))
  }

  /** A field issue names its obligation and is never one that a human can clear. */
  lemma FieldIssueShape(o: Obligation, e: ManifestEntry, layout: seq<LayoutAssertion>, i: Issue)
    requires i in FieldIssues(o, e, layout)
    ensures i.obligationId == Some(o.id)
    ensures i.code in {ARTIFACT_TEXT_MISMATCH, ARTIFACT_GROUPING_MISMATCH, ARTIFACT_POSITION_MISMATCH,
                       ARTIFACT_SIZE_MISMATCH, REQUIRED_EVIDENCE_UNAVAILABLE}
  {
    if i in SizeIssue(o, e, layout) {
    } else {
      assert i in [NewIssue(ARTIFACT_TEXT_MISMATCH, Some(o), {e.elementId}, "display_name"),
                   NewIssue(ARTIFACT_TEXT_MISMATCH, Some(o), {e.elementId}, "role"),
                   NewIssue(ARTIFACT_GROUPING_MISMATCH, Some(o), {e.elementId}, ""),
                   NewIssue(ARTIFACT_POSITION_MISMATCH, Some(o), {e.elementId}, "")];
    }
  }

  /** An obligation's issues name it; the ambiguity one is unique, and none is a visual one. */
  lemma ObligationIssueShape(inp: CheckerInput, o: Obligation, layout: seq<LayoutAssertion>, i: Issue)
    requires i in ObligationIssues(inp, o, layout)
    ensures i.obligationId == Some(o.id)
    ensures i.code != VISUAL_OBSERVATION_UNCERTAIN
    ensures i.code == AMBIGUOUS_IDENTITY ==> i == NewIssue(AMBIGUOUS_IDENTITY, Some(o), {}, "")
  {
    if o.status == Active && i in PartyIssues(inp, o, layout) {
      var party := ResolveParty(inp, o);
      if party.Party? {
        var entry := FirstEntry(inp.manifest.entries, party.id, o.surface);
        if entry.Some? && FontSize(layout, entry.value.elementId).Some? {
          FieldIssueShape(o, entry.value, layout, i);
        }
      }
    }
  }

  // ---------------------------------------------------------------- artifact evidence

  function VisualIssue(elementId: string): Issue {
    NewIssue(VISUAL_OBSERVATION_UNCERTAIN, None, {elementId}, elementId)
  }

  function VisualIssues(observations: seq<VisualObservation>): seq<Issue> {
    if observations == [] then []
    else
      var v := observations[|observations|-1];
      VisualIssues(observations[..|observations|-1]) + IssueIf(v.flagged, VisualIssue(v.elementId))
  }

  function ElementIds(entries: seq<ManifestEntry>): seq<string> {
    seq(|entries|, i requires 0 <= i < |entries| => entries[i].elementId)
  }

  function LayoutIds(layout: seq<LayoutAssertion>): seq<string> {
    seq(|layout|, i requires 0 <= i < |layout| => layout[i].elementId)
  }

  function VisualIds(visual: seq<VisualObservation>): seq<string> {
    seq(|visual|, i requires 0 <= i < |visual| => visual[i].elementId)
  }

  /** Some id is not a manifest element, or occurs twice. */
  predicate HasStray(ids: seq<string>, expected: seq<string>) {
    exists i :: 0 <= i < |ids| && (ids[i] !in expected || multiset(ids)[ids[i]] > 1)
  }

  function Missing(expected: seq<string>, ids: seq<string>): set<string> {
    set i | 0 <= i < |expected| && expected[i] !in ids :: expected[i]
  }

  function EvidenceIssues(expected: seq<string>, layoutIds: seq<string>, visualIds: seq<string>): seq<Issue> {
    var missing := Missing(expected, layoutIds) + Missing(expected, visualIds);
    IssueIf(HasStray(layoutIds, expected) || HasStray(visualIds, expected),
            NewIssue(ARTIFACT_INTEGRITY_FAILURE, None, {}, ""))
    + IssueIf(missing != {}, NewIssue(ARTIFACT_PENDING, None, missing, ""))
  }

  predicate EvidenceBound(inp: CheckerInput) {
    && inp.layout.Some? && inp.visual.Some?
    && inp.layout.value.manifestId == inp.manifest.id
    && inp.visual.value.manifestId == inp.manifest.id
  }

  /** The findings as a function of the input. */
  function Findings(inp: CheckerInput): seq<Issue> {
    if !EvidenceBound(inp) then [NewIssue(ARTIFACT_PENDING, None, {}, "")]
    else
      var layout, visual := inp.layout.value.assertions, inp.visual.value.observations;
      var evidence := EvidenceIssues(ElementIds(inp.manifest.entries), LayoutIds(layout), VisualIds(visual));
      if evidence != [] then evidence
      else Concat(IssuesPerObligation(inp, inp.obligations, layout)) + VisualIssues(visual)
  }

  // ---------------------------------------------------------------- the checker's loops

  method CountIds(ids: seq<string>) returns (counts: map<string, nat>)
    ensures forall x :: x in counts <==> x in ids
    ensures forall x :: x in counts ==> counts[x] == multiset(ids)[x]
  {
    counts := map[];
    for i := 0 to |ids|
      invariant forall x :: x in counts <==> x in ids[..i]
      invariant forall x :: x in counts ==> counts[x] == multiset(ids[..i])[x]
    {
      assert ids[..i+1] == ids[..i] + [ids[i]];
      counts := counts[ids[i] := (if ids[i] in counts then counts[ids[i]] else 0) + 1];
    }
    assert ids[..|ids|] == ids;
  }

  method CheckEvidence(expected: seq<string>, layoutIds: seq<string>, visualIds: seq<string>)
    returns (issues: seq<Issue>)
    ensures issues == EvidenceIssues(expected, layoutIds, visualIds)
  {
    var layoutCounts := CountIds(layoutIds);
    var visualCounts := CountIds(visualIds);
    issues := [];
    var strayLayout := exists x :: x in layoutCounts && (x !in expected || layoutCounts[x] > 1);
    var strayVisual := exists x :: x in visualCounts && (x !in expected || visualCounts[x] > 1);
    StrayByCounts(layoutCounts, layoutIds, expected);
    StrayByCounts(visualCounts, visualIds, expected);
    if strayLayout || strayVisual {
      issues := issues + [NewIssue(ARTIFACT_INTEGRITY_FAILURE, None, {}, "")];
    }
    var missing := (set i | 0 <= i < |expected| && expected[i] !in layoutCounts :: expected[i])
    + (set i | 0 <= i < |expected| && expected[i] !in visualCounts :: expected[i]);
    MissingByCounts(layoutCounts, layoutIds, expected);
    MissingByCounts(visualCounts, visualIds, expected);
    if missing != {} {
      issues := issues + [NewIssue(ARTIFACT_PENDING, None, missing, "")];
    }
  }

  lemma MissingByCounts(counts: map<string, nat>, ids: seq<string>, expected: seq<string>)
    requires forall x :: x in counts <==> x in ids
    ensures Missing(expected, ids) == set i | 0 <= i < |expected| && expected[i] !in counts :: expected[i]
  {
  }

  lemma StrayByCounts(counts: map<string, nat>, ids: seq<string>, expected: seq<string>)
    requires forall x :: x in counts <==> x in ids
    requires forall x :: x in counts ==> counts[x] == multiset(ids)[x]
    ensures HasStray(ids, expected) <==> exists x :: x in counts && (x !in expected || counts[x] > 1)
  {
    if HasStray(ids, expected) {
      var i :| 0 <= i < |ids| && (ids[i] !in expected || multiset(ids)[ids[i]] > 1);
      assert ids[i] in counts;
    }
    if x :| x in counts && (x !in expected || counts[x] > 1) {
      var i :| 0 <= i < |ids| && ids[i] == x;
    }
  }

  method IndexLayout(layout: seq<LayoutAssertion>) returns (byId: map<string, LayoutAssertion>)
    ensures forall x :: x in byId <==> FontSize(layout, x).Some?
    ensures forall x :: x in byId ==> FontSize(layout, x) == Some(byId[x].fontSizePx)
  {
    byId := map[];
    for i := 0 to |layout|
      invariant forall x :: x in byId <==> FontSize(layout[..i], x).Some?
      invariant forall x :: x in byId ==> FontSize(layout[..i], x) == Some(byId[x].fontSizePx)
    {
      assert layout[..i+1][..i] == layout[..i];
      byId := byId[layout[i].elementId := layout[i]];
    }
    assert layout[..|layout|] == layout;
  }

  /** The entries are grouped by contributor, each group in manifest order. */
  ghost predicate Groups(byContributor: map<string, seq<ManifestEntry>>, entries: seq<ManifestEntry>) {
    forall c ::
      && (c in byContributor <==> exists i :: 0 <= i < |entries| && entries[i].contributorId == c)
      && (c in byContributor ==>
            forall s :: FirstEntry(byContributor[c], c, s) == FirstEntry(entries, c, s))
  }

  method GroupByContributor(entries: seq<ManifestEntry>) returns (byContributor: map<string, seq<ManifestEntry>>)
    ensures Groups(byContributor, entries)
  {
    byContributor := map[];
    for i := 0 to |entries|
      invariant Groups(byContributor, entries[..i])
    {
      var e := entries[i];
      assert entries[..i+1][..i] == entries[..i];
      var group := if e.contributorId in byContributor then byContributor[e.contributorId] else [];
      var next := byContributor[e.contributorId := group + [e]];
      GroupsExtended(byContributor, next, entries[..i], e, group);
      assert entries[..i] + [e] == entries[..i+1];
      byContributor := next;
    }
    assert entries[..|entries|] == entries;
  }

  lemma FirstEntryOfAppend(entries: seq<ManifestEntry>, e: ManifestEntry, c: string, s: CreditSurface)
    ensures FirstEntry(entries + [e], c, s) ==
            (if FirstEntry(entries, c, s).Some? then FirstEntry(entries, c, s)
             else if OnSurface(e, c, s) then Some(e) else None)
  {
    assert (entries + [e])[..|entries|] == entries;
  }

  lemma {:induction false} AbsentHasNoEntry(entries: seq<ManifestEntry>, c: string, s: CreditSurface)
    requires forall i :: 0 <= i < |entries| ==> entries[i].contributorId != c
    ensures FirstEntry(entries, c, s) == None
  {
    if entries != [] {
      AbsentHasNoEntry(entries[..|entries|-1], c, s);
    }
  }

  lemma GroupsExtended(m: map<string, seq<ManifestEntry>>, m': map<string, seq<ManifestEntry>>,
                       entries: seq<ManifestEntry>, e: ManifestEntry, group: seq<ManifestEntry>)
    requires Groups(m, entries)
    requires group == (if e.contributorId in m then m[e.contributorId] else [])
    requires m' == m[e.contributorId := group + [e]]
    ensures Groups(m', entries + [e])
  {
    var all := entries + [e];
    forall c
      ensures c in m' <==> exists i :: 0 <= i < |all| && all[i].contributorId == c
      ensures c in m' ==> forall s :: FirstEntry(m'[c], c, s) == FirstEntry(all, c, s)
    {
      assert all[|entries|] == e;
      if c in m {
        var i :| 0 <= i < |entries| && entries[i].contributorId == c;
        assert all[i].contributorId == c;
      }
      forall s | c in m' ensures FirstEntry(m'[c], c, s) == FirstEntry(all, c, s) {
        FirstEntryOfAppend(entries, e, c, s);
        if c == e.contributorId {
          FirstEntryOfAppend(group, e, c, s);
          if c !in m {
            AbsentHasNoEntry(entries, c, s);
          }
        }
      }
    }
  }

  /** The head of the list comprehension that keeps the contributor's entries on the surface. */
  method SurfaceEntries(entries: seq<ManifestEntry>, c: string, surface: CreditSurface)
    returns (kept: seq<ManifestEntry>)
    ensures FirstEntry(entries, c, surface) == (if kept == [] then None else Some(kept[0]))
  {
    kept := [];
    for i := 0 to |entries|
      invariant FirstEntry(entries[..i], c, surface) == (if kept == [] then None else Some(kept[0]))
    {
      FirstEntryOfAppend(entries[..i], entries[i], c, surface);
      assert entries[..i+1] == entries[..i] + [entries[i]];
      if OnSurface(entries[i], c, surface) {
        kept := kept + [entries[i]];
      }
    }
    assert entries[..|entries|] == entries;
  }

  method CheckSize(o: Obligation, e: ManifestEntry, layout: seq<LayoutAssertion>,
                   layoutById: map<string, LayoutAssertion>)
    returns (issues: seq<Issue>)
    requires forall x :: x in layoutById <==> FontSize(layout, x).Some?
    requires forall x :: x in layoutById ==> FontSize(layout, x) == Some(layoutById[x].fontSizePx)
    ensures issues == SizeIssue(o, e, layout)
  {
    if o.minimumRelativeSize.None? {
      return [];
    }
    var referenceId := if o.sizeReference.Some? then o.sizeReference.value else "";
    if e.elementId !in layoutById || referenceId == "" || referenceId !in layoutById {
      return [NewIssue(REQUIRED_EVIDENCE_UNAVAILABLE, Some(o), {e.elementId}, "")];
    }
    var required := o.minimumRelativeSize.value * layoutById[referenceId].fontSizePx;
    if layoutById[e.elementId].fontSizePx + 0.1 < required {
      return [NewIssue(ARTIFACT_SIZE_MISMATCH, Some(o), {e.elementId}, "")];
    }
    return [];
  }

  /** Text, role, grouping, position and size of a resolved entry. */
  method CheckFields(o: Obligation, e: ManifestEntry, layout: seq<LayoutAssertion>,
                     layoutById: map<string, LayoutAssertion>)
    returns (issues: seq<Issue>)
    requires forall x :: x in layoutById <==> FontSize(layout, x).Some?
    requires forall x :: x in layoutById ==> FontSize(layout, x) == Some(layoutById[x].fontSizePx)
    ensures issues == FieldIssues(o, e, layout)
  {
    issues := [];
    ghost var spec := IssueIf(!TextMet(o.displayText, e.displayName),
                              NewIssue(ARTIFACT_TEXT_MISMATCH, Some(o), {e.elementId}, "display_name"));
    if o.displayText.Some? && Nfc(o.displayText.value) != Nfc(e.displayName) {
      issues := issues + [NewIssue(ARTIFACT_TEXT_MISMATCH, Some(o), {e.elementId}, "display_name")];
    }
    assert issues == spec;
    spec := spec + IssueIf(!TextMet(o.roleLabel, e.role), NewIssue(ARTIFACT_TEXT_MISMATCH, Some(o), {e.elementId}, "role"));
    if o.roleLabel.Some? && Nfc(o.roleLabel.value) != Nfc(e.role) {
      issues := issues + [NewIssue(ARTIFACT_TEXT_MISMATCH, Some(o), {e.elementId}, "role")];
    }
    assert issues == spec;
    spec := spec + IssueIf(!GroupingMet(o, e), NewIssue(ARTIFACT_GROUPING_MISMATCH, Some(o), {e.elementId}, ""));
    if o.cardType == Some(SOLO) {
      if e.groupId.Some? || e.sharedWith != [] {
        issues := issues + [NewIssue(ARTIFACT_GROUPING_MISMATCH, Some(o), {e.elementId}, "")];
      }
    } else if o.cardType == Some(SHARED) && e.groupId.None? && e.sharedWith == [] {
      issues := issues + [NewIssue(ARTIFACT_GROUPING_MISMATCH, Some(o), {e.elementId}, "")];
    }
    assert issues == spec;
    spec := spec + IssueIf(!PositionMet(o, e), NewIssue(ARTIFACT_POSITION_MISMATCH, Some(o), {e.elementId}, ""));
    if o.cardPosition.Some? && o.cardPosition.value.AbsolutePosition? && e.ordinal != o.cardPosition.value.ordinal {
      issues := issues + [NewIssue(ARTIFACT_POSITION_MISMATCH, Some(o), {e.elementId}, "")];
    }
    assert issues == spec;
    var size := CheckSize(o, e, layout, layoutById);
    issues := issues + size;
  }

  method CheckParty(inp: CheckerInput, o: Obligation, layout: seq<LayoutAssertion>,
                    byContributor: map<string, seq<ManifestEntry>>, layoutById: map<string, LayoutAssertion>)
    returns (issues: seq<Issue>)
    requires Groups(byContributor, inp.manifest.entries)
    requires forall x :: x in layoutById <==> FontSize(layout, x).Some?
    requires forall x :: x in layoutById ==> FontSize(layout, x) == Some(layoutById[x].fontSizePx)
    ensures issues == PartyIssues(inp, o, layout)
  {
    assert forall c :: c in byContributor <==> InManifest(inp.manifest, c);
    var resolved: string;
    if o.creditedPartyId.Some? {
      resolved := o.creditedPartyId.value;
      if resolved !in byContributor {
        return [NewIssue(MISSING_CREDIT, Some(o), {}, "")];
      }
    } else if HasObligee(o) {
      if o.id in inp.bindings {
        resolved := inp.bindings[o.id];
      } else {
        var matches := ResolveObligeeText(o.obligeeText.value, inp.registry);
        if |matches| != 1 {
          return [NewIssue(AMBIGUOUS_IDENTITY, Some(o), {}, "")];
        }
        resolved := Only(matches);
        if resolved !in byContributor {
          return [NewIssue(MISSING_CREDIT, Some(o), {}, "")];
        }
      }
    } else {
      return [NewIssue(UNCONFIRMED_OBLIGATION, Some(o), {}, "")];
    }
    assert ResolveParty(inp, o) == Party(resolved);
    var entries := if resolved in byContributor then byContributor[resolved] else [];
    var onSurface := SurfaceEntries(entries, resolved, o.surface);
    if resolved !in byContributor {
      AbsentHasNoEntry(inp.manifest.entries, resolved, o.surface);
    }
    if onSurface == [] {
      return [NewIssue(MISSING_CREDIT, Some(o), {}, "")];
    }
    if onSurface[0].elementId !in layoutById {
      return [NewIssue(ARTIFACT_PENDING, Some(o), {onSurface[0].elementId}, "")];
    }
    issues := CheckFields(o, onSurface[0], layout, layoutById);
  }

  /** The lifecycle routing of one obligation, and the checks of an ACTIVE one. */
  method CheckObligation(inp: CheckerInput, o: Obligation, layout: seq<LayoutAssertion>,
                         byContributor: map<string, seq<ManifestEntry>>, layoutById: map<string, LayoutAssertion>)
    returns (issues: seq<Issue>)
    requires Groups(byContributor, inp.manifest.entries)
    requires forall x :: x in layoutById <==> FontSize(layout, x).Some?
    requires forall x :: x in layoutById ==> FontSize(layout, x) == Some(layoutById[x].fontSizePx)
    ensures issues == ObligationIssues(inp, o, layout)
  {
    match o.status {
      case Waived =>
        issues := [];
      case Superseded =>
        issues := [];
      case Conflicting =>
        issues := [NewIssue(CONFLICTING_OBLIGATION, Some(o), {}, "")];
      case PendingExternalAuthority =>
        issues := [NewIssue(UNSUPPORTED_PRESENTATION_ASSERTION, Some(o), {}, "")];
      case Candidate =>
        issues := [NewIssue(UNCONFIRMED_OBLIGATION, Some(o), {}, "")];
      case NeedsConfirmation =>
        issues := [NewIssue(UNCONFIRMED_OBLIGATION, Some(o), {}, "")];
      case Active =>
        issues := [];
        if o.minimumVisibleDurationMs.Some? {
          issues := issues + [NewIssue(UNSUPPORTED_PRESENTATION_ASSERTION, Some(o), {}, "")];
        }
        var party := CheckParty(inp, o, layout, byContributor, layoutById);
        issues := issues + party;
    }
  }

  method CheckObligations(inp: CheckerInput, layout: seq<LayoutAssertion>) returns (issues: seq<Issue>)
    ensures issues == Concat(IssuesPerObligation(inp, inp.obligations, layout))
  {
    var byContributor := GroupByContributor(inp.manifest.entries);
    var layoutById := IndexLayout(layout);
    issues := [];
    ghost var lists := IssuesPerObligation(inp, inp.obligations, layout);
    for i := 0 to |inp.obligations|
      invariant issues == Concat(lists[..i])
    {
      var found := CheckObligation(inp, inp.obligations[i], layout, byContributor, layoutById);
      ConcatNext(lists, i, found);
      issues := issues + found;
    }
    assert lists[..|lists|] == lists;
  }

  lemma ConcatNext(lists: seq<seq<Issue>>, i: nat, found: seq<Issue>)
    requires i < |lists| && lists[i] == found
    ensures Concat(lists[..i+1]) == Concat(lists[..i]) + found
  {
    assert lists[..i+1][..i] == lists[..i];
  }

  method CheckVisual(visual: seq<VisualObservation>) returns (issues: seq<Issue>)
    ensures issues == VisualIssues(visual)
  {
    issues := [];
    for i := 0 to |visual|
      invariant issues == VisualIssues(visual[..i])
    {
      assert visual[..i+1][..i] == visual[..i];
      if visual[i].flagged {
        issues := issues + [VisualIssue(visual[i].elementId)];
      }
    }
    assert visual[..|visual|] == visual;
  }

  method EvaluateFindings(inp: CheckerInput) returns (issues: seq<Issue>)
    ensures issues == Findings(inp)
  {
    if inp.layout.None? || inp.visual.None? {
      return [NewIssue(ARTIFACT_PENDING, None, {}, "")];
    }
    if inp.layout.value.manifestId != inp.manifest.id || inp.visual.value.manifestId != inp.manifest.id {
      return [NewIssue(ARTIFACT_PENDING, None, {}, "")];
    }
    var layout, visual := inp.layout.value.assertions, inp.visual.value.observations;
    issues := CheckEvidence(ElementIds(inp.manifest.entries), LayoutIds(layout), VisualIds(visual));
    if issues != [] {
      return;
    }
    issues := CheckObligations(inp, layout);
    var uncertain := CheckVisual(visual);
    issues := issues + uncertain;
  }
}
