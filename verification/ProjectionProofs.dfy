/** What every run of the reducer keeps, whatever is delivered and in whatever order. */
module ProjectionProofs {
  import opened Domain
  import opened Gate
  import opened Projection

  // ---------------------------------------------------------------- the projected gate

  predicate ProjectedKind(k: IssueKind) {
    k == Known(ARTIFACT_PENDING) || k == Known(STALE_MANIFEST)
  }

  ghost predicate IssuesInOrder(issues: seq<OpenIssue>) {
    && (forall i :: 0 <= i < |issues| ==> ProjectedKind(issues[i].kind))
    && (forall i, j :: 0 <= i < j < |issues| ==> issues[i].kind != issues[j].kind)
  }

  /** The invariant of a projected production. */
  ghost predicate WellProjected(p: Projection) {
    && p.gate.state == STALE
    && p.gate.releaseEvidenceDigest == None
    && IssuesInOrder(p.gate.openIssues)
    && (p.manifests.currentId.Some? <==> p.manifests.lifecycle.Some?)
    && (p.manifests.currentId.Some? ==> HasKind(p.gate.openIssues, ARTIFACT_PENDING))
  }

  lemma {:induction false} KnownCodesAreProjected(issues: seq<OpenIssue>)
    requires IssuesInOrder(issues)
    ensures |KnownCodes(issues)| == |issues|
    ensures forall c :: c in KnownCodes(issues) ==> c == ARTIFACT_PENDING || c == STALE_MANIFEST
  {
    if issues != [] {
      KnownCodesAreProjected(issues[..|issues|-1]);
      assert ProjectedKind(issues[|issues|-1].kind);
    }
  }

  lemma FoldsToStale(codes: seq<IssueCode>, flags: ProjectionStatus)
    requires codes != [] && forall c :: c in codes ==> c == ARTIFACT_PENDING || c == STALE_MANIFEST
    ensures Folded(codes, flags) == STALE
  {
    FoldedMeaning(codes, flags);
    assert codes[0] in codes;
  }

  lemma ProjectedIssuesFoldToStale(issues: seq<OpenIssue>)
    requires IssuesInOrder(issues) && issues != []
    ensures StateOf(issues) == STALE
  {
    KnownCodesAreProjected(issues);
    var flags := ProjectionStatus(HasKind(issues, ARTIFACT_PENDING), HasKind(issues, STALE_MANIFEST));
    FoldsToStale(KnownCodes(issues), flags);
  }

  lemma AppendKeepsOrder(issues: seq<OpenIssue>, i: OpenIssue)
    requires IssuesInOrder(issues) && ProjectedKind(i.kind) && !HasKind(issues, i.kind.code)
    ensures IssuesInOrder(issues + [i]) && HasKind(issues + [i], i.kind.code)
    ensures forall c :: HasKind(issues, c) ==> HasKind(issues + [i], c)
  {
    var all := issues + [i];
    assert all[|issues|] == i;
    forall c | HasKind(issues, c) ensures HasKind(all, c) {
      var k :| 0 <= k < |issues| && issues[k].kind == Known(c);
      assert all[k] == issues[k];
    }
  }

  lemma {:induction false} WithoutKindKeepsOrder(issues: seq<OpenIssue>, code: IssueCode)
    requires IssuesInOrder(issues)
    ensures IssuesInOrder(WithoutKind(issues, code))
    ensures forall i :: i in WithoutKind(issues, code) ==> i in issues && i.kind != Known(code)
  {
    if issues != [] {
      var init, last := issues[..|issues|-1], issues[|issues|-1];
      WithoutKindKeepsOrder(init, code);
      var kept := WithoutKind(init, code);
      assert ProjectedKind(last.kind);
      forall i | i in kept ensures i.kind != last.kind && i in issues {
        var k :| 0 <= k < |init| && init[k] == i;
        assert issues[k] == i;
      }
      if last.kind != Known(code) {
        AppendKeepsOrder(kept, last);
      }
    }
  }

  lemma StepKeepsProjection(p: Projection, e: Event)
    requires WellProjected(p) && !e.payload.Unrecognised? && Refusal(Some(p), e) == None
    ensures WellProjected(Project(p, e))
  {
    var issues := p.gate.openIssues;
    match e.payload {
      case MemoAmended(docId, supersedes, _, _, _) =>
        var i := StaleIssue(docId, supersedes);
        if !HasKind(issues, STALE_MANIFEST) {
          AppendKeepsOrder(issues, i);
        }
        ProjectedIssuesFoldToStale(WithIssue(issues, i));
      case CreditRollSubmitted(manifestId, _, _, _) =>
        var i := PendingIssue(manifestId);
        if !HasKind(issues, ARTIFACT_PENDING) {
          AppendKeepsOrder(issues, i);
        }
        ProjectedIssuesFoldToStale(WithIssue(issues, i));
      case PatchApplied(manifestId, patchId, _, _, _) =>
        WithoutKindKeepsOrder(issues, ARTIFACT_PENDING);
        AppendKeepsOrder(WithoutKind(issues, ARTIFACT_PENDING), PatchIssue(patchId, manifestId));
        ProjectedIssuesFoldToStale(WithoutKind(issues, ARTIFACT_PENDING) + [PatchIssue(patchId, manifestId)]);
      case ArtifactRendered(_, _, _, _) =>
        ProjectedIssuesFoldToStale(issues);
      case _ =>
    }
  }

  /** No event sequence projects READY_TO_EXPORT: the projected gate is always STALE, a current manifest
      always has ARTIFACT_PENDING open, and each issue type is open at most once. */
  lemma {:induction false} NeverProjectsReady(es: seq<Event>)
    ensures var p := Run(FRESH, es).projection; p.Some? ==> WellProjected(p.value)
  {
    if es != [] {
      var before, e := es[..|es|-1], es[|es|-1];
      NeverProjectsReady(before);
      var l := Run(FRESH, before);
      if Verdict(l, e) == Applied {
        StepKeepsProjection(if l.projection.Some? then l.projection.value else DEFAULT_PROJECTION, e);
      }
    }
  }

  // ---------------------------------------------------------------- the render anchor

  /** The events that set or clear the artifact index digest. */
  predicate TouchesAnchor(e: Event) {
    || e.payload.CreditRollSubmitted?
    || e.payload.PatchApplied?
    || e.payload.MemoAmended?
    || e.payload.ArtifactRendered?
  }

  /** The last anchor event in `es` is a render that carries `d`. */
  ghost predicate LastAnchorIs(es: seq<Event>, d: string) {
    exists i :: 0 <= i < |es|
                && es[i].payload.ArtifactRendered? && es[i].payload.artifactIndexDigest == d
                && forall j :: i < j < |es| ==> !TouchesAnchor(es[j])
  }

  function Anchor(p: Option<Projection>): Option<string> {
    if p.Some? then p.value.gate.artifactIndexDigest else None
  }

  lemma LastAnchorOfAppend(es: seq<Event>, e: Event, d: string)
    ensures LastAnchorIs(es + [e], d) <==>
            if TouchesAnchor(e) then e.payload.ArtifactRendered? && e.payload.artifactIndexDigest == d
            else LastAnchorIs(es, d)
  {
    var all := es + [e];
    assert all[|es|] == e;
    if !TouchesAnchor(e) && LastAnchorIs(es, d) {
      var i :| 0 <= i < |es| && es[i].payload.ArtifactRendered? && es[i].payload.artifactIndexDigest == d
               && forall j :: i < j < |es| ==> !TouchesAnchor(es[j]);
      assert all[i] == es[i];
    }
    if LastAnchorIs(all, d) {
      var i :| 0 <= i < |all| && all[i].payload.ArtifactRendered? && all[i].payload.artifactIndexDigest == d
               && forall j :: i < j < |all| ==> !TouchesAnchor(all[j]);
      assert i < |es| ==> es[i] == all[i] && forall j :: i < j < |es| ==> es[j] == all[j];
    }
  }

  /** The projected digest is `d` exactly when the last accepted event among submitted, patched, amended
      and rendered was a render carrying `d`. */
  lemma {:induction false} DigestIsLastRender(es: seq<Event>, d: string)
    ensures Anchor(Run(FRESH, es).projection) == Some(d) <==> LastAnchorIs(Accepted(FRESH, es), d)
  {
    if es != [] {
      var before, e := es[..|es|-1], es[|es|-1];
      DigestIsLastRender(before, d);
      LastAnchorOfAppend(Accepted(FRESH, before), e, d);
      assert Accepted(FRESH, before) + [] == Accepted(FRESH, before);
    }
  }

  // ---------------------------------------------------------------- deliveries and accepted events

  lemma RunOfAppend(l: Local, es: seq<Event>, e: Event)
    ensures Run(l, es + [e]) == Step(Run(l, es), e)
    ensures Accepted(l, es + [e]) ==
            Accepted(l, es) + (if Verdict(Run(l, es), e) == Applied then [e] else [])
  {
    assert (es + [e])[..|es|] == es;
  }

  /** Rejected, duplicate and stale deliveries leave no trace: folding a delivery sequence is folding its
      accepted events, every one of which is applied when folded alone. */
  lemma {:induction false} RunIsRunOfAccepted(l: Local, es: seq<Event>)
    ensures Run(l, es) == Run(l, Accepted(l, es))
    ensures Accepted(l, Accepted(l, es)) == Accepted(l, es)
  {
    if es != [] {
      var before, e := es[..|es|-1], es[|es|-1];
      RunIsRunOfAccepted(l, before);
      var kept := Accepted(l, before);
      if Verdict(Run(l, before), e) == Applied {
        RunOfAppend(l, kept, e);
      } else {
        assert kept + [] == kept;
      }
    }
  }

  function Ids(es: seq<Event>): set<string> {
    set e | e in es :: e.eventId
  }

  lemma IdsOfAppend(es: seq<Event>, e: Event)
    ensures Ids(es + [e]) == Ids(es) + {e.eventId}
    ensures forall i :: 0 <= i < |es| ==> es[i].eventId in Ids(es)
  {
    assert forall x :: x in es + [e] <==> x in es || x == e;
    forall i | 0 <= i < |es| ensures es[i].eventId in Ids(es) {
      assert es[i] in es;
    }
  }

  /** Versions rise from above `low` to `high`, and ids are distinct. */
  ghost predicate Rising(es: seq<Event>, low: int, high: int) {
    && (forall i :: 0 <= i < |es| ==> low < es[i].version <= high)
    && (forall i, j :: 0 <= i < j < |es| ==> es[i].version < es[j].version && es[i].eventId != es[j].eventId)
  }

  lemma RisingGrows(es: seq<Event>, low: int, high: int, e: Event)
    requires Rising(es, low, high) && low <= high < e.version && e.eventId !in Ids(es)
    ensures Rising(es + [e], low, e.version)
  {
    IdsOfAppend(es, e);
  }

  lemma StepAccepts(l: Local, e: Event)
    ensures Verdict(l, e) == Applied ==>
              Step(l, e).seen == l.seen + {e.eventId} && Step(l, e).version == e.version > l.version && e.eventId !in l.seen
    ensures Verdict(l, e) != Applied ==> Step(l, e) == l
  {
  }

  /** Accepted events have distinct ids and strictly increasing versions, and are what `seen` holds. */
  lemma {:induction false} AcceptedInOrder(l: Local, es: seq<Event>)
    ensures var acc := Accepted(l, es);
            && Run(l, es).seen == l.seen + Ids(acc)
            && l.version <= Run(l, es).version
            && Rising(acc, l.version, Run(l, es).version)
            && Ids(acc) !! l.seen
  {
    if es != [] {
      var before, e := es[..|es|-1], es[|es|-1];
      AcceptedInOrder(l, before);
      var kept := Accepted(l, before);
      StepAccepts(Run(l, before), e);
      if Verdict(Run(l, before), e) == Applied {
        IdsOfAppend(kept, e);
        RisingGrows(kept, l.version, Run(l, before).version, e);
      } else {
        assert kept + [] == kept;
      }
    }
  }

  lemma {:induction false} SeenAndVersionGrow(l: Local, es: seq<Event>)
    ensures l.seen <= Run(l, es).seen && l.version <= Run(l, es).version
  {
    if es != [] {
      SeenAndVersionGrow(l, es[..|es|-1]);
    }
  }

  /** Once a delivery was applied or skipped, every later delivery of the same event is a no-op,
      whatever was delivered in between. */
  lemma RedeliveryIsNoop(l: Local, e: Event, between: seq<Event>)
    requires !Verdict(l, e).Rejected?
    ensures var later := Run(Step(l, e), between);
            && Verdict(later, e) in {Duplicate, Stale}
            && Step(later, e) == later
  {
    SeenAndVersionGrow(Step(l, e), between);
  }

  function LogEntries(es: seq<Event>): seq<LogEntry> {
    if es == [] then []
    else
      var e := es[|es|-1];
      LogEntries(es[..|es|-1]) + (if e.payload.ResolutionRecorded? then [e.payload.entry] else [])
  }

  function LogOf(p: Option<Projection>): seq<LogEntry> {
    if p.Some? then p.value.authorizationLog else []
  }

  lemma ProjectAppendsToLog(p: Projection, e: Event)
    requires !e.payload.Unrecognised?
    ensures Project(p, e).authorizationLog ==
            p.authorizationLog + (if e.payload.ResolutionRecorded? then [e.payload.entry] else [])
  {
  }

  /** The authorization log is the accepted resolution records, in acceptance order. */
  lemma {:induction false} LogIsAcceptedResolutions(es: seq<Event>)
    ensures LogOf(Run(FRESH, es).projection) == LogEntries(Accepted(FRESH, es))
  {
    if es != [] {
      var before, e := es[..|es|-1], es[|es|-1];
      LogIsAcceptedResolutions(before);
      var l, kept := Run(FRESH, before), Accepted(FRESH, before);
      if Verdict(l, e) == Applied {
        assert (kept + [e])[..|kept|] == kept;
        ProjectAppendsToLog(if l.projection.Some? then l.projection.value else DEFAULT_PROJECTION, e);
        assert LogOf(Some(DEFAULT_PROJECTION)) == LogOf(None);
      } else {
        assert kept + [] == kept;
      }
    }
  }
}
