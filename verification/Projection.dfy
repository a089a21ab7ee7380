/** The event reducer: events, one production's projection, and the stateful Projector. */
module Projection {
  import opened Domain
  import opened Gate
  import Records

  // ---------------------------------------------------------------- events

  datatype Payload =
    | MemoUploaded(docId: string, docHash: string, docType: string, uploadedBy: string, at: string)
    | MemoAmended(docId: string, supersedesDocId: string, docHash: string, uploadedBy: string, at: string)
    | CreditRollSubmitted(manifestId: string, manifestHash: string, submittedBy: string, at: string)
    | ResolutionRecorded(entry: LogEntry)
    | PatchApplied(manifestId: string, patchId: string, patchHash: string, appliedBy: string, at: string)
    | ArtifactRendered(manifestId: string, artifactIndexDigest: string, renderProfileVersion: string, at: string)
    | Unrecognised(eventType: string)

  /** The payload of resolution.recorded, which is also the authorization-log entry. */
  datatype LogEntry = LogEntry(issueId: Records.IssueId, action: AuthorizationAction, actorId: string, role: string,
                               boundHashes: Records.Hashes, reason: Text, at: string)

  datatype Event = Event(eventId: string, productionId: string, version: nat, occurredAt: string,
                         payloadProductionId: string, payload: Payload)

  // ---------------------------------------------------------------- projection

  datatype IssueKind = Known(code: IssueCode) | Foreign(text: string)

  datatype OpenIssue = OpenIssue(issueId: string, kind: IssueKind, details: string)

  datatype GateHash = Sha256Of(state: GateState, openIssues: seq<OpenIssue>)

  datatype GateView = GateView(state: GateState, stateHash: Option<GateHash>, openIssues: seq<OpenIssue>,
                               artifactIndexDigest: Option<string>, renderProfileVersion: Option<string>,
                               releaseEvidenceDigest: Option<string>)

  datatype Lifecycle = PENDING_RENDER | RENDER_COMPLETE

  datatype ManifestView = ManifestView(currentId: Option<string>, currentHash: Option<string>,
                                       lifecycle: Option<Lifecycle>)

  datatype Document = Document(docId: string, docHash: string, docType: string, uploadedBy: string, at: string,
                               supersedesDocId: Option<string>, eventId: string)

  datatype Projection = Projection(gate: GateView, manifests: ManifestView,
                                   authorizationLog: seq<LogEntry>, documents: seq<Document>)

  const DEFAULT_PROJECTION :=
    Projection(GateView(STALE, None, [], None, None, None), ManifestView(None, None, None), [], [])

  // ---------------------------------------------------------------- gate recomputation

  function KnownCodes(issues: seq<OpenIssue>): seq<IssueCode> {
    if issues == [] then []
    else
      var last := issues[|issues|-1].kind;
      KnownCodes(issues[..|issues|-1]) + (if last.Known? then [last.code] else [])
  }

  predicate HasKind(issues: seq<OpenIssue>, code: IssueCode) {
    exists i :: 0 <= i < |issues| && issues[i].kind == Known(code)
  }

  predicate HasForeign(issues: seq<OpenIssue>) {
    exists i :: 0 <= i < |issues| && issues[i].kind.Foreign?
  }

  function StateOf(issues: seq<OpenIssue>): GateState {
    if HasForeign(issues) then DEGRADED
    else Folded(KnownCodes(issues),
                ProjectionStatus(HasKind(issues, ARTIFACT_PENDING), HasKind(issues, STALE_MANIFEST)))
  }

  function Recomputed(p: Projection): Projection {
    var issues := p.gate.openIssues;
    p.(gate := p.gate.(state := StateOf(issues), stateHash := Some(Sha256Of(StateOf(issues), issues))))
  }

  method RecomputeGate(p: Projection) returns (q: Projection)
    ensures q == Recomputed(p)
  {
    var issues := p.gate.openIssues;
    var known: seq<IssueCode> := [];
    var hasUnknown := false;
    for i := 0 to |issues|
      invariant known == KnownCodes(issues[..i])
      invariant hasUnknown <==> HasForeign(issues[..i])
    {
      assert issues[..i+1][..i] == issues[..i];
      if issues[i].kind.Known? {
        known := known + [issues[i].kind.code];
      } else {
        assert issues[..i+1][i].kind.Foreign?;
        hasUnknown := true;
      }
    }
    assert issues[..|issues|] == issues;
    var state := DEGRADED;
    if !hasUnknown {
      state := FoldGate(known, ProjectionStatus(HasKind(issues, ARTIFACT_PENDING), HasKind(issues, STALE_MANIFEST)));
    }
    q := p.(gate := p.gate.(state := state, stateHash := Some(Sha256Of(state, issues))));
  }

  // ---------------------------------------------------------------- handlers

  predicate HasDocument(documents: seq<Document>, docId: string) {
    exists i :: 0 <= i < |documents| && documents[i].docId == docId
  }

  function WithDocument(documents: seq<Document>, d: Document): seq<Document> {
    if HasDocument(documents, d.docId) then documents else documents + [d]
  }

  function WithIssue(issues: seq<OpenIssue>, i: OpenIssue): seq<OpenIssue>
    requires i.kind.Known?
  {
    if HasKind(issues, i.kind.code) then issues else issues + [i]
  }

  function WithoutKind(issues: seq<OpenIssue>, code: IssueCode): seq<OpenIssue> {
    if issues == [] then []
    else
      WithoutKind(issues[..|issues|-1], code)
      + (if issues[|issues|-1].kind == Known(code) then [] else [issues[|issues|-1]])
  }

  function Cleared(g: GateView): GateView {
    g.(artifactIndexDigest := None, releaseEvidenceDigest := None)
  }

  function StaleIssue(docId: string, supersedes: string): OpenIssue {
    OpenIssue("stale-" + docId, Known(STALE_MANIFEST), docId + " supersedes " + supersedes)
  }

  function PendingIssue(manifestId: string): OpenIssue {
    OpenIssue("artifact-pending-" + manifestId, Known(ARTIFACT_PENDING), manifestId)
  }

  function PatchIssue(patchId: string, manifestId: string): OpenIssue {
    OpenIssue("artifact-pending-patch-" + patchId, Known(ARTIFACT_PENDING), manifestId)
  }

  /** What an accepted event does to the projection. */
  function Project(p: Projection, e: Event): Projection
    requires !e.payload.Unrecognised?
  {
    match e.payload
    case MemoUploaded(docId, docHash, docType, uploadedBy, at) =>
      p.(documents := WithDocument(p.documents, Document(docId, docHash, docType, uploadedBy, at, None, e.eventId)))
    case MemoAmended(docId, supersedes, docHash, uploadedBy, at) =>
      Recomputed(p.(
        documents := WithDocument(p.documents,
                                  Document(docId, docHash, "amendment", uploadedBy, at, Some(supersedes), e.eventId)),
        gate := Cleared(p.gate).(openIssues := WithIssue(p.gate.openIssues, StaleIssue(docId, supersedes)))))
    case CreditRollSubmitted(manifestId, manifestHash, _, _) =>
      Recomputed(p.(
        manifests := ManifestView(Some(manifestId), Some(manifestHash), Some(PENDING_RENDER)),
        gate := Cleared(p.gate).(openIssues := WithIssue(p.gate.openIssues, PendingIssue(manifestId)))))
    case ResolutionRecorded(entry) =>
      p.(authorizationLog := p.authorizationLog + [entry])
    case PatchApplied(manifestId, patchId, _, _, _) =>
      Recomputed(p.(
        manifests := p.manifests.(lifecycle := Some(PENDING_RENDER)),
        gate := Cleared(p.gate).(
          openIssues := WithoutKind(p.gate.openIssues, ARTIFACT_PENDING) + [PatchIssue(patchId, manifestId)])))
    case ArtifactRendered(_, digest, profile, _) =>
      Recomputed(p.(
        manifests := p.manifests.(lifecycle := Some(RENDER_COMPLETE)),
        gate := p.gate.(artifactIndexDigest := Some(digest), renderProfileVersion := Some(profile))))
  }

  // ---------------------------------------------------------------- one production's step

  datatype Rejection = UnknownEventType | EnvelopeMismatch | NoCurrentManifest | ManifestMismatch | AlreadyRendered

  datatype Outcome = Applied | Duplicate | Stale | Rejected(why: Rejection)

  /** What the Projector holds for one production. */
  datatype Local = Local(projection: Option<Projection>, seen: set<string>, version: nat)

  const FRESH := Local(None, {}, 0)

  function CurrentManifest(p: Option<Projection>): Option<string> {
    if p.Some? then p.value.manifests.currentId else None
  }

  /** The manifest and lifecycle validation, made before anything is changed. */
  function Refusal(p: Option<Projection>, e: Event): Option<Rejection> {
    if e.payload.ArtifactRendered? || e.payload.PatchApplied? then
      var current := CurrentManifest(p);
      if current.None? then Some(NoCurrentManifest)
      else if e.payload.manifestId != current.value then Some(ManifestMismatch)
      else if e.payload.ArtifactRendered? && p.value.manifests.lifecycle == Some(RENDER_COMPLETE)
      then Some(AlreadyRendered)
      else None
    else None
  }

  function Verdict(l: Local, e: Event): Outcome {
    if e.payload.Unrecognised? then Rejected(UnknownEventType)
    else if e.payloadProductionId != e.productionId then Rejected(EnvelopeMismatch)
    else if e.eventId in l.seen then Duplicate
    else if e.version <= l.version then Stale
    else
      var refusal := Refusal(l.projection, e);
      if refusal.Some? then Rejected(refusal.value) else Applied
  }

  function Step(l: Local, e: Event): Local {
    if Verdict(l, e) == Applied then
      var base := if l.projection.Some? then l.projection.value else DEFAULT_PROJECTION;
      Local(Some(Project(base, e)), l.seen + {e.eventId}, e.version)
    else l
  }

  function Run(l: Local, es: seq<Event>): Local {
    if es == [] then l else Step(Run(l, es[..|es|-1]), es[|es|-1])
  }

  /** The deliveries that were applied, in order. */
  function Accepted(l: Local, es: seq<Event>): seq<Event> {
    if es == [] then []
    else
      var before, e := es[..|es|-1], es[|es|-1];
      Accepted(l, before) + (if Verdict(Run(l, before), e) == Applied then [e] else [])
  }

  // ---------------------------------------------------------------- the Projector

  datatype Checkpoint = Checkpoint(projection: Projection, lastAggregateVersion: nat)

  class Projector {
    var projections: map<string, Projection>
    var seen: map<string, set<string>>
    var versions: map<string, nat>

    /** The part of the state that belongs to one production. */
    ghost function View(pid: string): Local
      reads this
    {
      Local(if pid in projections then Some(projections[pid]) else None,
            if pid in seen then seen[pid] else {},
            if pid in versions then versions[pid] else 0)
    }

    /** `_projections` and `_seen` are always created together. */
    ghost predicate Valid()
      reads this
    {
      projections.Keys == seen.Keys
    }

    constructor ()
      ensures Valid()
      ensures forall pid :: View(pid) == FRESH
    {
      projections, seen, versions := map[], map[], map[];
    }

    method Apply(e: Event) returns (r: Outcome)
      requires Valid()
      modifies this
      ensures Valid()
      ensures r == Verdict(old(View(e.productionId)), e)
      ensures View(e.productionId) == Step(old(View(e.productionId)), e)
      ensures forall pid :: pid != e.productionId ==> View(pid) == old(View(pid))
      ensures r != Applied ==> unchanged(this)
    {
      var pid := e.productionId;
      if e.payload.Unrecognised? {
        return Rejected(UnknownEventType);
      }
      if e.payloadProductionId != pid {
        return Rejected(EnvelopeMismatch);
      }
      var seenForPid := if pid in seen then seen[pid] else {};
      if e.eventId in seenForPid {
        return Duplicate;
      }
      var lastVersion := if pid in versions then versions[pid] else 0;
      if e.version <= lastVersion {
        return Stale;
      }
      var existing := if pid in projections then Some(projections[pid]) else None;
      var refusal := Refusal(existing, e);
      if refusal.Some? {
        return Rejected(refusal.value);
      }
      if pid !in projections {
        projections := projections[pid := DEFAULT_PROJECTION];
        seen := seen[pid := {}];
      }
      var next := Dispatch(projections[pid], e);
      Record(pid, next, e.eventId, e.version);
      return Applied;
    }

    method Record(pid: string, next: Projection, eventId: string, version: nat)
      requires Valid() && pid in projections
      modifies this
      ensures Valid()
      ensures View(pid) == Local(Some(next), old(View(pid)).seen + {eventId}, version)
      ensures forall q :: q != pid ==> View(q) == old(View(q))
    {
      projections := projections[pid := next];
      seen := seen[pid := seen[pid] + {eventId}];
      versions := versions[pid := version];
    }

    /** Applies every event in order; a rejected event raises and ends the replay. */
    method Replay(es: seq<Event>, pid: string) returns (consumed: nat)
      requires Valid()
      requires forall e :: e in es ==> e.productionId == pid
      modifies this
      ensures Valid()
      ensures consumed <= |es|
      ensures View(pid) == Run(old(View(pid)), es[..consumed])
      ensures consumed < |es| ==> Verdict(View(pid), es[consumed]).Rejected?
      ensures forall q :: q != pid ==> View(q) == old(View(q))
    {
      consumed := 0;
      while consumed < |es|
        invariant Valid()
        invariant consumed <= |es|
        invariant View(pid) == Run(old(View(pid)), es[..consumed])
        invariant forall q :: q != pid ==> View(q) == old(View(q))
      {
        assert es[..consumed+1][..consumed] == es[..consumed];
        var r := Apply(es[consumed]);
        if r.Rejected? {
          return;
        }
        consumed := consumed + 1;
      }
    }

    method TakeCheckpoint(pid: string) returns (c: Option<Checkpoint>)
      ensures c.Some? <==> View(pid).projection.Some?
      ensures c.Some? ==> c.value == Checkpoint(View(pid).projection.value, View(pid).version)
    {
      if pid !in projections {
        return None;
      }
      return Some(Checkpoint(projections[pid], if pid in versions then versions[pid] else 0));
    }

    method Restore(pid: string, c: Checkpoint)
      requires Valid()
      modifies this
      ensures Valid()
      ensures View(pid) == Local(Some(c.projection), old(View(pid)).seen, c.lastAggregateVersion)
      ensures forall q :: q != pid ==> View(q) == old(View(q))
    {
      projections := projections[pid := c.projection];
      versions := versions[pid := c.lastAggregateVersion];
      if pid !in seen {
        seen := seen[pid := {}];
      }
    }
  }

  // ---------------------------------------------------------------- the handlers' code

  method ApplyMemoUploaded(start: Projection, e: Event) returns (p: Projection)
    requires e.payload.MemoUploaded?
    ensures p == Project(start, e)
  {
    var MemoUploaded(docId, docHash, docType, uploadedBy, at) := e.payload;
    p := start.(documents := WithDocument(start.documents, Document(docId, docHash, docType, uploadedBy, at, None, e.eventId)));
  }

  method ApplyMemoAmended(start: Projection, e: Event) returns (p: Projection)
    requires e.payload.MemoAmended?
    ensures p == Project(start, e)
  {
    var MemoAmended(docId, supersedes, docHash, uploadedBy, at) := e.payload;
    p := start;
    p := p.(documents := WithDocument(p.documents,
                                      Document(docId, docHash, "amendment", uploadedBy, at, Some(supersedes), e.eventId)));
    p := p.(gate := Cleared(p.gate));
    p := p.(gate := p.gate.(openIssues := WithIssue(p.gate.openIssues, StaleIssue(docId, supersedes))));
    p := RecomputeGate(p);
  }

  method ApplyCreditRollSubmitted(start: Projection, e: Event) returns (p: Projection)
    requires e.payload.CreditRollSubmitted?
    ensures p == Project(start, e)
  {
    var CreditRollSubmitted(manifestId, manifestHash, _, _) := e.payload;
    p := start;
    p := p.(manifests := ManifestView(Some(manifestId), Some(manifestHash), Some(PENDING_RENDER)));
    p := p.(gate := Cleared(p.gate));
    p := p.(gate := p.gate.(openIssues := WithIssue(p.gate.openIssues, PendingIssue(manifestId))));
    p := RecomputeGate(p);
  }

  method ApplyPatchApplied(start: Projection, e: Event) returns (p: Projection)
    requires e.payload.PatchApplied?
    ensures p == Project(start, e)
  {
    var PatchApplied(manifestId, patchId, _, _, _) := e.payload;
    p := start;
    p := p.(manifests := p.manifests.(lifecycle := Some(PENDING_RENDER)));
    p := p.(gate := Cleared(p.gate));
    p := p.(gate := p.gate.(openIssues := WithoutKind(p.gate.openIssues, ARTIFACT_PENDING)));
    p := p.(gate := p.gate.(openIssues := p.gate.openIssues + [PatchIssue(patchId, manifestId)]));
    p := RecomputeGate(p);
  }

  method ApplyArtifactRendered(start: Projection, e: Event) returns (p: Projection)
    requires e.payload.ArtifactRendered?
    ensures p == Project(start, e)
  {
    var ArtifactRendered(_, digest, profile, _) := e.payload;
    p := start;
    p := p.(gate := p.gate.(artifactIndexDigest := Some(digest), renderProfileVersion := Some(profile)));
    p := p.(manifests := p.manifests.(lifecycle := Some(RENDER_COMPLETE)));
    p := RecomputeGate(p);
  }

  /** The handler of each event type changes a working copy of the projection. */
  method Dispatch(start: Projection, e: Event) returns (p: Projection)
    requires !e.payload.Unrecognised?
    ensures p == Project(start, e)
  {
    match e.payload {
      case MemoUploaded(_, _, _, _, _) =>
        p := ApplyMemoUploaded(start, e);
      case MemoAmended(_, _, _, _, _) =>
        p := ApplyMemoAmended(start, e);
      case CreditRollSubmitted(_, _, _, _) =>
        p := ApplyCreditRollSubmitted(start, e);
      case ResolutionRecorded(entry) =>
        p := start.(authorizationLog := start.authorizationLog + [entry]);
      case PatchApplied(_, _, _, _, _) =>
        p := ApplyPatchApplied(start, e);
      case ArtifactRendered(_, _, _, _) =>
        p := ApplyArtifactRendered(start, e);
    }
  }
}
