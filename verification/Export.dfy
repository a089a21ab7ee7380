/** The export endpoint from validated evidence to the released package. */
module Export {
  import opened Domain
  import opened Gate
  import opened Records
  import opened Checker
  import opened Authority
  import opened AuthorityProofs
  import opened Release
  import opened Delivery
  import opened Replay
  import opened ReleaseProofs
  import Checkpoint
  import CheckpointProofs
  import Synchronize
  import SynchronizeProofs

  datatype ExportResult =
    | EvidenceRejected(error: EvidenceError)
    | GateClosed(gate: GateState, open: seq<Issue>)
    | SyncUnavailable
    | VerificationFailed
    | Released(package: Package)

  function BoundInput(p: Production, auths: seq<Authorization>): CheckerInput
    requires Complete(p)
  {
    CheckedInput(p).(bindings := IdentityBindings(CheckedInput(p), auths, CurrentHashes(p)))
  }

  /** The release rules hold of the production under the authorizations and flags. */
  ghost predicate MayRelease(p: Production, auths: seq<Authorization>, flags: ProjectionStatus)
    requires Complete(p)
  {
    Releasable(BoundInput(p, auths), auths, CurrentHashes(p), flags)
  }

  /** What replay asks for beyond the release rules. */
  predicate Packable(p: Production, auths: seq<Authorization>)
    requires Complete(p)
  {
    SafePaths(p.frames) && "" !in IdentityBindings(CheckedInput(p), auths, CurrentHashes(p))
  }

  /** A snapshot whose gate is open. */
  ghost predicate Ready(s: Snapshot, flags: ProjectionStatus) {
    Evaluated(s, flags) && s.gate == READY_TO_EXPORT
  }

  lemma ReplayDecides(s: Snapshot, flags: ProjectionStatus, o: Outcome)
    requires Ready(s, flags)
    requires Match(o) <==> exists index, p :: Verifies(ZipFile(PackageOf(s).members), PackageOf(s).releaseDigest, index, p)
    requires GateReported(ZipFile(PackageOf(s).members), PackageOf(s).releaseDigest, o)
    ensures Match(o) <==> Packable(s.production, s.authorizations)
    ensures Match(o) ==> o.gate == Replayed(READY_TO_EXPORT) && o.expectedGate == Some(READY_TO_EXPORT)
  {
    ReadyIffNothingOpen(Codes(s.openIssues), flags);
    ReadyIffNothingOpen(Codes(s.openIssues), NO_FLAGS);
    ExportReplays(s, flags);
    if Match(o) {
      ReadyReplays(s, flags);
    }
  }

  /** What is released: the production under its id with the evaluated bindings and open issues, and an open gate. */
  function ReleaseSnapshot(productionId: string, p: Production, auths: seq<Authorization>, proposals: seq<Proposal>): Snapshot
    requires Complete(p)
  {
    var (inp, h) := (CheckedInput(p), CurrentHashes(p));
    Snapshot(productionId, p, auths, proposals, IdentityBindings(inp, auths, h), OpenIssues(inp, auths, h), READY_TO_EXPORT)
  }

  /** The offline verifier accepts the package under its own digest. */
  ghost predicate Replays(package: Package) {
    exists index, parts :: Verifies(ZipFile(package.members), package.releaseDigest, index, parts)
  }

  // ---------------------------------------------------------------- the release event

  predicate Identifies(a: Authorization, h: Hashes) {
    a.hashes == h && a.action == CONFIRM_IDENTITY
  }

  /** The position of the first authorization that passes. */
  function FirstWhere(auths: seq<Authorization>, passes: Authorization -> bool): (r: Option<nat>)
    ensures r.Some? ==> r.value < |auths| && passes(auths[r.value]) && forall i :: 0 <= i < r.value ==> !passes(auths[i])
    ensures r.None? ==> forall i :: 0 <= i < |auths| ==> !passes(auths[i])
  {
    if auths == [] then None
    else
      var before := FirstWhere(auths[..|auths|-1], passes);
      if before.Some? then before else if passes(auths[|auths|-1]) then Some(|auths| - 1) else None
  }

  /** The first identity confirmation under the current hashes, or the first record under them when there is none. */
  ghost predicate IsTarget(auths: seq<Authorization>, h: Hashes, i: int) {
    && 0 <= i < |auths| && auths[i].hashes == h
    && (forall j :: 0 <= j < i ==> !Identifies(auths[j], h))
    && (!Identifies(auths[i], h) ==>
          && (forall j :: 0 <= j < |auths| ==> !Identifies(auths[j], h))
          && (forall j :: 0 <= j < i ==> auths[j].hashes != h))
  }

  /** The authorization that the release event is about: the first identity confirmation under the current hashes, or
      else the first record under them. */
  function TargetAuthorization(auths: seq<Authorization>, h: Hashes): (r: Option<Authorization>)
    ensures r.Some? ==> exists i :: IsTarget(auths, h, i) && auths[i] == r.value
    ensures r.None? <==> forall a :: a in auths ==> a.hashes != h
  {
    var identity := FirstWhere(auths, a => Identifies(a, h));
    if identity.Some? then
      assert IsTarget(auths, h, identity.value);
      Some(auths[identity.value])
    else
      var any := FirstWhere(auths, (a: Authorization) => a.hashes == h);
      assert any.Some? ==> IsTarget(auths, h, any.value);
      if any.Some? then Some(auths[any.value]) else None
  }

  /** The shared state and environment of the release event, and the client number of this call. */
  datatype EventRuntime = EventRuntime(shared: Synchronize.Shared, environment: Synchronize.Environment, client: nat)

  /** The release event is published and projected before anything is packaged; with events disabled there is none. */
  method SynchronizeRelease(auths: seq<Authorization>, h: Hashes, runtime: Option<EventRuntime>)
    returns (ok: bool, ghost legs: Option<Synchronize.Legs>)
    modifies if runtime.Some? then {runtime.value.shared} else {}
    ensures legs.Some? <==> runtime.Some? && TargetAuthorization(auths, h).Some?
    ensures ok <==> runtime.None? || (legs.Some? && legs.value.end.pc == Checkpoint.Synchronized)
    ensures legs.Some? ==>
              && Synchronize.CallLegs(legs.value, old(runtime.value.shared.s), runtime.value.environment,
                                      runtime.value.client, TargetAuthorization(auths, h).value)
              && runtime.value.shared.s == legs.value.end.s
    ensures runtime.Some? && legs.None? ==> runtime.value.shared.s == old(runtime.value.shared.s)
  {
    legs := None;
    if runtime.None? {
      return true, None;
    }
    var target := TargetAuthorization(auths, h);
    if target.None? {
      return false, None;
    }
    var result;
    ghost var ls;
    result, ls := Synchronize.SynchronizeReleaseCheckpoint(runtime.value.shared, runtime.value.environment,
                                                           runtime.value.client, target.value);
    return result == Synchronize.SYNCHRONIZED, Some(ls);
  }

  // ---------------------------------------------------------------- the endpoint

  /** The evidence is valid and the gate open. */
  ghost predicate Cleared(p: Production, auths: seq<Authorization>, flags: ProjectionStatus) {
    ValidEvidence(p) && MayRelease(p, auths, flags)
  }

  /** The answer to an export that is not cleared. */
  ghost function Refusal(p: Production, auths: seq<Authorization>, flags: ProjectionStatus): ExportResult {
    if !ValidEvidence(p) then EvidenceRejected(if LacksEvidence(p) then MissingEvidence else IntegrityError)
    else
      var open := OpenIssues(CheckedInput(p), auths, CurrentHashes(p));
      GateClosed(Folded(Codes(open), flags), open)
  }

  /** The evidence is validated, then the gate evaluated. */
  method EvaluateRelease(productionId: string, p: Production, auths: seq<Authorization>, proposals: seq<Proposal>,
                         flags: ProjectionStatus) returns (r: Result<(Snapshot, Hashes), ExportResult>)
    ensures r.Ok? <==> Cleared(p, auths, flags)
    ensures r.Ok? ==> r.value == (ReleaseSnapshot(productionId, p, auths, proposals), CurrentHashes(p))
    ensures r.Ok? ==> Ready(r.value.0, flags)
    ensures r.Err? ==> r.error == Refusal(p, auths, flags)
  {
    var valid := ValidateArtifactEvidence(p);
    if valid.Err? {
      assert valid == Err(MissingEvidence) <==> valid.error == MissingEvidence;
      return Err(EvidenceRejected(valid.error));
    }
    var bindings, open, gate := ExportEvaluation(CheckedInput(p), auths, valid.value, flags);
    ExportReadyIffReleasable(CheckedInput(p), auths, valid.value, flags);
    if gate != READY_TO_EXPORT {
      return Err(GateClosed(gate, open));
    }
    return Ok((Snapshot(productionId, p, auths, proposals, bindings, open, gate), valid.value));
  }

  method ExportProduction(productionId: string, p: Production, auths: seq<Authorization>, proposals: seq<Proposal>,
                          flags: ProjectionStatus, runtime: Option<EventRuntime>)
    returns (r: ExportResult, ghost legs: Option<Synchronize.Legs>)
    modifies if runtime.Some? then {runtime.value.shared} else {}
    ensures !Cleared(p, auths, flags) ==> r == Refusal(p, auths, flags)
    ensures Cleared(p, auths, flags) ==>
              && (r.SyncUnavailable? <==> runtime.Some? && !(legs.Some? && legs.value.end.pc == Checkpoint.Synchronized))
              && (r.Released? <==> !r.SyncUnavailable? && Packable(p, auths))
              && (r.VerificationFailed? <==> !r.SyncUnavailable? && !Packable(p, auths))
    ensures r.Released? ==> Cleared(p, auths, flags) && r.package == PackageOf(ReleaseSnapshot(productionId, p, auths, proposals))
    ensures r.Released? ==> Replays(r.package)
    ensures legs.Some? <==>
            Cleared(p, auths, flags) && runtime.Some? && TargetAuthorization(auths, CurrentHashes(p)).Some?
    ensures legs.Some? ==>
              Synchronize.CallLegs(legs.value, old(runtime.value.shared.s), runtime.value.environment,
                                   runtime.value.client, TargetAuthorization(auths, CurrentHashes(p)).value)
    ensures runtime.Some? ==>
              runtime.value.shared.s == if legs.Some? then legs.value.end.s else old(runtime.value.shared.s)
  {
    var evaluated := EvaluateRelease(productionId, p, auths, proposals, flags);
    if evaluated.Err? {
      return evaluated.error, None;
    }
    var (snapshot, hashes) := evaluated.value;
    var synchronized;
    synchronized, legs := SynchronizeRelease(auths, hashes, runtime);
    if !synchronized {
      return SyncUnavailable, legs;
    }
    r := PackageAndVerify(snapshot, flags);
  }

  /** The package is assembled, and released only when it replays offline to an open gate. */
  method PackageAndVerify(snapshot: Snapshot, ghost flags: ProjectionStatus) returns (r: ExportResult)
    requires Ready(snapshot, flags)
    ensures r.Released? || r.VerificationFailed?
    ensures r.Released? <==> Packable(snapshot.production, snapshot.authorizations)
    ensures r.Released? ==> r.package == PackageOf(snapshot)
    ensures r.Released? ==> Replays(r.package)
  {
    var assembled := AssembleDeliveryPackage(snapshot);
    var package := assembled.value;
    var outcome := ReplayBundle(ZipFile(package.members), package.releaseDigest);
    ReplayDecides(snapshot, flags, outcome);
    if !Match(outcome) || outcome.gate != Replayed(READY_TO_EXPORT) || outcome.expectedGate != Some(READY_TO_EXPORT) {
      return VerificationFailed;
    }
    return Released(package);
  }

  /** A release with events enabled, from a reachable state: the checkpoint of an authorization under the released hashes
      was projected, and applied, before the package was assembled. */
  lemma ReleasedIsProjected(runtime: EventRuntime, before: Checkpoint.System, a: Authorization, legs: Synchronize.Legs)
    requires Synchronize.CallLegs(legs, before, runtime.environment, runtime.client, a)
    requires legs.end.pc == Checkpoint.Synchronized && runtime.client !in before.clients
    requires SynchronizeProofs.ForeignEnvironment(runtime.environment, runtime.client)
    requires CheckpointProofs.Reachable(SynchronizeProofs.With(before, runtime.client, a, Checkpoint.Checking))
    ensures Checkpoint.StableEventId(a) in legs.end.s.docs.processed
    ensures exists i :: 0 <= i < |legs.end.s.history| && legs.end.s.history[i].eventId == Checkpoint.StableEventId(a)
  {
    SynchronizeProofs.SynchronizedCallIsProjected(before, runtime.environment, runtime.client, a, legs);
  }
}
