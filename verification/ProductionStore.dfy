/** The in-memory production store: proposals, confirmations with rollback, and write-once export results. */
module ProductionStore {
  import opened Domain
  import opened Records
  import opened Documents
  import opened Release

  datatype ExportRecord = ExportRecord(releaseDigest: Digest, path: string)

  datatype Entry = Entry(production: Production, proposals: seq<Proposal>, authorizations: seq<Authorization>,
                         projection: ProjectionStatus, indexDigest: Option<Digest>, exported: Option<ExportRecord>)

  datatype AuditEvent = ProposalSaved(proposalId: string) | ProposalConfirmed(proposalId: string, authorizationId: string)

  datatype State = State(entries: map<string, Entry>, audit: seq<AuditEvent>)

  datatype StoreError =
    | NoSuchProduction | NotPending | SameIdentity | StaleProposal | InvalidAuthorization
    | InvalidExport | ConflictingExport | MutationFailed

  /** The point among a confirmation's mutations at which an exception is raised, if one is. */
  datatype Fault = NoFault | BeforeAppend | AfterAppend | AfterStatus | AfterAudit

  // ---------------------------------------------------------------- register

  /** Overwrites everything but proposals, and authorizations when none are supplied; export metadata is erased. */
  function Registered(before: Option<Entry>, p: Production, authorizations: seq<Authorization>,
                      projection: ProjectionStatus): Entry {
    Entry(p.(renderProfileVersion := if p.renderProfileVersion == "" then "1.0" else p.renderProfileVersion),
          if before.Some? then before.value.proposals else [],
          if authorizations != [] || before.None? then authorizations else before.value.authorizations,
          projection, if p.index.Some? then Some(DigestOf(IndexDoc(p.index.value))) else None, None)
  }

  function Lookup(s: State, productionId: string): Option<Entry> {
    if productionId in s.entries then Some(s.entries[productionId]) else None
  }

  // ---------------------------------------------------------------- proposals

  /** The position of the first proposal with the id. */
  function IndexOf(proposals: seq<Proposal>, id: string): (r: Option<nat>)
    ensures r.Some? ==> r.value < |proposals| && proposals[r.value].id == id
    ensures r.Some? ==> forall i :: 0 <= i < r.value ==> proposals[i].id != id
    ensures r.None? ==> forall i :: 0 <= i < |proposals| ==> proposals[i].id != id
  {
    if proposals == [] then None
    else
      var before := IndexOf(proposals[..|proposals|-1], id);
      if before.Some? then before
      else if proposals[|proposals|-1].id == id then Some(|proposals| - 1) else None
  }

  function Saved(proposals: seq<Proposal>, p: Proposal): seq<Proposal> {
    var at := IndexOf(proposals, p.id);
    if at.Some? then proposals[at.value := p] else proposals + [p]
  }

  predicate BlankId(i: IssueId) {
    i.OtherId? && Blank(i.text)
  }

  /** The validator of authorization records. */
  predicate ValidAuthorization(a: Authorization) {
    && !Blank(a.id) && !Blank(a.productionId) && !Blank(a.proposalId) && !BlankId(a.issueId)
    && !Blank(a.proposerId) && !Blank(a.actorId) && !Blank(a.reason.normalForm)
    && a.proposerId != a.actorId
    && (a.action == CONFIRM_IDENTITY ==> a.selectedContributorId.Some? && !Blank(a.selectedContributorId.value))
  }

  function AuthorizationFor(p: Proposal, productionId: string, approver: string, authId: string, now: string): Authorization {
    Authorization(authId, productionId, p.id, p.issueId, p.proposerId, approver, p.action, p.reason,
                  p.selectedContributorId, p.hashes, now)
  }

  /** The outcome of a confirmation whose mutations succeed: the proposal's position and the new record, or an error. */
  function Confirmation(s: State, productionId: string, proposalId: string, approver: string, h: Hashes,
                        authId: string, now: string): Result<(nat, Authorization), StoreError> {
    if productionId !in s.entries then Err(NoSuchProduction) else
    var proposals := s.entries[productionId].proposals;
    var at := IndexOf(proposals, proposalId);
    if at.None? || proposals[at.value].status != Pending then Err(NotPending) else
    var p := proposals[at.value];
    if approver == p.proposerId then Err(SameIdentity) else
    if p.hashes != h then Err(StaleProposal) else
    var a := AuthorizationFor(p, productionId, approver, authId, now);
    if ValidAuthorization(a) then Ok((at.value, a)) else Err(InvalidAuthorization)
  }

  function WithConfirmation(e: Entry, at: nat, a: Authorization): Entry
    requires at < |e.proposals|
  {
    e.(proposals := e.proposals[at := e.proposals[at].(status := Confirmed)],
       authorizations := e.authorizations + [a])
  }

  function ConfirmedState(s: State, id: string, at: nat, a: Authorization): State
    requires id in s.entries && at < |s.entries[id].proposals|
  {
    State(s.entries[id := WithConfirmation(s.entries[id], at, a)], s.audit + [ProposalConfirmed(a.proposalId, a.id)])
  }

  /** Some of a confirmation's mutations have been made, and nothing else. */
  ghost predicate PartlyConfirmed(s: State, before: State, id: string, at: nat) {
    && id in before.entries && at < |before.entries[id].proposals|
    && id in s.entries && s.entries == before.entries[id := s.entries[id]]
    && (var (e, e0) := (s.entries[id], before.entries[id]);
        && |e.proposals| == |e0.proposals|
        && e == e0.(proposals := e0.proposals[at := e0.proposals[at].(status := e.proposals[at].status)],
                    authorizations := e.authorizations)
        && e0.authorizations <= e.authorizations && |e.authorizations| <= |e0.authorizations| + 1)
    && before.audit <= s.audit && |s.audit| <= |before.audit| + 1
  }

  // ---------------------------------------------------------------- export results

  predicate LowerHexDigit(c: char) {
    '0' <= c <= '9' || 'a' <= c <= 'f'
  }

  /** 64 lower-case hexadecimal digits. */
  predicate LowerHexDigest(d: Digest) {
    && !d.Recased?
    && (d.OtherText? ==> |d.text| == 64 && forall i :: 0 <= i < 64 ==> LowerHexDigit(d.text[i]))
  }

  function ExportError(s: State, productionId: string, x: ExportRecord): Option<StoreError> {
    if !LowerHexDigest(x.releaseDigest) || Blank(x.path) then Some(InvalidExport)
    else if productionId !in s.entries then Some(NoSuchProduction)
    else if s.entries[productionId].exported in {None, Some(x)} then None
    else Some(ConflictingExport)
  }

  // ---------------------------------------------------------------- the store as a state machine

  datatype Operation =
    | Register(productionId: string, production: Production, authorizations: seq<Authorization>, projection: ProjectionStatus)
    | SaveProposal(proposal: Proposal)
    | ConfirmProposal(productionId: string, proposalId: string, approver: string, hashes: Hashes, authId: string,
                      now: string, fault: Fault)
    | SaveExportResult(productionId: string, result: ExportRecord)
    | Clear

  function Step(s: State, op: Operation): State {
    match op
    case Register(id, p, auths, projection) =>
      s.(entries := s.entries[id := Registered(Lookup(s, id), p, auths, projection)])
    case SaveProposal(p) =>
      if p.productionId !in s.entries then s else
      var e := s.entries[p.productionId];
      State(s.entries[p.productionId := e.(proposals := Saved(e.proposals, p))], s.audit + [ProposalSaved(p.id)])
    case ConfirmProposal(id, proposalId, approver, h, authId, now, fault) =>
      var c := Confirmation(s, id, proposalId, approver, h, authId, now);
      if c.Err? || fault != NoFault then s else
      ConfirmedState(s, id, c.value.0, c.value.1)
    case SaveExportResult(id, x) =>
      if ExportError(s, id, x).Some? then s else s.(entries := s.entries[id := s.entries[id].(exported := Some(x))])
    case Clear => State(map[], [])
  }

  function Run(s: State, ops: seq<Operation>): State {
    if ops == [] then s else Step(Run(s, ops[..|ops|-1]), ops[|ops|-1])
  }

  const EMPTY := State(map[], [])

  // ---------------------------------------------------------------- the class

  class InMemoryProductionStore {
    var store: map<string, Entry>
    var auditLog: seq<AuditEvent>

    ghost function Abstract(): State
      reads this
    {
      State(store, auditLog)
    }

    constructor ()
      ensures Abstract() == EMPTY
    {
      store, auditLog := map[], [];
    }

    method Register(productionId: string, p: Production, authorizations: seq<Authorization>, projection: ProjectionStatus)
      modifies this
      ensures Abstract() == Step(old(Abstract()), Operation.Register(productionId, p, authorizations, projection))
    {
      var version := if p.renderProfileVersion == "" then "1.0" else p.renderProfileVersion;
      var indexDigest := if p.index.Some? then Some(DigestOf(IndexDoc(p.index.value))) else None;
      var proposals, auths: seq<Authorization> := [], authorizations;
      if productionId in store {
        proposals := store[productionId].proposals;
        if auths == [] {
          auths := store[productionId].authorizations;
        }
      }
      store := store[productionId := Entry(p.(renderProfileVersion := version), proposals, auths, projection, indexDigest, None)];
    }

    method Clear()
      modifies this
      ensures Abstract() == EMPTY
    {
      store, auditLog := map[], [];
    }

    static method Find(proposals: seq<Proposal>, id: string) returns (at: Option<nat>)
      ensures at == IndexOf(proposals, id)
    {
      for i := 0 to |proposals|
        invariant IndexOf(proposals[..i], id) == None
      {
        assert proposals[..i+1][..i] == proposals[..i];
        if proposals[i].id == id {
          FirstStaysFirst(proposals, i + 1, id);
          return Some(i);
        }
      }
      assert proposals[..|proposals|] == proposals;
      return None;
    }

    method SaveProposal(p: Proposal) returns (error: Option<StoreError>)
      modifies this
      ensures Abstract() == Step(old(Abstract()), Operation.SaveProposal(p))
      ensures error == if p.productionId in old(store) then None else Some(NoSuchProduction)
    {
      if p.productionId !in store {
        return Some(NoSuchProduction);
      }
      var entry := store[p.productionId];
      var at := Find(entry.proposals, p.id);
      var proposals := if at.Some? then entry.proposals[at.value := p] else entry.proposals + [p];
      store := store[p.productionId := entry.(proposals := proposals)];
      auditLog := auditLog + [ProposalSaved(p.id)];
      return None;
    }

    /** The checks that precede a confirmation. */
    method CheckConfirmation(productionId: string, proposalId: string, approver: string, h: Hashes, authId: string,
                             now: string) returns (r: Result<(nat, Authorization), StoreError>)
      ensures r == Confirmation(Abstract(), productionId, proposalId, approver, h, authId, now)
    {
      if productionId !in store {
        return Err(NoSuchProduction);
      }
      var proposals := store[productionId].proposals;
      var at := Find(proposals, proposalId);
      if at.None? || proposals[at.value].status != Pending {
        return Err(NotPending);
      }
      var p := proposals[at.value];
      if approver == p.proposerId {
        return Err(SameIdentity);
      }
      if p.hashes != h {
        return Err(StaleProposal);
      }
      var auth := AuthorizationFor(p, productionId, approver, authId, now);
      if !ValidAuthorization(auth) {
        return Err(InvalidAuthorization);
      }
      return Ok((at.value, auth));
    }

    method ConfirmProposal(productionId: string, proposalId: string, approver: string, h: Hashes, authId: string,
                           now: string, fault: Fault) returns (r: Result<Authorization, StoreError>)
      modifies this
      ensures Abstract() ==
              Step(old(Abstract()), Operation.ConfirmProposal(productionId, proposalId, approver, h, authId, now, fault))
      ensures var c := Confirmation(old(Abstract()), productionId, proposalId, approver, h, authId, now);
              r == if c.Err? then Err(c.error) else if fault != NoFault then Err(MutationFailed) else Ok(c.value.1)
      ensures r.Err? ==> Abstract() == old(Abstract())
    {
      var checked := CheckConfirmation(productionId, proposalId, approver, h, authId, now);
      if checked.Err? {
        return Err(checked.error);
      }
      var (at, auth) := checked.value;
      var ok := Mutate(productionId, at, auth, fault);
      return if ok then Ok(auth) else Err(MutationFailed);
    }

    /** The mutations are made one by one, and undone when one of them fails. */
    method Mutate(productionId: string, at: nat, auth: Authorization, fault: Fault) returns (ok: bool)
      requires productionId in store && at < |store[productionId].proposals|
      modifies this
      ensures ok <==> fault == NoFault
      ensures Abstract() == if ok then ConfirmedState(old(Abstract()), productionId, at, auth) else old(Abstract())
    {
      ghost var before := Abstract();
      var entry := store[productionId];
      var oldStatus := entry.proposals[at].status;
      var initialAuths, initialAudit := |entry.authorizations|, |auditLog|;
      if fault != BeforeAppend {
        store := store[productionId := entry.(authorizations := entry.authorizations + [auth])];
        if fault != AfterAppend {
          SetStatus(productionId, at, Confirmed);
          if fault != AfterStatus {
            auditLog := auditLog + [ProposalConfirmed(auth.proposalId, auth.id)];
            if fault != AfterAudit {
              return true;
            }
          }
        }
      }
      Rollback(productionId, at, oldStatus, initialAuths, initialAudit, before);
      return false;
    }

    /** Restore the status and pop the records appended beyond the given lengths. */
    method Rollback(productionId: string, at: nat, oldStatus: ProposalStatus, initialAuths: nat, initialAudit: nat,
                    ghost before: State)
      requires PartlyConfirmed(Abstract(), before, productionId, at)
      requires oldStatus == before.entries[productionId].proposals[at].status
      requires initialAuths == |before.entries[productionId].authorizations| && initialAudit == |before.audit|
      modifies this
      ensures Abstract() == before
    {
      SetStatus(productionId, at, oldStatus);
      var entry := store[productionId];
      if |entry.authorizations| > initialAuths {
        entry := entry.(authorizations := entry.authorizations[..|entry.authorizations|-1]);
        store := store[productionId := entry];
      }
      if |auditLog| > initialAudit {
        auditLog := auditLog[..|auditLog|-1];
      }
      assert entry.proposals == before.entries[productionId].proposals;
      assert entry == before.entries[productionId];
    }

    method SetStatus(productionId: string, at: nat, status: ProposalStatus)
      requires productionId in store && at < |store[productionId].proposals|
      modifies this`store
      ensures store == old(store)[productionId := old(store)[productionId].(
                         proposals := old(store)[productionId].proposals[
                           at := old(store)[productionId].proposals[at].(status := status)])]
    {
      var entry := store[productionId];
      store := store[productionId := entry.(proposals := entry.proposals[at := entry.proposals[at].(status := status)])];
    }

    method SaveExportResult(productionId: string, releaseDigest: Digest, path: string) returns (error: Option<StoreError>)
      modifies this
      ensures Abstract() == Step(old(Abstract()), Operation.SaveExportResult(productionId, ExportRecord(releaseDigest, path)))
      ensures error == ExportError(old(Abstract()), productionId, ExportRecord(releaseDigest, path))
    {
      if !LowerHexDigest(releaseDigest) || Blank(path) {
        return Some(InvalidExport);
      }
      if productionId !in store {
        return Some(NoSuchProduction);
      }
      var entry := store[productionId];
      if entry.exported.Some? {
        if entry.exported.value.releaseDigest == releaseDigest && entry.exported.value.path == path {
          assert store == store[productionId := entry.(exported := Some(ExportRecord(releaseDigest, path)))];
          return None;
        }
        return Some(ConflictingExport);
      }
      store := store[productionId := entry.(exported := Some(ExportRecord(releaseDigest, path)))];
      return None;
    }
  }

  lemma FirstStaysFirst(proposals: seq<Proposal>, n: nat, id: string)
    requires n <= |proposals| && IndexOf(proposals[..n], id).Some?
    ensures IndexOf(proposals, id) == IndexOf(proposals[..n], id)
  {
  }
}
