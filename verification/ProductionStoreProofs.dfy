/** Two-person authority and write-once export results, over every run of the in-memory store. */
module ProductionStoreProofs {
  import opened Domain
  import opened Records
  import opened Release
  import opened ProductionStore

  // ---------------------------------------------------------------- two-person authority

  /** The record is the confirmation, by someone else, of exactly what was proposed. */
  ghost predicate Authorizes(a: Authorization, p: Proposal, productionId: string) {
    && a.productionId == productionId && a.proposalId == p.id && a.issueId == p.issueId
    && a.action == p.action && a.reason == p.reason && a.selectedContributorId == p.selectedContributorId
    && a.hashes == p.hashes
    && a.proposerId == p.proposerId && a.actorId != p.proposerId
  }

  ghost predicate DistinctProposals(ps: seq<Proposal>) {
    forall i, j :: 0 <= i < j < |ps| ==> ps[i].id != ps[j].id
  }

  ghost predicate OncePerProposal(auths: seq<Authorization>) {
    forall i, j :: 0 <= i < j < |auths| ==> auths[i].proposalId != auths[j].proposalId
  }

  /** `a` confirms one of the proposals. */
  ghost predicate Backed(a: Authorization, ps: seq<Proposal>, productionId: string) {
    exists k :: 0 <= k < |ps| && ps[k].status == Confirmed && Authorizes(a, ps[k], productionId)
  }

  ghost predicate Recorded(p: Proposal, auths: seq<Authorization>) {
    exists j :: 0 <= j < |auths| && auths[j].proposalId == p.id
  }

  /** Confirmed proposals and authorizations correspond one to one. */
  ghost predicate Corresponds(ps: seq<Proposal>, auths: seq<Authorization>, productionId: string) {
    && OncePerProposal(auths)
    && (forall j :: 0 <= j < |auths| ==> Backed(auths[j], ps, productionId))
    && (forall k :: 0 <= k < |ps| && ps[k].status == Confirmed ==> Recorded(ps[k], auths))
  }

  ghost predicate TwoPerson(e: Entry, productionId: string) {
    DistinctProposals(e.proposals) && Corresponds(e.proposals, e.authorizations, productionId)
  }

  ghost predicate AllTwoPerson(s: State) {
    forall id :: id in s.entries ==> TwoPerson(s.entries[id], id)
  }

  /** The two proposals ask for the same thing, by the same person. */
  predicate SameRequest(p: Proposal, q: Proposal) {
    && p.id == q.id && p.issueId == q.issueId && p.action == q.action && p.reason == q.reason
    && p.selectedContributorId == q.selectedContributorId && p.hashes == q.hashes && p.proposerId == q.proposerId
  }

  /** A save that keeps the correspondence: over a confirmed proposal, of a confirmed one that asks for the same, and
      otherwise of any that is not confirmed. */
  predicate KeepsAuthority(ps: seq<Proposal>, p: Proposal) {
    var at := IndexOf(ps, p.id);
    if at.Some? && ps[at.value].status == Confirmed then p.status == Confirmed && SameRequest(p, ps[at.value])
    else p.status != Confirmed
  }

  function ProposalsOf(s: State, id: string): seq<Proposal> {
    if id in s.entries then s.entries[id].proposals else []
  }

  /** The operations that keep the correspondence: confirmations always do, saves as above, and a register that supplies
      authorizations when these fit the proposals that it keeps. */
  ghost predicate Permitted(s: State, op: Operation) {
    match op
    case Register(id, _, auths, _) => auths == [] || Corresponds(ProposalsOf(s, id), auths, id)
    case SaveProposal(p) => p.productionId in s.entries ==> KeepsAuthority(s.entries[p.productionId].proposals, p)
    case _ => true
  }

  ghost predicate PermittedRun(s: State, ops: seq<Operation>) {
    ops == [] || (PermittedRun(s, ops[..|ops|-1]) && Permitted(Run(s, ops[..|ops|-1]), ops[|ops|-1]))
  }

  lemma BackedStays(a: Authorization, ps: seq<Proposal>, more: seq<Proposal>, id: string)
    requires Backed(a, ps, id) && |ps| <= |more|
    requires forall k :: 0 <= k < |ps| ==>
               more[k] == ps[k] || (ps[k].status == Pending && more[k] == ps[k].(status := Confirmed))
    ensures Backed(a, more, id)
  {
    var k :| 0 <= k < |ps| && ps[k].status == Confirmed && Authorizes(a, ps[k], id);
    assert more[k] == ps[k];
  }

  lemma RecordedStays(p: Proposal, auths: seq<Authorization>, a: Authorization)
    requires Recorded(p, auths)
    ensures Recorded(p, auths + [a])
  {
    var j :| 0 <= j < |auths| && auths[j].proposalId == p.id;
    assert (auths + [a])[j].proposalId == p.id;
  }

  /** A proposal that is not confirmed has no authorization. */
  lemma OpenUnrecorded(e: Entry, id: string, at: nat, j: nat)
    requires TwoPerson(e, id) && at < |e.proposals| && e.proposals[at].status != Confirmed && j < |e.authorizations|
    ensures e.authorizations[j].proposalId != e.proposals[at].id
  {
    assert Backed(e.authorizations[j], e.proposals, id);
    var k :| 0 <= k < |e.proposals| && e.proposals[k].status == Confirmed
             && Authorizes(e.authorizations[j], e.proposals[k], id);
    assert k != at;
    if k < at {
      assert e.proposals[k].id != e.proposals[at].id;
    } else {
      assert e.proposals[at].id != e.proposals[k].id;
    }
  }

  lemma AppendKeeps(e: Entry, p: Proposal, id: string)
    requires TwoPerson(e, id) && p.status != Confirmed && IndexOf(e.proposals, p.id) == None
    ensures TwoPerson(e.(proposals := Saved(e.proposals, p)), id)
  {
    var ps := e.proposals + [p];
    assert Saved(e.proposals, p) == ps;
    forall j | 0 <= j < |e.authorizations| ensures Backed(e.authorizations[j], ps, id) {
      BackedStays(e.authorizations[j], e.proposals, ps, id);
    }
  }

  /** A proposal that no other has the id of has no authorization. */
  lemma NewUnrecorded(e: Entry, id: string, p: Proposal)
    requires TwoPerson(e, id) && IndexOf(e.proposals, p.id) == None
    ensures !Recorded(p, e.authorizations)
  {
    forall j | 0 <= j < |e.authorizations| ensures e.authorizations[j].proposalId != p.id {
      assert Backed(e.authorizations[j], e.proposals, id);
      var k :| 0 <= k < |e.proposals| && Authorizes(e.authorizations[j], e.proposals[k], id);
      assert e.proposals[k].id != p.id;
    }
  }

  lemma ReplaceDistinct(ps: seq<Proposal>, at: nat, p: Proposal)
    requires DistinctProposals(ps) && at < |ps| && ps[at].id == p.id
    ensures DistinctProposals(ps[at := p])
  {
  }

  /** A proposal replaced by one that every authorization of it fits as well still backs what it backed. */
  lemma BackedAfterReplace(a: Authorization, ps: seq<Proposal>, at: nat, p: Proposal, id: string)
    requires Backed(a, ps, id) && at < |ps| && (ps[at].status == Confirmed ==> p.status == Confirmed && SameRequest(p, ps[at]))
    ensures Backed(a, ps[at := p], id)
  {
    var k :| 0 <= k < |ps| && ps[k].status == Confirmed && Authorizes(a, ps[k], id);
    assert ps[at := p][k] == if k == at then p else ps[k];
    assert Authorizes(a, ps[at := p][k], id);
  }

  lemma ReplaceKeeps(e: Entry, at: nat, p: Proposal, id: string)
    requires TwoPerson(e, id) && at < |e.proposals| && e.proposals[at].id == p.id
    requires p.status == Confirmed <==> e.proposals[at].status == Confirmed
    requires p.status == Confirmed ==> SameRequest(p, e.proposals[at])
    ensures TwoPerson(e.(proposals := e.proposals[at := p]), id)
  {
    var ps := e.proposals[at := p];
    ReplaceDistinct(e.proposals, at, p);
    forall j | 0 <= j < |e.authorizations| ensures Backed(e.authorizations[j], ps, id) {
      BackedAfterReplace(e.authorizations[j], e.proposals, at, p, id);
    }
    forall k | 0 <= k < |ps| && ps[k].status == Confirmed ensures Recorded(ps[k], e.authorizations) {
      assert Recorded(e.proposals[k], e.authorizations);
      var j :| 0 <= j < |e.authorizations| && e.authorizations[j].proposalId == e.proposals[k].id;
      assert e.authorizations[j].proposalId == ps[k].id;
    }
  }

  lemma SameIdSamePlace(ps: seq<Proposal>, k: nat, at: nat)
    requires DistinctProposals(ps) && k < |ps| && at < |ps| && ps[k].id == ps[at].id
    ensures k == at
  {
  }

  /** The proposal that an authorization confirms is the one with its id. */
  lemma BackerById(a: Authorization, ps: seq<Proposal>, at: nat, id: string)
    requires DistinctProposals(ps) && Backed(a, ps, id) && at < |ps| && ps[at].id == a.proposalId
    ensures ps[at].status == Confirmed && Authorizes(a, ps[at], id)
  {
    var k :| 0 <= k < |ps| && ps[k].status == Confirmed && Authorizes(a, ps[k], id);
    SameIdSamePlace(ps, k, at);
  }

  /** The authorization of a confirmed proposal fits no other proposal than one of the same id and request. */
  lemma ReplacedMustFit(e: Entry, at: nat, p: Proposal, id: string)
    requires TwoPerson(e, id) && at < |e.proposals| && e.proposals[at].id == p.id && e.proposals[at].status == Confirmed
    requires TwoPerson(e.(proposals := e.proposals[at := p]), id)
    ensures p.status == Confirmed && SameRequest(p, e.proposals[at])
  {
    assert Recorded(e.proposals[at], e.authorizations);
    var j :| 0 <= j < |e.authorizations| && e.authorizations[j].proposalId == p.id;
    BackerById(e.authorizations[j], e.proposals, at, id);
    BackerById(e.authorizations[j], e.proposals[at := p], at, id);
  }

  lemma OpenMustStayOpen(e: Entry, at: nat, p: Proposal, id: string)
    requires TwoPerson(e, id) && at < |e.proposals| && e.proposals[at].id == p.id && e.proposals[at].status != Confirmed
    requires TwoPerson(e.(proposals := e.proposals[at := p]), id)
    ensures p.status != Confirmed
  {
    var ps := e.proposals[at := p];
    assert ps[at] == p;
    if p.status == Confirmed {
      assert Recorded(ps[at], e.authorizations);
      var j :| 0 <= j < |e.authorizations| && e.authorizations[j].proposalId == p.id;
      OpenUnrecorded(e, id, at, j);
    }
  }

  lemma AppendedMustBeOpen(e: Entry, p: Proposal, id: string)
    requires TwoPerson(e, id) && IndexOf(e.proposals, p.id) == None
    requires TwoPerson(e.(proposals := Saved(e.proposals, p)), id)
    ensures p.status != Confirmed
  {
    var ps := Saved(e.proposals, p);
    assert ps[|e.proposals|] == p;
    NewUnrecorded(e, id, p);
  }

  /** The exact condition: saving over two-person authority keeps it exactly when a confirmed proposal is replaced by the
      same request, confirmed, and every other save is of a proposal that is not confirmed. */
  lemma SaveKeepsIff(e: Entry, p: Proposal, id: string)
    requires TwoPerson(e, id)
    ensures TwoPerson(e.(proposals := Saved(e.proposals, p)), id) <==> KeepsAuthority(e.proposals, p)
  {
    var at := IndexOf(e.proposals, p.id);
    if KeepsAuthority(e.proposals, p) {
      if at.None? {
        AppendKeeps(e, p, id);
      } else {
        ReplaceKeeps(e, at.value, p, id);
      }
    } else if TwoPerson(e.(proposals := Saved(e.proposals, p)), id) {
      SavedMustKeep(e, p, id);
    }
  }

  lemma SavedMustKeep(e: Entry, p: Proposal, id: string)
    requires TwoPerson(e, id) && TwoPerson(e.(proposals := Saved(e.proposals, p)), id)
    ensures KeepsAuthority(e.proposals, p)
  {
    var at := IndexOf(e.proposals, p.id);
    if at.None? {
      AppendedMustBeOpen(e, p, id);
    } else if e.proposals[at.value].status == Confirmed {
      ReplacedMustFit(e, at.value, p, id);
    } else {
      OpenMustStayOpen(e, at.value, p, id);
    }
  }

  lemma ConfirmBacks(e: Entry, id: string, at: nat, a: Authorization)
    requires TwoPerson(e, id) && at < |e.proposals| && e.proposals[at].status == Pending
    requires Authorizes(a, e.proposals[at], id)
    ensures var c := WithConfirmation(e, at, a);
            forall j :: 0 <= j < |c.authorizations| ==> Backed(c.authorizations[j], c.proposals, id)
  {
    var c := WithConfirmation(e, at, a);
    forall j | 0 <= j < |c.authorizations| ensures Backed(c.authorizations[j], c.proposals, id) {
      if j < |e.authorizations| {
        assert c.authorizations[j] == e.authorizations[j];
        BackedStays(e.authorizations[j], e.proposals, c.proposals, id);
      } else {
        assert Authorizes(a, c.proposals[at], id);
      }
    }
  }

  lemma ConfirmRecords(e: Entry, id: string, at: nat, a: Authorization)
    requires TwoPerson(e, id) && at < |e.proposals| && a.proposalId == e.proposals[at].id
    ensures var c := WithConfirmation(e, at, a);
            forall k :: 0 <= k < |c.proposals| && c.proposals[k].status == Confirmed ==>
              Recorded(c.proposals[k], c.authorizations)
  {
    var c := WithConfirmation(e, at, a);
    forall k | 0 <= k < |c.proposals| && c.proposals[k].status == Confirmed
      ensures Recorded(c.proposals[k], c.authorizations)
    {
      if k == at {
        assert c.authorizations[|e.authorizations|].proposalId == c.proposals[k].id;
      } else {
        assert c.proposals[k] == e.proposals[k];
        RecordedStays(e.proposals[k], e.authorizations, a);
      }
    }
  }

  lemma ConfirmKeeps(e: Entry, id: string, at: nat, a: Authorization)
    requires TwoPerson(e, id) && at < |e.proposals| && e.proposals[at].status == Pending
    requires Authorizes(a, e.proposals[at], id)
    ensures TwoPerson(WithConfirmation(e, at, a), id)
  {
    ConfirmBacks(e, id, at, a);
    ConfirmRecords(e, id, at, a);
    forall j | 0 <= j < |e.authorizations| ensures e.authorizations[j].proposalId != e.proposals[at].id {
      OpenUnrecorded(e, id, at, j);
    }
  }

  /** Only the entry under `id` changes. */
  lemma OneEntryChanges(s: State, s': State, id: string)
    requires AllTwoPerson(s) && id in s'.entries && s'.entries == s.entries[id := s'.entries[id]]
    ensures AllTwoPerson(s') <==> TwoPerson(s'.entries[id], id)
  {
  }

  lemma RegisterKeepsIff(s: State, id: string, p: Production, auths: seq<Authorization>, projection: ProjectionStatus)
    requires AllTwoPerson(s)
    ensures AllTwoPerson(Step(s, Register(id, p, auths, projection))) <==> Permitted(s, Register(id, p, auths, projection))
  {
    OneEntryChanges(s, Step(s, Register(id, p, auths, projection)), id);
    if id in s.entries {
      assert TwoPerson(s.entries[id], id);
    }
  }

  lemma SaveStepKeepsIff(s: State, p: Proposal)
    requires AllTwoPerson(s)
    ensures AllTwoPerson(Step(s, SaveProposal(p))) <==> Permitted(s, SaveProposal(p))
  {
    if p.productionId in s.entries {
      OneEntryChanges(s, Step(s, SaveProposal(p)), p.productionId);
      SaveKeepsIff(s.entries[p.productionId], p, p.productionId);
    }
  }

  lemma ConfirmStepKeeps(s: State, id: string, proposalId: string, approver: string, h: Hashes, authId: string,
                         now: string, fault: Fault)
    requires AllTwoPerson(s)
    ensures AllTwoPerson(Step(s, ConfirmProposal(id, proposalId, approver, h, authId, now, fault)))
  {
    var c := Confirmation(s, id, proposalId, approver, h, authId, now);
    if c.Ok? && fault == NoFault {
      OneEntryChanges(s, Step(s, ConfirmProposal(id, proposalId, approver, h, authId, now, fault)), id);
      ConfirmKeeps(s.entries[id], id, c.value.0, c.value.1);
    }
  }

  lemma StepKeepsIff(s: State, op: Operation)
    requires AllTwoPerson(s)
    ensures AllTwoPerson(Step(s, op)) <==> Permitted(s, op)
  {
    match op
    case Register(id, p, auths, projection) => RegisterKeepsIff(s, id, p, auths, projection);
    case SaveProposal(p) => SaveStepKeepsIff(s, p);
    case ConfirmProposal(id, proposalId, approver, h, authId, now, fault) =>
      ConfirmStepKeeps(s, id, proposalId, approver, h, authId, now, fault);
    case SaveExportResult(id, x) =>
      if id in s.entries {
        assert TwoPerson(s.entries[id].(exported := Some(x)), id);
      }
    case Clear =>
  }

  /** The correspondence held all along: after every operation of the run. */
  ghost predicate TwoPersonThroughout(ops: seq<Operation>) {
    AllTwoPerson(Run(EMPTY, ops)) && (ops == [] || TwoPersonThroughout(ops[..|ops|-1]))
  }

  /** In every run: each authorization confirms one confirmed proposal, by another person, with the proposal's issue,
      action, contributor and hashes, and each confirmed proposal has exactly one authorization, all along, exactly when
      every save and every register of the run is permitted. */
  lemma {:induction false} TwoPersonAuthority(ops: seq<Operation>)
    ensures TwoPersonThroughout(ops) <==> PermittedRun(EMPTY, ops)
  {
    if ops != [] {
      var before := ops[..|ops|-1];
      TwoPersonAuthority(before);
      if TwoPersonThroughout(before) {
        ThroughoutNow(before);
        StepKeepsIff(Run(EMPTY, before), ops[|ops|-1]);
      }
    }
  }

  lemma ThroughoutNow(ops: seq<Operation>)
    requires TwoPersonThroughout(ops)
    ensures AllTwoPerson(Run(EMPTY, ops))
  {
  }

  function SavedAndConfirmed(s: State, p: Proposal, approver: string, authId: string, now: string): State {
    Step(Step(s, SaveProposal(p)), ConfirmProposal(p.productionId, p.id, approver, p.hashes, authId, now, NoFault))
  }

  /** Saving the proposal, new or confirmed already, and confirming it adds an authorization. */
  lemma SavedAndConfirmedAdds(s: State, ps: seq<Proposal>, p: Proposal, approver: string, authId: string, now: string)
    requires p.productionId in s.entries && IndexOf(ps, p.id) == None && p.status == Pending
    requires s.entries[p.productionId].proposals in [ps, ps + [p.(status := Confirmed)]]
    requires ValidAuthorization(AuthorizationFor(p, p.productionId, approver, authId, now))
    ensures var s' := SavedAndConfirmed(s, p, approver, authId, now);
            && p.productionId in s'.entries
            && s'.entries[p.productionId].proposals == ps + [p.(status := Confirmed)]
            && s'.entries[p.productionId].authorizations ==
                 s.entries[p.productionId].authorizations + [AuthorizationFor(p, p.productionId, approver, authId, now)]
  {
    if s.entries[p.productionId].proposals != ps {
      SaveLast(s, ps, p.(status := Confirmed), p);
    }
    ConfirmLast(Step(s, SaveProposal(p)), ps, p, approver, authId, now);
  }

  /** Saving replaces by id: re-saving a confirmed proposal as pending lets it be confirmed twice. */
  lemma ResavingConfirmsTwice(s: State, p: Proposal, approver: string, first: string, second: string, now: string)
    requires p.productionId in s.entries && p.status == Pending
    requires IndexOf(s.entries[p.productionId].proposals, p.id) == None
    requires ValidAuthorization(AuthorizationFor(p, p.productionId, approver, first, now))
    requires ValidAuthorization(AuthorizationFor(p, p.productionId, approver, second, now))
    ensures var s' := SavedAndConfirmed(SavedAndConfirmed(s, p, approver, first, now), p, approver, second, now);
            p.productionId in s'.entries && s'.entries[p.productionId].authorizations ==
              s.entries[p.productionId].authorizations
              + [AuthorizationFor(p, p.productionId, approver, first, now)]
              + [AuthorizationFor(p, p.productionId, approver, second, now)]
  {
    var ps := s.entries[p.productionId].proposals;
    SavedAndConfirmedAdds(s, ps, p, approver, first, now);
    SavedAndConfirmedAdds(SavedAndConfirmed(s, p, approver, first, now), ps, p, approver, second, now);
  }

  lemma ConfirmLast(s: State, ps: seq<Proposal>, p: Proposal, approver: string, authId: string, now: string)
    requires p.productionId in s.entries && s.entries[p.productionId].proposals == ps + [p]
    requires p.status == Pending && IndexOf(ps, p.id) == None
    requires ValidAuthorization(AuthorizationFor(p, p.productionId, approver, authId, now))
    ensures var s' := Step(s, ConfirmProposal(p.productionId, p.id, approver, p.hashes, authId, now, NoFault));
            && p.productionId in s'.entries
            && s'.entries[p.productionId].proposals == ps + [p.(status := Confirmed)]
            && s'.entries[p.productionId].authorizations ==
                 s.entries[p.productionId].authorizations + [AuthorizationFor(p, p.productionId, approver, authId, now)]
  {
    LastIsFound(ps, p);
  }

  lemma SaveLast(s: State, ps: seq<Proposal>, before: Proposal, p: Proposal)
    requires p.productionId in s.entries && s.entries[p.productionId].proposals == ps + [before]
    requires before.id == p.id && IndexOf(ps, p.id) == None
    ensures var s' := Step(s, SaveProposal(p));
            && p.productionId in s'.entries
            && s'.entries[p.productionId].proposals == ps + [p]
            && s'.entries[p.productionId].authorizations == s.entries[p.productionId].authorizations
  {
    LastIsFound(ps, before);
  }

  lemma LastIsFound(ps: seq<Proposal>, p: Proposal)
    requires IndexOf(ps, p.id) == None
    ensures IndexOf(ps + [p], p.id) == Some(|ps|)
  {
    assert (ps + [p])[..|ps|] == ps;
  }

  // ---------------------------------------------------------------- what a run never loses

  /** Authorizations are only ever added, until the store is cleared. */
  lemma {:induction false} AuthorizationsOnlyGrow(s: State, ops: seq<Operation>, id: string)
    requires id in s.entries && Clear !in ops
    requires forall k :: 0 <= k < |ops| && ops[k].Register? ==> ops[k].authorizations == []
    ensures id in Run(s, ops).entries
    ensures s.entries[id].authorizations <= Run(s, ops).entries[id].authorizations
  {
    if ops != [] {
      AuthorizationsOnlyGrow(s, ops[..|ops|-1], id);
      var (before, op) := (Run(s, ops[..|ops|-1]), ops[|ops|-1]);
      assert op in ops;
      StepOnlyAdds(before, op, id);
    }
  }

  lemma StepOnlyAdds(s: State, op: Operation, id: string)
    requires id in s.entries && op != Clear && (op.Register? ==> op.authorizations == [])
    ensures id in Step(s, op).entries
    ensures s.entries[id].authorizations <= Step(s, op).entries[id].authorizations
  {
  }

  /** The operation leaves the production's export metadata alone: it is not a register of it, and not a clear. */
  predicate KeepsExport(op: Operation, id: string) {
    op != Clear && !(op.Register? && op.productionId == id)
  }

  lemma StepKeepsExport(s: State, op: Operation, id: string)
    requires id in s.entries && s.entries[id].exported.Some? && KeepsExport(op, id)
    ensures id in Step(s, op).entries && Step(s, op).entries[id].exported == s.entries[id].exported
  {
  }

  /** A recorded export result is never changed: other results are refused until the production is registered again. */
  lemma {:induction false} ExportIsWriteOnce(s: State, ops: seq<Operation>, id: string)
    requires id in s.entries && s.entries[id].exported.Some?
    requires forall k :: 0 <= k < |ops| ==> KeepsExport(ops[k], id)
    ensures id in Run(s, ops).entries && Run(s, ops).entries[id].exported == s.entries[id].exported
    ensures forall x :: ExportError(Run(s, ops), id, x) == None ==> Some(x) == s.entries[id].exported
  {
    if ops != [] {
      ExportIsWriteOnce(s, ops[..|ops|-1], id);
      StepKeepsExport(Run(s, ops[..|ops|-1]), ops[|ops|-1], id);
    }
  }
}
