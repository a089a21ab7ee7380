/** Proposals and authorizations in Firestore: sub-collections of a production, changed in transactions. */
module FirestoreProposals {
  import opened Domain
  import opened Records
  import opened ProductionStore
  import opened ProductionStoreProofs

  /** The two sub-collections of one production, by document id. */
  datatype Shelf = Shelf(proposals: map<string, Proposal>, authorizations: map<string, Authorization>)

  type Shelves = map<string, Shelf>

  datatype SaveError = Unregistered | ChangedProposal

  function SaveOutcome(s: Shelves, p: Proposal): Option<SaveError> {
    if p.productionId !in s then Some(Unregistered)
    else if p.id in s[p.productionId].proposals && s[p.productionId].proposals[p.id] != p then Some(ChangedProposal)
    else None
  }

  function ConfirmOutcome(s: Shelves, productionId: string, proposalId: string, approver: string, h: Hashes,
                          authId: string, now: string): Result<Authorization, StoreError> {
    if productionId !in s then Err(NoSuchProduction) else
    var shelf := s[productionId];
    if proposalId !in shelf.proposals || shelf.proposals[proposalId].status != Pending then Err(NotPending) else
    var p := shelf.proposals[proposalId];
    if approver == p.proposerId then Err(SameIdentity) else
    if p.hashes != h then Err(StaleProposal) else
    var a := AuthorizationFor(p, productionId, approver, authId, now).(proposalId := proposalId);
    if ValidAuthorization(a) then Ok(a) else Err(InvalidAuthorization)
  }

  datatype Transaction =
    | Create(productionId: string)
    | Save(proposal: Proposal)
    | Confirm(productionId: string, proposalId: string, approver: string, hashes: Hashes, authId: string, now: string)

  function Commit(s: Shelves, t: Transaction): Shelves {
    match t
    case Create(id) => if id in s then s else s[id := Shelf(map[], map[])]
    case Save(p) =>
      if SaveOutcome(s, p).Some? then s
      else s[p.productionId := s[p.productionId].(proposals := s[p.productionId].proposals[p.id := p])]
    case Confirm(id, proposalId, approver, h, authId, now) =>
      var c := ConfirmOutcome(s, id, proposalId, approver, h, authId, now);
      if c.Err? then s else
      var shelf := s[id];
      s[id := Shelf(shelf.proposals[proposalId := shelf.proposals[proposalId].(status := Confirmed)],
                    shelf.authorizations[authId := c.value])]
  }

  function CommitAll(s: Shelves, ts: seq<Transaction>): Shelves {
    if ts == [] then s else Commit(CommitAll(s, ts[..|ts|-1]), ts[|ts|-1])
  }

  class FirestoreProposalStore {
    var shelves: Shelves

    constructor ()
      ensures shelves == map[]
    {
      shelves := map[];
    }

    method SaveProposal(p: Proposal) returns (error: Option<SaveError>)
      modifies this
      ensures error == SaveOutcome(old(shelves), p)
      ensures shelves == Commit(old(shelves), Save(p))
    {
      if p.productionId !in shelves {
        return Some(Unregistered);
      }
      var shelf := shelves[p.productionId];
      if p.id in shelf.proposals {
        if shelf.proposals[p.id] == p {
          assert shelf.proposals[p.id := p] == shelf.proposals;
          assert shelves[p.productionId := shelf] == shelves;
          return None;
        }
        return Some(ChangedProposal);
      }
      shelves := shelves[p.productionId := shelf.(proposals := shelf.proposals[p.id := p])];
      return None;
    }

    method ConfirmProposal(productionId: string, proposalId: string, approver: string, h: Hashes, authId: string,
                           now: string) returns (r: Result<Authorization, StoreError>)
      modifies this
      ensures r == ConfirmOutcome(old(shelves), productionId, proposalId, approver, h, authId, now)
      ensures shelves == Commit(old(shelves), Confirm(productionId, proposalId, approver, h, authId, now))
    {
      if productionId !in shelves {
        return Err(NoSuchProduction);
      }
      var shelf := shelves[productionId];
      if proposalId !in shelf.proposals || shelf.proposals[proposalId].status != Pending {
        return Err(NotPending);
      }
      var p := shelf.proposals[proposalId];
      if approver == p.proposerId {
        return Err(SameIdentity);
      }
      if p.hashes != h {
        return Err(StaleProposal);
      }
      var auth := Authorization(authId, productionId, proposalId, p.issueId, p.proposerId, approver, p.action, p.reason,
                                p.selectedContributorId, p.hashes, now);
      if !ValidAuthorization(auth) {
        return Err(InvalidAuthorization);
      }
      shelves := shelves[productionId := Shelf(shelf.proposals[proposalId := p.(status := Confirmed)],
                                               shelf.authorizations[authId := auth])];
      return Ok(auth);
    }
  }

  // ---------------------------------------------------------------- two-person authority

  ghost predicate Keyed(shelf: Shelf) {
    forall k :: k in shelf.proposals ==> shelf.proposals[k].id == k
  }

  ghost predicate EachBacked(shelf: Shelf, productionId: string) {
    forall a :: a in shelf.authorizations ==>
      var auth := shelf.authorizations[a];
      && auth.proposalId in shelf.proposals && shelf.proposals[auth.proposalId].status == Confirmed
      && Authorizes(auth, shelf.proposals[auth.proposalId], productionId)
  }

  ghost predicate OneEach(shelf: Shelf) {
    forall a, b :: a in shelf.authorizations && b in shelf.authorizations && a != b ==>
      shelf.authorizations[a].proposalId != shelf.authorizations[b].proposalId
  }

  ghost predicate HasRecord(shelf: Shelf, proposalId: string) {
    exists a :: a in shelf.authorizations && shelf.authorizations[a].proposalId == proposalId
  }

  ghost predicate AllRecorded(shelf: Shelf) {
    forall k :: k in shelf.proposals && shelf.proposals[k].status == Confirmed ==> HasRecord(shelf, k)
  }

  /** Confirmed proposals and authorizations correspond one to one. */
  ghost predicate TwoPersonShelf(shelf: Shelf, productionId: string) {
    Keyed(shelf) && EachBacked(shelf, productionId) && OneEach(shelf) && AllRecorded(shelf)
  }

  ghost predicate AllTwoPersonShelves(s: Shelves) {
    forall id :: id in s ==> TwoPersonShelf(s[id], id)
  }

  /** New proposals are saved unconfirmed, and a confirmation gets a fresh authorization id. Proposal ids need not be
      fresh. */
  ghost predicate Allowed(s: Shelves, t: Transaction) {
    match t
    case Create(_) => true
    case Save(p) => p.productionId in s && p.id !in s[p.productionId].proposals ==> p.status != Confirmed
    case Confirm(id, proposalId, approver, h, authId, now) =>
      ConfirmOutcome(s, id, proposalId, approver, h, authId, now).Ok? ==> authId !in s[id].authorizations
  }

  ghost predicate AllowedRun(ts: seq<Transaction>) {
    ts == [] || (AllowedRun(ts[..|ts|-1]) && Allowed(CommitAll(map[], ts[..|ts|-1]), ts[|ts|-1]))
  }

  lemma NewSaveKeepsIff(shelf: Shelf, p: Proposal, id: string)
    requires TwoPersonShelf(shelf, id) && p.id !in shelf.proposals
    ensures TwoPersonShelf(shelf.(proposals := shelf.proposals[p.id := p]), id) <==> p.status != Confirmed
  {
    var after := shelf.(proposals := shelf.proposals[p.id := p]);
    forall k | k in shelf.proposals ensures HasRecord(shelf, k) <==> HasRecord(after, k) {
      RecordsUnchanged(shelf, after, k);
    }
    forall a | a in shelf.authorizations ensures shelf.authorizations[a].proposalId != p.id {
      assert shelf.authorizations[a].proposalId in shelf.proposals;
    }
    assert !HasRecord(after, p.id);
  }

  lemma RecordsUnchanged(shelf: Shelf, after: Shelf, k: string)
    requires after.authorizations == shelf.authorizations
    ensures HasRecord(shelf, k) <==> HasRecord(after, k)
  {
  }

  lemma ConfirmKeepsShelf(shelf: Shelf, id: string, k: string, a: Authorization, authId: string)
    requires TwoPersonShelf(shelf, id) && k in shelf.proposals && shelf.proposals[k].status == Pending
    requires authId !in shelf.authorizations && a.proposalId == k && Authorizes(a, shelf.proposals[k], id)
    ensures TwoPersonShelf(Shelf(shelf.proposals[k := shelf.proposals[k].(status := Confirmed)],
                                 shelf.authorizations[authId := a]), id)
  {
    var after := Shelf(shelf.proposals[k := shelf.proposals[k].(status := Confirmed)], shelf.authorizations[authId := a]);
    assert forall b :: b in shelf.authorizations ==> shelf.authorizations[b].proposalId != k;
    forall j | j in after.proposals && after.proposals[j].status == Confirmed ensures HasRecord(after, j) {
      if j == k {
        assert after.authorizations[authId].proposalId == j;
      } else {
        assert HasRecord(shelf, j);
        var b :| b in shelf.authorizations && shelf.authorizations[b].proposalId == j;
        assert b in after.authorizations && after.authorizations[b].proposalId == j;
      }
    }
  }

  /** A confirmation under an authorization id in use drops the record of another confirmed proposal. */
  lemma ReusedIdBreaks(shelf: Shelf, id: string, k: string, a: Authorization, authId: string)
    requires TwoPersonShelf(shelf, id) && k in shelf.proposals && shelf.proposals[k].status == Pending
    requires authId in shelf.authorizations && a.proposalId == k
    ensures !TwoPersonShelf(Shelf(shelf.proposals[k := shelf.proposals[k].(status := Confirmed)],
                                  shelf.authorizations[authId := a]), id)
  {
    var after := Shelf(shelf.proposals[k := shelf.proposals[k].(status := Confirmed)], shelf.authorizations[authId := a]);
    var lost := shelf.authorizations[authId].proposalId;
    assert lost in shelf.proposals && shelf.proposals[lost].status == Confirmed && lost != k;
    assert after.proposals[lost] == shelf.proposals[lost];
    forall b | b in after.authorizations ensures after.authorizations[b].proposalId != lost {
      if b != authId {
        assert shelf.authorizations[b].proposalId != shelf.authorizations[authId].proposalId;
      }
    }
    assert !HasRecord(after, lost);
  }

  lemma OneShelfChanges(s: Shelves, s': Shelves, id: string)
    requires AllTwoPersonShelves(s) && id in s' && s' == s[id := s'[id]]
    ensures AllTwoPersonShelves(s') <==> TwoPersonShelf(s'[id], id)
  {
  }

  lemma SaveKeepsIff(s: Shelves, p: Proposal)
    requires AllTwoPersonShelves(s)
    ensures AllTwoPersonShelves(Commit(s, Save(p))) <==> Allowed(s, Save(p))
  {
    var s' := Commit(s, Save(p));
    if SaveOutcome(s, p).None? {
      OneShelfChanges(s, s', p.productionId);
      if p.id in s[p.productionId].proposals {
        assert s[p.productionId].proposals[p.id := p] == s[p.productionId].proposals;
      } else {
        NewSaveKeepsIff(s[p.productionId], p, p.productionId);
      }
    }
  }

  lemma ConfirmKeepsIff(s: Shelves, id: string, proposalId: string, approver: string, h: Hashes, authId: string, now: string)
    requires AllTwoPersonShelves(s)
    ensures var t := Confirm(id, proposalId, approver, h, authId, now);
            AllTwoPersonShelves(Commit(s, t)) <==> Allowed(s, t)
  {
    var c := ConfirmOutcome(s, id, proposalId, approver, h, authId, now);
    if c.Ok? {
      OneShelfChanges(s, Commit(s, Confirm(id, proposalId, approver, h, authId, now)), id);
      assert TwoPersonShelf(s[id], id);
      if authId in s[id].authorizations {
        ReusedIdBreaks(s[id], id, proposalId, c.value, authId);
      } else {
        ConfirmKeepsShelf(s[id], id, proposalId, c.value, authId);
      }
    }
  }

  /** The exact condition: a transaction keeps the correspondence exactly when it does not save a new proposal as confirmed,
      and does not confirm under an authorization id in use. */
  lemma CommitKeepsIff(s: Shelves, t: Transaction)
    requires AllTwoPersonShelves(s)
    ensures AllTwoPersonShelves(Commit(s, t)) <==> Allowed(s, t)
  {
    match t
    case Create(_) =>
    case Save(p) => SaveKeepsIff(s, p);
    case Confirm(id, proposalId, approver, h, authId, now) => ConfirmKeepsIff(s, id, proposalId, approver, h, authId, now);
  }

  /** The correspondence held all along: after every transaction of the run. */
  ghost predicate TwoPersonThroughout(ts: seq<Transaction>) {
    AllTwoPersonShelves(CommitAll(map[], ts)) && (ts == [] || TwoPersonThroughout(ts[..|ts|-1]))
  }

  /** In every run of transactions, confirmed proposals and authorizations correspond one to one all along, each
      authorization given by another person than the proposer, exactly when every transaction is allowed. Saving a changed
      proposal is refused, so no proposal id has to be fresh. */
  lemma {:induction false} TwoPersonInFirestore(ts: seq<Transaction>)
    ensures TwoPersonThroughout(ts) <==> AllowedRun(ts)
  {
    if ts != [] {
      var before := ts[..|ts|-1];
      TwoPersonInFirestore(before);
      if TwoPersonThroughout(before) {
        ThroughoutNow(before);
        CommitKeepsIff(CommitAll(map[], before), ts[|ts|-1]);
      }
    }
  }

  lemma ThroughoutNow(ts: seq<Transaction>)
    requires TwoPersonThroughout(ts)
    ensures AllTwoPersonShelves(CommitAll(map[], ts))
  {
  }
}
