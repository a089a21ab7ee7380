/** The ingestion worker: parse, apply, and only then commit the offset. */
module Ingestion {
  import opened Domain
  import opened Projection
  import opened ProjectionStore
  import opened ProjectionStoreProofs

  datatype Content = BrokerError | NoValue | Malformed | Carries(e: Event)

  datatype Message = Message(offset: nat, content: Content)

  /** A polled message with the faults that strike while it is handled. */
  datatype Delivery = Delivery(message: Message, storageFails: bool, commitFails: bool)

  /** The store has nothing left to do for the event. */
  predicate Settled(d: Docs, e: Event) {
    e.eventId in d.processed || e.version <= Last(d)
  }

  /** A settled event stays settled whatever else is delivered or allocated, and each redelivery is a no-op. */
  lemma {:induction false} SettledForever(d: Docs, e: Event, ops: seq<StoreOp>)
    requires Settled(d, e)
    ensures var later := RunStore(d, ops);
            && Settled(later, e)
            && StoreVerdict(later, e) in {Duplicate, Stale}
            && StoreStep(later, e) == later
  {
    if ops != [] {
      SettledForever(d, e, ops[..|ops|-1]);
    }
  }

  /** An apply settles its event exactly when it does not raise. */
  lemma AppliedOrSkippedIsSettled(d: Docs, e: Event)
    ensures Settled(StoreStep(d, e), e) <==> !StoreVerdict(d, e).Rejected?
  {
  }

  function Carried(x: Option<Delivery>): seq<Event> {
    if x.Some? && x.value.message.content.Carries? && !x.value.storageFails then [x.value.message.content.e] else []
  }

  /** What handling a polled message makes of one production's documents. */
  function Handle(d: Docs, pid: string, x: Option<Delivery>): Docs {
    if Carried(x) != [] && Carried(x)[0].productionId == pid then StoreStep(d, Carried(x)[0]) else d
  }

  function HandleAll(d: Docs, pid: string, polls: seq<Option<Delivery>>): Docs {
    if polls == [] then d else Handle(HandleAll(d, pid, polls[..|polls|-1]), pid, polls[|polls|-1])
  }

  lemma HandleKeepsSettled(d: Docs, e: Event, x: Option<Delivery>)
    requires Settled(d, e)
    ensures Settled(Handle(d, e.productionId, x), e)
  {
  }

  class EventIngestionWorker {
    const store: FirestoreProjectionStore
    var committed: seq<Message>

    constructor (store: FirestoreProjectionStore)
      ensures this.store == store && committed == []
    {
      this.store := store;
      committed := [];
    }

    /** The offset is committed exactly when the event parsed, the store answered, and the commit succeeded;
        the store changes exactly as its own transaction says. */
    method ProcessSingleMessage(x: Option<Delivery>) returns (done: bool)
      modifies this, store
      ensures done <==> Carried(x) != [] && !x.value.commitFails
                        && !StoreVerdict(old(store.View(Carried(x)[0].productionId)), Carried(x)[0]).Rejected?
      ensures committed == old(committed) + (if done then [x.value.message] else [])
      ensures done ==> Settled(store.View(Carried(x)[0].productionId), Carried(x)[0])
      ensures forall pid :: store.View(pid) == Handle(old(store.View(pid)), pid, x)
    {
      if x.None? {
        return false;
      }
      var message := x.value.message;
      if !message.content.Carries? {
        return false;
      }
      if x.value.storageFails {
        return false;
      }
      var e := message.content.e;
      AppliedOrSkippedIsSettled(store.View(e.productionId), e);
      var r := store.Apply(e);
      if r.Rejected? {
        return false;
      }
      if x.value.commitFails {
        return false;
      }
      committed := committed + [message];
      return true;
    }

    /** Polls until enough messages were committed or the deadline came; a failed message does not stop it. */
    method RunOnce(polls: seq<Option<Delivery>>, maxMessages: nat) returns (count: nat, polled: nat)
      modifies this, store
      ensures polled <= |polls| && count <= maxMessages
      ensures count < maxMessages ==> polled == |polls|
      ensures |committed| == |old(committed)| + count && old(committed) <= committed
      ensures forall pid :: store.View(pid) == HandleAll(old(store.View(pid)), pid, polls[..polled])
      ensures forall i :: |old(committed)| <= i < |committed| ==>
                committed[i].content.Carries?
                && Settled(store.View(committed[i].content.e.productionId), committed[i].content.e)
    {
      count, polled := 0, 0;
      while count < maxMessages && polled < |polls|
        invariant polled <= |polls| && count <= maxMessages
        invariant |committed| == |old(committed)| + count && old(committed) <= committed
        invariant forall pid :: store.View(pid) == HandleAll(old(store.View(pid)), pid, polls[..polled])
        invariant forall i :: |old(committed)| <= i < |committed| ==>
                    committed[i].content.Carries?
                    && Settled(store.View(committed[i].content.e.productionId), committed[i].content.e)
      {
        label Before:
        var done := ProcessSingleMessage(polls[polled]);
        assert polls[..polled + 1][..polled] == polls[..polled];
        forall i | |old(committed)| <= i < |old@Before(committed)|
          ensures Settled(store.View(committed[i].content.e.productionId), committed[i].content.e)
        {
          var e := committed[i].content.e;
          assert committed[i] == old@Before(committed)[i];
          HandleKeepsSettled(old@Before(store.View(e.productionId)), e, polls[polled]);
        }
        if done {
          count := count + 1;
        }
        polled := polled + 1;
      }
    }
  }
}
