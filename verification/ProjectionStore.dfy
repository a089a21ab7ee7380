/** The Firestore projection store: atomic transactions over a production's documents. */
module ProjectionStore {
  import opened Domain
  import opened Projection

  /** productions/{pid}; a document written by the allocator alone has no projection. */
  datatype ProductionDoc = ProductionDoc(projection: Option<Projection>, last: nat, counter: nat)

  /** productions/{pid}/processed_events/{eid} */
  datatype ProcessedDoc = ProcessedDoc(version: nat, occurredAt: string)

  /** productions/{pid}/authorizations/{eid} */
  datatype AuthorizationDoc = AuthorizationDoc(eventId: string, entry: LogEntry, occurredAt: string)

  /** Everything stored under one production. */
  datatype Docs = Docs(production: Option<ProductionDoc>,
                       processed: map<string, ProcessedDoc>,
                       reservations: map<string, nat>,
                       authorizations: map<string, AuthorizationDoc>)

  const NO_DOCS := Docs(None, map[], map[], map[])

  function Last(d: Docs): nat {
    if d.production.Some? then d.production.value.last else 0
  }

  function Counter(d: Docs): nat {
    if d.production.Some? then d.production.value.counter else 0
  }

  function StoredProjection(d: Docs): Option<Projection> {
    if d.production.Some? then d.production.value.projection else None
  }

  /** The authorization log is kept in documents of its own. */
  function WithoutLog(p: Projection): Projection {
    p.(authorizationLog := [])
  }

  /** The reducer state a transaction starts from. */
  function Hydrated(d: Docs): Local {
    var p := StoredProjection(d);
    if p.Some? then Local(Some(WithoutLog(p.value)), {}, Last(d)) else FRESH
  }

  function StoreVerdict(d: Docs, e: Event): Outcome {
    if e.eventId in d.processed then Duplicate
    else if e.version <= Last(d) then Stale
    else Verdict(Hydrated(d), e)
  }

  function Max(a: nat, b: nat): nat {
    if a >= b then a else b
  }

  function AuthorizationOf(e: Event): AuthorizationDoc
    requires e.payload.ResolutionRecorded?
  {
    AuthorizationDoc(e.eventId, e.payload.entry, e.occurredAt)
  }

  function StoreStep(d: Docs, e: Event): Docs {
    if StoreVerdict(d, e) == Applied then
      var projection := Step(Hydrated(d), e).projection.value;
      d.(production := Some(ProductionDoc(Some(WithoutLog(projection)), e.version, Max(Counter(d), e.version))),
         processed := d.processed[e.eventId := ProcessedDoc(e.version, e.occurredAt)],
         authorizations := if e.payload.ResolutionRecorded?
                           then d.authorizations[e.eventId := AuthorizationOf(e)] else d.authorizations)
    else d
  }

  function AllocatedVersion(d: Docs, eid: string): nat {
    if eid in d.processed then d.processed[eid].version
    else if eid in d.reservations then d.reservations[eid]
    else Max(Last(d), Counter(d)) + 1
  }

  function AllocateStep(d: Docs, eid: string): Docs {
    if eid in d.processed || eid in d.reservations then d
    else
      var next := Max(Last(d), Counter(d)) + 1;
      d.(production := Some(ProductionDoc(StoredProjection(d), Last(d), next)),
         reservations := d.reservations[eid := next])
  }

  class FirestoreProjectionStore {
    var documents: map<string, Docs>

    ghost function View(pid: string): Docs
      reads this
    {
      if pid in documents then documents[pid] else NO_DOCS
    }

    constructor ()
      ensures forall pid :: View(pid) == NO_DOCS
    {
      documents := map[];
    }

    /** One transaction: all reads, a reducer hydrated from the stored checkpoint, then all writes. */
    method Apply(e: Event) returns (r: Outcome)
      modifies this
      ensures r == StoreVerdict(old(View(e.productionId)), e)
      ensures View(e.productionId) == StoreStep(old(View(e.productionId)), e)
      ensures forall pid :: pid != e.productionId ==> View(pid) == old(View(pid))
      ensures r != Applied ==> unchanged(this)
    {
      var pid := e.productionId;
      var d := if pid in documents then documents[pid] else NO_DOCS;
      if e.eventId in d.processed {
        return Duplicate;
      }
      var lastVersion := Last(d);
      var lastAllocated := Counter(d);
      if e.version <= lastVersion {
        return Stale;
      }
      var projector := new Projector();
      var stored := StoredProjection(d);
      if stored.Some? {
        projector.Restore(pid, Checkpoint(WithoutLog(stored.value), lastVersion));
      }
      assert projector.View(pid) == Hydrated(d);
      r := projector.Apply(e);
      if r != Applied {
        return;
      }
      var c := projector.TakeCheckpoint(pid);
      var payload := ProductionDoc(Some(WithoutLog(c.value.projection)), c.value.lastAggregateVersion,
                                   Max(lastAllocated, c.value.lastAggregateVersion));
      d := d.(production := Some(payload),
              processed := d.processed[e.eventId := ProcessedDoc(e.version, e.occurredAt)]);
      if e.payload.ResolutionRecorded? {
        d := d.(authorizations := d.authorizations[e.eventId := AuthorizationOf(e)]);
      }
      documents := documents[pid := d];
    }

    method Allocate(pid: string, eid: string) returns (version: nat)
      modifies this
      ensures version == AllocatedVersion(old(View(pid)), eid)
      ensures View(pid) == AllocateStep(old(View(pid)), eid)
      ensures forall q :: q != pid ==> View(q) == old(View(q))
    {
      var d := if pid in documents then documents[pid] else NO_DOCS;
      if eid in d.processed {
        return d.processed[eid].version;
      }
      if eid in d.reservations {
        return d.reservations[eid];
      }
      version := Max(Last(d), Counter(d)) + 1;
      d := d.(reservations := d.reservations[eid := version]);
      d := d.(production := Some(if d.production.Some? then d.production.value.(counter := version)
                                 else ProductionDoc(None, 0, version)));
      documents := documents[pid := d];
    }

    method HasProcessedEvent(pid: string, eid: string) returns (b: bool)
      ensures b <==> eid in View(pid).processed
    {
      b := pid in documents && eid in documents[pid].processed;
    }

    method GetLastAggregateVersion(pid: string) returns (v: nat)
      ensures v == Last(View(pid))
    {
      if pid !in documents || documents[pid].production.None? {
        return 0;
      }
      return documents[pid].production.value.last;
    }
  }
}
