/** The transactional store refines one long-lived Projector, and its allocator hands out versions safely. */
module ProjectionStoreProofs {
  import opened Domain
  import opened Projection
  import opened ProjectionProofs
  import opened ProjectionStore

  // ---------------------------------------------------------------- refinement

  /** The stored documents represent the state of a long-lived Projector. */
  ghost predicate Represents(d: Docs, l: Local) {
    && d.processed.Keys == l.seen
    && Last(d) == l.version
    && (l.projection.None? ==> l.version == 0)
    && StoredProjection(d) == (if l.projection.Some? then Some(WithoutLog(l.projection.value)) else None)
  }

  predicate EnvelopeConsistent(e: Event) {
    !e.payload.Unrecognised? && e.payloadProductionId == e.productionId
  }

  lemma ProjectIgnoresLog(p: Projection, e: Event)
    requires !e.payload.Unrecognised?
    ensures WithoutLog(Project(WithoutLog(p), e)) == WithoutLog(Project(p, e))
  {
  }

  /** The store answers as the Projector does, except that it skips a duplicate or stale event before
      looking at its envelope, where the Projector rejects it. */
  lemma AnswersAgree(d: Docs, l: Local, e: Event)
    requires Represents(d, l)
    ensures StoreVerdict(d, e) == Verdict(l, e) <==>
            EnvelopeConsistent(e) || (e.eventId !in l.seen && l.version < e.version)
  {
    assert Refusal(Hydrated(d).projection, e) == Refusal(l.projection, e);
  }

  lemma StepRefines(d: Docs, l: Local, e: Event)
    requires Represents(d, l)
    ensures Represents(StoreStep(d, e), Step(l, e))
    ensures StoreVerdict(d, e) == Applied <==> Verdict(l, e) == Applied
  {
    assert Refusal(Hydrated(d).projection, e) == Refusal(l.projection, e);
    if Verdict(l, e) == Applied {
      ProjectIgnoresLog(if l.projection.Some? then l.projection.value else DEFAULT_PROJECTION, e);
    }
  }

  datatype StoreOp = Deliver(e: Event) | Allocate(eid: string)

  function Perform(d: Docs, op: StoreOp): Docs {
    match op
    case Deliver(e) => StoreStep(d, e)
    case Allocate(eid) => AllocateStep(d, eid)
  }

  function RunStore(d: Docs, ops: seq<StoreOp>): Docs {
    if ops == [] then d else Perform(RunStore(d, ops[..|ops|-1]), ops[|ops|-1])
  }

  function Deliveries(ops: seq<StoreOp>): seq<Event> {
    if ops == [] then []
    else
      var op := ops[|ops|-1];
      Deliveries(ops[..|ops|-1]) + (if op.Deliver? then [op.e] else [])
  }

  function Resolutions(es: seq<Event>): seq<Event> {
    if es == [] then []
    else
      var e := es[|es|-1];
      Resolutions(es[..|es|-1]) + (if e.payload.ResolutionRecorded? then [e] else [])
  }

  function AuthorizationDocs(es: seq<Event>): map<string, AuthorizationDoc> {
    if es == [] then map[]
    else
      var before, e := AuthorizationDocs(es[..|es|-1]), es[|es|-1];
      if e.payload.ResolutionRecorded? then before[e.eventId := AuthorizationOf(e)] else before
  }

  /** For every interleaving of deliveries and allocations, hydrating a fresh reducer for each event keeps
      the documents of one long-lived Projector that saw the same deliveries. */
  lemma {:induction false} StoreRefinesProjector(ops: seq<StoreOp>)
    ensures Represents(RunStore(NO_DOCS, ops), Run(FRESH, Deliveries(ops)))
  {
    if ops != [] {
      var before, op := ops[..|ops|-1], ops[|ops|-1];
      StoreRefinesProjector(before);
      var es := Deliveries(before);
      if op.Deliver? {
        StepRefines(RunStore(NO_DOCS, before), Run(FRESH, es), op.e);
        RunOfAppend(FRESH, es, op.e);
      } else {
        assert es + [] == es;
      }
    }
  }

  lemma {:induction false} AuthorizationDocsOfRun(ops: seq<StoreOp>)
    ensures RunStore(NO_DOCS, ops).authorizations == AuthorizationDocs(Accepted(FRESH, Deliveries(ops)))
  {
    if ops != [] {
      var before, op := ops[..|ops|-1], ops[|ops|-1];
      AuthorizationDocsOfRun(before);
      var es := Deliveries(before);
      if op.Deliver? {
        StoreRefinesProjector(before);
        DocsOfDelivery(RunStore(NO_DOCS, before), es, op.e);
      } else {
        assert es + [] == es;
      }
    }
  }

  lemma DocsOfDelivery(d: Docs, es: seq<Event>, e: Event)
    requires Represents(d, Run(FRESH, es)) && d.authorizations == AuthorizationDocs(Accepted(FRESH, es))
    ensures StoreStep(d, e).authorizations == AuthorizationDocs(Accepted(FRESH, es + [e]))
  {
    StepRefines(d, Run(FRESH, es), e);
    var acc := Accepted(FRESH, es);
    RunOfAppend(FRESH, es, e);
    assert (acc + [e])[..|acc|] == acc;
    assert acc + [] == acc;
  }

  lemma {:induction false} ResolutionsMatchLog(es: seq<Event>)
    ensures var rs := Resolutions(es);
            && |LogEntries(es)| == |rs|
            && (forall i :: 0 <= i < |rs| ==> rs[i] in es && rs[i].payload.ResolutionRecorded?
                                              && LogEntries(es)[i] == rs[i].payload.entry)
  {
    if es != [] {
      ResolutionsMatchLog(es[..|es|-1]);
    }
  }

  lemma {:induction false} DocsOfResolutions(es: seq<Event>)
    requires forall i, j :: 0 <= i < j < |es| ==> es[i].eventId != es[j].eventId
    ensures var rs, docs := Resolutions(es), AuthorizationDocs(es);
            && |docs| == |rs| && docs.Keys == Ids(rs)
            && (forall r :: r in rs ==> r.payload.ResolutionRecorded? && r.eventId in docs
                                        && docs[r.eventId] == AuthorizationOf(r))
  {
    if es != [] {
      var before, e := es[..|es|-1], es[|es|-1];
      DocsOfResolutions(before);
      ResolutionsMatchLog(before);
      var rs := Resolutions(before);
      forall r | r in rs ensures r.eventId != e.eventId {
        assert r in before;
      }
      IdsOfAppend(rs, e);
      assert rs + [] == rs;
      if e.payload.ResolutionRecorded? {
        assert e.eventId !in AuthorizationDocs(before);
        assert AuthorizationDocs(es).Keys == AuthorizationDocs(before).Keys + {e.eventId};
      }
    }
  }

  lemma IdsOfAppend(es: seq<Event>, e: Event)
    ensures Ids(es + [e]) == Ids(es) + {e.eventId}
    ensures forall x :: x in es + [e] <==> x in es || x == e
  {
    forall x ensures x in es + [e] <==> x in es || x == e {
    }
  }

  /** The authorization documents match the long-lived Projector's authorization log entry for entry. */
  lemma AuthorizationDocsMatchLog(ops: seq<StoreOp>)
    ensures var docs := RunStore(NO_DOCS, ops).authorizations;
            var log := LogOf(Run(FRESH, Deliveries(ops)).projection);
            var rs := Resolutions(Accepted(FRESH, Deliveries(ops)));
            && |docs| == |log| == |rs|
            && docs.Keys == Ids(rs)
            && forall i :: 0 <= i < |log| ==> rs[i].eventId in docs && docs[rs[i].eventId].entry == log[i]
  {
    var es := Deliveries(ops);
    var acc := Accepted(FRESH, es);
    AuthorizationDocsOfRun(ops);
    LogIsAcceptedResolutions(es);
    AcceptedInOrder(FRESH, es);
    ResolutionsMatchLog(acc);
    DocsOfResolutions(acc);
  }

  // ---------------------------------------------------------------- the allocator

  /** The counter covers every applied and every allocated version, and no two ids share a version. */
  ghost predicate AllocatorSafe(d: Docs) {
    && Last(d) <= Counter(d)
    && (forall x :: x in d.reservations ==> 1 <= d.reservations[x] <= Counter(d))
    && (forall x, y :: x in d.reservations && y in d.reservations && x != y ==> d.reservations[x] != d.reservations[y])
  }

  /** Allocations interleaved with arbitrary deliveries stay safe. */
  lemma {:induction false} AllocatorStaysSafe(d: Docs, ops: seq<StoreOp>)
    requires AllocatorSafe(d)
    ensures AllocatorSafe(RunStore(d, ops))
    ensures Counter(d) <= Counter(RunStore(d, ops)) && Last(d) <= Last(RunStore(d, ops))
    ensures forall x :: x in d.reservations ==>
                          x in RunStore(d, ops).reservations && RunStore(d, ops).reservations[x] == d.reservations[x]
    ensures d.processed.Keys <= RunStore(d, ops).processed.Keys
  {
    if ops != [] {
      AllocatorStaysSafe(d, ops[..|ops|-1]);
    }
  }

  /** An id that is still unprocessed gets the same version back after any history; another id that asks
      later for its first version gets a larger one. */
  lemma AllocationIsStable(d: Docs, eid: string, other: string, ops: seq<StoreOp>)
    requires AllocatorSafe(d) && eid !in d.processed
    ensures var v := AllocatedVersion(d, eid);
            var later := RunStore(AllocateStep(d, eid), ops);
            && AllocatorSafe(later)
            && (eid !in later.processed ==> AllocatedVersion(later, eid) == v && AllocateStep(later, eid) == later)
            && (other !in later.processed && other !in later.reservations ==> v < AllocatedVersion(later, other))
  {
    var d1 := AllocateStep(d, eid);
    assert RunStore(d, [Allocate(eid)]) == d1 by {
      assert [Allocate(eid)][..0] == [];
    }
    AllocatorStaysSafe(d, [Allocate(eid)]);
    AllocatorStaysSafe(d1, ops);
  }
}
