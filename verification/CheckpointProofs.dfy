/** Safety of the release-checkpoint protocol in every interleaving. */
module CheckpointProofs {
  import opened Records
  import opened Projection
  import opened ProjectionStore
  import opened Checkpoint

  // ---------------------------------------------------------------- the invariant

  ghost predicate IsReserved(d: Docs, eid: string, v: nat) {
    eid in d.reservations && d.reservations[eid] == v
  }

  ghost predicate HasReservation(d: Docs, v: nat) {
    exists x :: x in d.reservations && d.reservations[x] == v
  }

  /** Versions 1 to the counter are each allocated to one id, and the processed ids are exactly those
      allocated a version up to the last applied one. */
  ghost predicate DocsInOrder(d: Docs) {
    && Last(d) <= Counter(d)
    && (forall x :: x in d.reservations ==> 1 <= d.reservations[x] <= Counter(d))
    && (forall x, y :: x in d.reservations && y in d.reservations && x != y ==> d.reservations[x] != d.reservations[y])
    && (forall v :: 1 <= v <= Counter(d) ==> HasReservation(d, v))
    && (forall x :: x in d.processed <==> x in d.reservations && d.reservations[x] <= Last(d))
    && (forall x :: x in d.processed ==> d.processed[x].version == d.reservations[x])
  }

  ghost predicate InFlight(d: Docs, pid: string, e: Event) {
    && e.productionId == e.payloadProductionId == pid
    && e.payload.ResolutionRecorded?
    && IsReserved(d, e.eventId, e.version)
    && e.version <= Last(d) + 1
  }

  ghost predicate ClientInOrder(d: Docs, pid: string, c: Client) {
    var eid := StableEventId(c.authorization);
    && c.authorization.productionId == pid
    && (c.pc.Waiting? || c.pc.Publishing? || c.pc.Polling? ==> IsReserved(d, eid, c.pc.version))
    && (c.pc.Publishing? || c.pc.Polling? ==> c.pc.version <= Last(d) + 1)
    && (c.pc.Synchronized? ==> eid in d.processed)
  }

  /** Each event applied once, in allocation order, with no gap. */
  ghost predicate HistoryInOrder(d: Docs, history: seq<Event>) {
    && |history| == Last(d)
    && (forall i :: 0 <= i < |history| ==> history[i].version == i + 1 && history[i].eventId in d.processed)
  }

  ghost predicate Inv(s: System) {
    && DocsInOrder(s.docs)
    && (forall e :: e in s.bus ==> InFlight(s.docs, s.pid, e))
    && (forall c :: c in s.clients ==> ClientInOrder(s.docs, s.pid, s.clients[c]))
    && HistoryInOrder(s.docs, s.history)
    && (forall i :: 0 <= i < |s.history| ==> s.history[i] in s.bus)
    && (s.worker.Handled? ==> s.worker.e.eventId in s.docs.processed)
    && (forall e :: e in s.committed ==> e.eventId in s.docs.processed)
  }

  // ---------------------------------------------------------------- steps

  /** The documents only move forward. */
  ghost predicate Extends(d: Docs, d': Docs) {
    && Last(d) <= Last(d')
    && d.processed.Keys <= d'.processed.Keys
    && (forall x :: x in d.reservations ==> x in d'.reservations && d'.reservations[x] == d.reservations[x])
  }

  lemma AllocateKeepsOrder(d: Docs, eid: string)
    requires DocsInOrder(d)
    ensures var d' := AllocateStep(d, eid);
            && DocsInOrder(d') && Extends(d, d')
            && Last(d') == Last(d) && d'.processed == d.processed
            && IsReserved(d', eid, AllocatedVersion(d, eid)) && AllocatedVersion(d, eid) >= 1
  {
    var d' := AllocateStep(d, eid);
    if eid !in d.reservations {
      assert d'.reservations[eid] == Counter(d');
      forall v | 1 <= v <= Counter(d') ensures HasReservation(d', v) {
        if v <= Counter(d) {
          assert HasReservation(d, v);
          var x :| x in d.reservations && d.reservations[x] == v;
          assert d'.reservations[x] == v;
        }
      }
    }
  }

  /** A message in flight is applied now or was applied before: it is never stale and never rejected. */
  lemma InFlightVerdict(d: Docs, pid: string, e: Event)
    requires DocsInOrder(d) && InFlight(d, pid, e)
    ensures StoreVerdict(d, e) == (if e.eventId in d.processed then Duplicate else Applied)
    ensures e.eventId !in d.processed ==> e.version == Last(d) + 1
  {
  }

  lemma ApplyKeepsOrder(d: Docs, pid: string, e: Event)
    requires DocsInOrder(d) && InFlight(d, pid, e) && e.eventId !in d.processed
    ensures var d' := StoreStep(d, e);
            && DocsInOrder(d') && Extends(d, d')
            && Last(d') == Last(d) + 1 && d'.processed.Keys == d.processed.Keys + {e.eventId}
            && d'.reservations == d.reservations && Counter(d') == Counter(d)
  {
    InFlightVerdict(d, pid, e);
    var d' := StoreStep(d, e);
    forall v | 1 <= v <= Counter(d') ensures HasReservation(d', v) {
      assert HasReservation(d, v);
    }
    forall x ensures x in d'.processed <==> x in d'.reservations && d'.reservations[x] <= Last(d') {
      if x != e.eventId && x in d.reservations {
        assert d.reservations[x] != e.version;
      }
    }
  }

  /** Facts about messages and clients survive every change of the documents. */
  lemma ExtensionKeepsFacts(s: System, d': Docs)
    requires Inv(s) && Extends(s.docs, d')
    ensures forall e :: e in s.bus ==> InFlight(d', s.pid, e)
    ensures forall c :: c in s.clients ==> ClientInOrder(d', s.pid, s.clients[c])
  {
  }

  lemma MovedKeepsInv(s: System, c: nat, pc: Pc)
    requires Inv(s) && c in s.clients
    requires ClientInOrder(s.docs, s.pid, s.clients[c].(pc := pc))
    ensures Inv(Moved(s, c, pc))
  {
  }

  lemma PublishedKeepsInv(s: System, c: nat)
    requires Inv(s) && c in s.clients && s.clients[c].pc.Publishing?
    ensures Inv(Published(s, c)) && Published(s, c).clients == s.clients
  {
    assert ClientInOrder(s.docs, s.pid, s.clients[c]);
    assert InFlight(s.docs, s.pid, BuildCheckpointEvent(s.clients[c].authorization, s.clients[c].pc.version));
  }

  lemma AllocationKeepsInv(s: System, c: nat)
    requires Inv(s) && c in s.clients
    ensures Inv(ClientStep(s, AllocateVersion(c, false), c))
  {
    if s.clients[c].pc.Allocating? {
      var eid := StableEventId(s.clients[c].authorization);
      AllocateKeepsOrder(s.docs, eid);
      ExtensionKeepsFacts(s, AllocateStep(s.docs, eid));
      var v := AllocatedVersion(s.docs, eid);
      var s1 := s.(docs := AllocateStep(s.docs, eid));
      assert Inv(s1);
      assert ClientInOrder(s1.docs, s.pid, s.clients[c]);
      MovedKeepsInv(s1, c, if v > 1 then Waiting(v) else Publishing(v));
    }
  }

  lemma NextPcInOrder(s: System, act: Action, c: nat)
    requires c in s.clients && ClientInOrder(s.docs, s.pid, s.clients[c])
    ensures ClientInOrder(s.docs, s.pid, s.clients[c].(pc := NextPc(s, act, c)))
  {
  }

  lemma AllocateVersionKeepsInv(s: System, c: nat, fails: bool)
    requires Inv(s) && c in s.clients
    ensures Inv(ClientStep(s, AllocateVersion(c, fails), c))
  {
    if fails && s.clients[c].pc.Allocating? {
      assert ClientInOrder(s.docs, s.pid, s.clients[c]);
      MovedKeepsInv(s, c, Unavailable);
    } else if !fails {
      AllocationKeepsInv(s, c);
    }
  }

  lemma PublishKeepsInv(s: System, c: nat)
    requires Inv(s) && c in s.clients
    ensures Inv(ClientStep(s, Publish(c), c))
  {
    assert ClientInOrder(s.docs, s.pid, s.clients[c]);
    if s.clients[c].pc.Publishing? {
      PublishedKeepsInv(s, c);
      MovedKeepsInv(Published(s, c), c, Polling(s.clients[c].pc.version));
    }
  }

  lemma PublishRaisesKeepsInv(s: System, c: nat, delivered: bool)
    requires Inv(s) && c in s.clients
    ensures Inv(ClientStep(s, PublishRaises(c, delivered), c))
  {
    assert ClientInOrder(s.docs, s.pid, s.clients[c]);
    if s.clients[c].pc.Publishing? {
      RaisedKeepsInv(s, c, delivered);
      assert ClientStep(s, PublishRaises(c, delivered), c) == Moved(if delivered then Published(s, c) else s, c, Unavailable);
    }
  }

  lemma RaisedKeepsInv(s: System, c: nat, delivered: bool)
    requires Inv(s) && c in s.clients && s.clients[c].pc.Publishing?
    ensures Inv(Moved(if delivered then Published(s, c) else s, c, Unavailable))
  {
    assert ClientInOrder(s.docs, s.pid, s.clients[c]);
    if delivered {
      PublishedKeepsInv(s, c);
      MovedKeepsInv(Published(s, c), c, Unavailable);
    } else {
      MovedKeepsInv(s, c, Unavailable);
    }
  }

  predicate OnlyReads(act: Action) {
    !act.AllocateVersion? && !act.Publish? && !act.PublishRaises?
  }

  lemma ReadingKeepsInv(s: System, act: Action, c: nat)
    requires Inv(s) && c in s.clients && OnlyReads(act)
    ensures Inv(ClientStep(s, act, c))
  {
    assert ClientInOrder(s.docs, s.pid, s.clients[c]);
    NextPcInOrder(s, act, c);
    MovedKeepsInv(s, c, NextPc(s, act, c));
  }

  lemma ClientKeepsInv(s: System, act: Action, c: nat)
    requires Inv(s) && c in s.clients && (!OnlyReads(act) ==> act.c == c)
    ensures Inv(ClientStep(s, act, c))
  {
    if act.AllocateVersion? {
      AllocateVersionKeepsInv(s, c, act.fails);
    } else if act.Publish? {
      PublishKeepsInv(s, c);
    } else if act.PublishRaises? {
      PublishRaisesKeepsInv(s, c, act.delivered);
    } else {
      ReadingKeepsInv(s, act, c);
    }
  }

  lemma HistoryGrows(d: Docs, d': Docs, history: seq<Event>, e: Event)
    requires HistoryInOrder(d, history) && Extends(d, d')
    requires Last(d') == Last(d) + 1 && e.version == Last(d') && e.eventId in d'.processed
    ensures HistoryInOrder(d', history + [e])
  {
  }

  lemma AppendKeepsInv(s: System, d': Docs, e: Event)
    requires Inv(s) && e in s.bus && DocsInOrder(d') && Extends(s.docs, d')
    requires Last(d') == Last(s.docs) + 1 && e.version == Last(d') && e.eventId in d'.processed
    ensures Inv(s.(docs := d', worker := Handled(e), history := s.history + [e]))
  {
    ExtensionKeepsFacts(s, d');
    HistoryGrows(s.docs, d', s.history, e);
  }

  lemma NewApplyKeepsInv(s: System, e: Event)
    requires Inv(s) && s.worker.Idle? && e in s.bus && e.eventId !in s.docs.processed
    ensures Inv(WorkerStep(s, WorkerApply(e)))
  {
    InFlightVerdict(s.docs, s.pid, e);
    ApplyKeepsOrder(s.docs, s.pid, e);
    AppendKeepsInv(s, StoreStep(s.docs, e), e);
  }

  lemma ApplyKeepsInv(s: System, e: Event)
    requires Inv(s)
    ensures Inv(WorkerStep(s, WorkerApply(e)))
  {
    if s.worker.Idle? && e in s.bus {
      InFlightVerdict(s.docs, s.pid, e);
      if e.eventId !in s.docs.processed {
        NewApplyKeepsInv(s, e);
      }
    }
  }

  lemma WorkerKeepsInv(s: System, act: Action)
    requires Inv(s)
    ensures Inv(WorkerStep(s, act))
  {
    if act.WorkerApply? {
      ApplyKeepsInv(s, act.e);
    }
  }

  lemma JoinKeepsInv(s: System, c: nat, a: Authorization)
    requires Inv(s)
    ensures Inv(Take(s, Join(c, a)))
  {
  }

  lemma ClientKeepsPid(s: System, act: Action, c: nat)
    requires c in s.clients
    ensures ClientStep(s, act, c).pid == s.pid
  {
  }

  lemma TakeKeepsPid(s: System, act: Action)
    ensures Take(s, act).pid == s.pid
  {
    if !act.Join? && !act.WorkerApply? && !act.WorkerCommit? && !act.WorkerCrash? && act.c in s.clients {
      ClientKeepsPid(s, act, act.c);
    }
  }

  lemma TakeKeepsInv(s: System, act: Action)
    requires Inv(s)
    ensures Inv(Take(s, act))
  {
    if act.Join? {
      JoinKeepsInv(s, act.c, act.a);
    } else if act.WorkerApply? || act.WorkerCommit? || act.WorkerCrash? {
      WorkerKeepsInv(s, act);
    } else if act.c in s.clients {
      ClientKeepsInv(s, act, act.c);
    }
  }

  /** The invariant holds in every reachable state. */
  lemma {:induction false} RunKeepsInv(s: System, acts: seq<Action>)
    requires Inv(s)
    ensures Inv(RunSystem(s, acts)) && RunSystem(s, acts).pid == s.pid
  {
    if acts != [] {
      RunKeepsInv(s, acts[..|acts|-1]);
      TakeKeepsInv(RunSystem(s, acts[..|acts|-1]), acts[|acts|-1]);
      TakeKeepsPid(RunSystem(s, acts[..|acts|-1]), acts[|acts|-1]);
    }
  }

  // ---------------------------------------------------------------- what the invariant gives

  ghost predicate Reachable(s: System) {
    exists pid, acts :: s == RunSystem(Initial(pid), acts)
  }

  lemma ReachableInv(s: System)
    requires Reachable(s)
    ensures Inv(s)
  {
    var pid, acts :| s == RunSystem(Initial(pid), acts);
    RunKeepsInv(Initial(pid), acts);
  }

  /** In every interleaving with versions from the allocator only: the processed ids are exactly those with
      an allocated version up to the last applied one, and no message in flight is further ahead than the
      next version. */
  lemma ProcessedIsAllocatedPrefix(s: System)
    requires Reachable(s)
    ensures forall x :: x in s.docs.processed <==> x in s.docs.reservations && s.docs.reservations[x] <= Last(s.docs)
    ensures forall e :: e in s.bus ==> IsReserved(s.docs, e.eventId, e.version) && e.version <= Last(s.docs) + 1
  {
    ReachableInv(s);
  }

  /** Published checkpoints are applied once each, in allocation order and without a gap; redelivering any
      of them finds it processed or applies it as the next version, and never drops it as stale. */
  lemma AppliedExactlyOnceInOrder(s: System)
    requires Reachable(s)
    ensures |s.history| == Last(s.docs)
    ensures forall i :: 0 <= i < |s.history| ==> s.history[i].version == i + 1 && s.history[i] in s.bus
    ensures forall i, j :: 0 <= i < j < |s.history| ==> s.history[i].eventId != s.history[j].eventId
    ensures forall x :: x in s.docs.processed ==> exists i :: 0 <= i < |s.history| && s.history[i].eventId == x
    ensures forall e :: e in s.bus ==>
                          StoreVerdict(s.docs, e) == (if e.eventId in s.docs.processed then Duplicate else Applied)
  {
    ReachableInv(s);
    forall e | e in s.bus
      ensures StoreVerdict(s.docs, e) == (if e.eventId in s.docs.processed then Duplicate else Applied)
    {
      InFlightVerdict(s.docs, s.pid, e);
    }
    forall i | 0 <= i < |s.history| ensures IsReserved(s.docs, s.history[i].eventId, i + 1) {
      assert s.history[i] in s.bus;
    }
    forall x | x in s.docs.processed ensures exists i :: 0 <= i < |s.history| && s.history[i].eventId == x {
      var i := s.docs.reservations[x] - 1;
      assert IsReserved(s.docs, s.history[i].eventId, i + 1);
    }
  }

  /** A call that reports SYNCHRONIZED, and a message whose offset was committed, were projected. */
  lemma ReportsAreTrue(s: System)
    requires Reachable(s)
    ensures forall c :: c in s.clients && s.clients[c].pc.Synchronized? ==> IsProcessed(s, c)
    ensures forall e :: e in s.committed ==> e.eventId in s.docs.processed
  {
    ReachableInv(s);
    forall c | c in s.clients && s.clients[c].pc.Synchronized? ensures IsProcessed(s, c) {
      assert ClientInOrder(s.docs, s.pid, s.clients[c]);
    }
  }

  /** The ordering gate cannot deadlock by itself: the smallest version not yet projected is allocated,
      and every client that waits with it passes. */
  lemma SmallestUnprojectedPasses(s: System)
    requires Reachable(s) && Last(s.docs) < Counter(s.docs)
    ensures exists x :: x in s.docs.reservations && s.docs.reservations[x] == Last(s.docs) + 1 && x !in s.docs.processed
    ensures forall c :: c in s.clients && s.clients[c].pc == Waiting(Last(s.docs) + 1) ==>
                          Take(s, WaitSeesPrior(c)).clients[c].pc == Publishing(Last(s.docs) + 1)
  {
    ReachableInv(s);
    assert HasReservation(s.docs, Last(s.docs) + 1);
  }

  /** The steps of an undisturbed retry, from the failed call to its SYNCHRONIZED result. */
  function RetryRun(c: nat, e: Event): seq<Action> {
    [Retry(c), CheckProcessed(c, false), AllocateVersion(c, false), WaitSeesPrior(c), Publish(c), WorkerApply(e),
     WorkerCommit, PollSeesProcessed(c)]
  }

  lemma {:induction false} RunsCompose(s: System, before: seq<Action>, acts: seq<Action>)
    ensures RunSystem(s, before + acts) == RunSystem(RunSystem(s, before), acts)
  {
    if acts == [] {
      assert before + acts == before;
    } else {
      RunsCompose(s, before, acts[..|acts|-1]);
      assert (before + acts)[..|before + acts|-1] == before + acts[..|acts|-1];
    }
  }

  lemma RunSystemSplit(s: System, act: Action, acts: seq<Action>)
    ensures RunSystem(s, [act] + acts) == RunSystem(Take(s, act), acts)
  {
    RunsCompose(s, [act], acts);
    RunOfOne(s, act);
  }

  lemma RunOfOne(s: System, act: Action)
    ensures RunSystem(s, [act]) == Take(s, act)
  {
    assert [act][..0] == [];
  }

  /** The client's half of the retry: it gets its version again, passes the gate and publishes. */
  lemma RetrySteps(s: System, c: nat, v: nat)
    requires Inv(s) && c in s.clients && v == Last(s.docs) + 1
    requires s.clients[c].pc.Unavailable? || s.clients[c].pc.Gone?
    requires IsReserved(s.docs, StableEventId(s.clients[c].authorization), v)
    ensures Take(s, Retry(c)) == Moved(s, c, Checking)
    ensures Take(Moved(s, c, Checking), CheckProcessed(c, false)) == Moved(s, c, Allocating)
    ensures Take(Moved(s, c, Allocating), AllocateVersion(c, false)) ==
            Moved(s, c, if v > 1 then Waiting(v) else Publishing(v))
  {
    assert !IsProcessed(s, c);
  }

  lemma PublishSteps(s: System, c: nat, v: nat)
    requires c in s.clients && v == Last(s.docs) + 1
    ensures var e := BuildCheckpointEvent(s.clients[c].authorization, v);
            && Take(Moved(s, c, if v > 1 then Waiting(v) else Publishing(v)), WaitSeesPrior(c)) == Moved(s, c, Publishing(v))
            && Take(Moved(s, c, Publishing(v)), Publish(c)) == Moved(s.(bus := s.bus + {e}), c, Polling(v))
  {
  }

  lemma RetryPublishes(s: System, c: nat)
    requires Inv(s) && c in s.clients
    requires s.clients[c].pc.Unavailable? || s.clients[c].pc.Gone?
    requires IsReserved(s.docs, StableEventId(s.clients[c].authorization), Last(s.docs) + 1)
    ensures var e := BuildCheckpointEvent(s.clients[c].authorization, Last(s.docs) + 1);
            RunSystem(s, RetryRun(c, e)) ==
            RunSystem(Moved(s.(bus := s.bus + {e}), c, Polling(e.version)),
                      [WorkerApply(e), WorkerCommit, PollSeesProcessed(c)])
  {
    var v := Last(s.docs) + 1;
    var e := BuildCheckpointEvent(s.clients[c].authorization, v);
    var run5 := [WorkerApply(e), WorkerCommit, PollSeesProcessed(c)];
    var run4 := [Publish(c)] + run5;
    var run3 := [WaitSeesPrior(c)] + run4;
    var run2 := [AllocateVersion(c, false)] + run3;
    var run1 := [CheckProcessed(c, false)] + run2;
    assert RetryRun(c, e) == [Retry(c)] + run1;
    RetrySteps(s, c, v);
    PublishSteps(s, c, v);
    RunSystemSplit(s, Retry(c), run1);
    RunSystemSplit(Moved(s, c, Checking), CheckProcessed(c, false), run2);
    RunSystemSplit(Moved(s, c, Allocating), AllocateVersion(c, false), run3);
    RunSystemSplit(Moved(s, c, if v > 1 then Waiting(v) else Publishing(v)), WaitSeesPrior(c), run4);
    RunSystemSplit(Moved(s, c, Publishing(v)), Publish(c), run5);
  }

  lemma DeliveryApplies(s: System, e: Event)
    requires s.worker.Idle? && e in s.bus && StoreVerdict(s.docs, e) == Applied
    ensures Take(s, WorkerApply(e)) == s.(docs := StoreStep(s.docs, e), worker := Handled(e), history := s.history + [e])
  {
  }

  lemma CommitStep(s: System, e: Event)
    requires s.worker == Handled(e)
    ensures Take(s, WorkerCommit) == s.(worker := Idle, committed := s.committed + {e})
  {
  }

  lemma PollStep(s: System, c: nat)
    requires c in s.clients && s.clients[c].pc.Polling? && IsProcessed(s, c)
    ensures Take(s, PollSeesProcessed(c)) == Moved(s, c, Synchronized)
  {
  }

  lemma AppliedIsProcessed(d: Docs, e: Event)
    requires StoreVerdict(d, e) == Applied
    ensures e.eventId in StoreStep(d, e).processed
  {
  }

  /** The worker's half: the message is applied and committed, and the polling client sees it. */
  lemma DeliveryCompletes(s: System, c: nat, e: Event)
    requires c in s.clients && s.clients[c].pc.Polling? && s.worker.Idle?
    requires e in s.bus && StoreVerdict(s.docs, e) == Applied && e.eventId == StableEventId(s.clients[c].authorization)
    ensures RunSystem(s, [WorkerApply(e), WorkerCommit, PollSeesProcessed(c)]) ==
            Moved(s.(docs := StoreStep(s.docs, e), history := s.history + [e], committed := s.committed + {e}), c,
                  Synchronized)
  {
    var s1 := s.(docs := StoreStep(s.docs, e), worker := Handled(e), history := s.history + [e]);
    var s2 := s1.(worker := Idle, committed := s.committed + {e});
    DeliveryApplies(s, e);
    CommitStep(s1, e);
    AppliedIsProcessed(s.docs, e);
    PollStep(s2, c);
    RunSystemSplit(s, WorkerApply(e), [WorkerCommit, PollSeesProcessed(c)]);
    RunSystemSplit(s1, WorkerCommit, [PollSeesProcessed(c)]);
    RunSystemSplit(s2, PollSeesProcessed(c), []);
    assert [WorkerApply(e), WorkerCommit, PollSeesProcessed(c)] == [WorkerApply(e)] + [WorkerCommit, PollSeesProcessed(c)];
    assert [WorkerCommit, PollSeesProcessed(c)] == [WorkerCommit] + [PollSeesProcessed(c)];
    assert [PollSeesProcessed(c)] == [PollSeesProcessed(c)] + [];
  }

  /** Whatever happened before, the failed holder of the smallest unprojected version gets through by
      retrying once, undisturbed: its checkpoint is applied next, committed, and reported. */
  lemma RetryGetsThrough(s: System, c: nat)
    requires Reachable(s) && s.worker.Idle? && c in s.clients
    requires s.clients[c].pc.Unavailable? || s.clients[c].pc.Gone?
    requires IsReserved(s.docs, StableEventId(s.clients[c].authorization), Last(s.docs) + 1)
    ensures var e := BuildCheckpointEvent(s.clients[c].authorization, Last(s.docs) + 1);
            var after := RunSystem(s, RetryRun(c, e));
            && c in after.clients && after.clients[c].pc == Synchronized
            && after.history == s.history + [e] && e in after.committed
  {
    ReachableInv(s);
    var e := BuildCheckpointEvent(s.clients[c].authorization, Last(s.docs) + 1);
    assert ClientInOrder(s.docs, s.pid, s.clients[c]);
    InFlightVerdict(s.docs, s.pid, e);
    RetryPublishes(s, c);
    DeliveryCompletes(Moved(s.(bus := s.bus + {e}), c, Polling(e.version)), c, e);
  }

  // ---------------------------------------------------------------- versions from elsewhere

  function DeliverAll(d: Docs, es: seq<Event>): Docs {
    if es == [] then d else StoreStep(DeliverAll(d, es[..|es|-1]), es[|es|-1])
  }

  /** Versions must come from the allocator: once the store has applied any version that is not below a
      checkpoint's own, an unprocessed checkpoint is dropped as stale whenever it is delivered. */
  lemma {:induction false} OvertakenCheckpointStaysStale(d: Docs, a: Authorization, v: nat, es: seq<Event>)
    requires v <= Last(d) && StableEventId(a) !in d.processed
    requires forall e :: e in es && e.eventId == StableEventId(a) ==> e == BuildCheckpointEvent(a, v)
    ensures StoreVerdict(DeliverAll(d, es), BuildCheckpointEvent(a, v)) == Stale
    ensures StableEventId(a) !in DeliverAll(d, es).processed && v <= Last(DeliverAll(d, es))
  {
    if es != [] {
      var before, last := es[..|es|-1], es[|es|-1];
      assert forall e :: e in before ==> e in es;
      assert last in es;
      OvertakenCheckpointStaysStale(d, a, v, before);
    }
  }

  lemma {:induction false} UndeliveredStaysUnprocessed(d: Docs, eid: string, es: seq<Event>)
    requires eid !in d.processed && forall e :: e in es ==> e.eventId != eid
    ensures eid !in DeliverAll(d, es).processed
  {
    if es != [] {
      var before := es[..|es|-1];
      assert forall e :: e in before ==> e in es;
      assert es[|es|-1] in es;
      UndeliveredStaysUnprocessed(d, eid, before);
    }
  }

  /** No delivery with the version `v` or a later one is applied when it comes. */
  ghost predicate NoneOvertakes(d: Docs, es: seq<Event>, v: nat) {
    es == [] ||
    var (before, e) := (es[..|es|-1], es[|es|-1]);
    NoneOvertakes(d, before, v) && (StoreVerdict(DeliverAll(d, before), e) == Applied ==> e.version < v)
  }

  lemma StepRaisesLast(d: Docs, e: Event)
    ensures Last(StoreStep(d, e)) == if StoreVerdict(d, e) == Applied then e.version else Last(d)
    ensures StoreVerdict(d, e) == Applied ==> Last(d) < e.version
  {
  }

  /** The last applied version stays below `v` exactly when it was and no applied delivery reaches `v`. */
  lemma {:induction false} LastBelowIff(d: Docs, es: seq<Event>, v: nat)
    ensures Last(DeliverAll(d, es)) < v <==> Last(d) < v && NoneOvertakes(d, es, v)
  {
    if es != [] {
      var before := es[..|es|-1];
      LastBelowIff(d, before, v);
      StepRaisesLast(DeliverAll(d, before), es[|es|-1]);
    }
  }

  /** The exact condition: after any deliveries of other events, a checkpoint not yet processed is applied when it is
      delivered exactly when its version was ahead at first and no applied delivery has reached it since, and is dropped as
      stale otherwise. */
  lemma AppliedUnlessOvertaken(d: Docs, a: Authorization, v: nat, es: seq<Event>)
    requires StableEventId(a) !in d.processed && forall e :: e in es ==> e.eventId != StableEventId(a)
    ensures var (now, e) := (DeliverAll(d, es), BuildCheckpointEvent(a, v));
            && (StoreVerdict(now, e) == Applied <==> Last(d) < v && NoneOvertakes(d, es, v))
            && (StoreVerdict(now, e) == Stale <==> v <= Last(d) || !NoneOvertakes(d, es, v))
            && (StoreVerdict(now, e) == Applied ==> Last(StoreStep(now, e)) == v && e.eventId in StoreStep(now, e).processed)
  {
    UndeliveredStaysUnprocessed(d, StableEventId(a), es);
    LastBelowIff(d, es, v);
  }
}
