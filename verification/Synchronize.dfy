/** One call of synchronize_release_checkpoint, loops and all. The call sees shared state only through the four accesses
    of `Shared`; before each of them others may act, and each may raise. */
module Synchronize {
  import opened Domain
  import opened Records
  import opened Projection
  import opened ProjectionStore
  import opened Checkpoint

  // ---------------------------------------------------------------- the environment

  /** What happens at one access: steps of others just before it, whether it raises, and, for a publish that raises,
      whether the message was delivered all the same. */
  datatype Moment = Moment(others: seq<Action>, raises: bool, delivered: bool)

  /** The `k`-th access of the call meets `moment(k)`; the numbers of rounds stand for the two deadlines. */
  datatype Environment = Environment(moment: nat -> Moment, waitRounds: nat, pollRounds: nat)

  datatype SyncResult = SYNCHRONIZED | UNAVAILABLE

  /** The documents and the bus, with the worker and the other clients. */
  class Shared {
    var s: System

    constructor (s: System)
      ensures this.s == s
    {
      this.s := s;
    }

    method Others(acts: seq<Action>)
      modifies this
      ensures s == RunSystem(old(s), acts)
    {
      for i := 0 to |acts|
        invariant s == RunSystem(old(s), acts[..i])
      {
        assert acts[..i+1][..i] == acts[..i];
        s := Take(s, acts[i]);
      }
      assert acts[..|acts|] == acts;
    }

    method HasProcessedEvent(eid: string) returns (b: bool)
      ensures b <==> eid in s.docs.processed
    {
      b := eid in s.docs.processed;
    }

    method GetLastAggregateVersion() returns (v: nat)
      ensures v == Last(s.docs)
    {
      v := Last(s.docs);
    }

    method AllocateAggregateVersion(eid: string) returns (v: nat)
      modifies this
      ensures v == AllocatedVersion(old(s).docs, eid)
      ensures s == old(s).(docs := AllocateStep(old(s).docs, eid))
    {
      v := AllocatedVersion(s.docs, eid);
      s := s.(docs := AllocateStep(s.docs, eid));
    }

    method Publish(event: Event)
      modifies this
      ensures s == old(s).(bus := old(s).bus + {event})
    {
      s := s.(bus := s.bus + {event});
    }
  }

  // ---------------------------------------------------------------- how far a call has come

  /** The shared state, where the call stands, the protocol steps taken so far by anyone, and the accesses made. */
  datatype Leg = Leg(s: System, pc: Pc, trace: seq<Action>, used: nat)

  function Interfered(l: Leg, e: Environment): Leg {
    var others := e.moment(l.used).others;
    Leg(RunSystem(l.s, others), l.pc, l.trace + others, l.used + 1)
  }

  function Stepped(l: Leg, act: Action, pc: Pc): Leg {
    l.(pc := pc, trace := l.trace + [act])
  }

  /** The read of the last applied version. */
  function PriorLeg(l: Leg, e: Environment, c: nat, v: nat): Leg {
    var prior := Interfered(l, e);
    if e.moment(l.used).raises then prior
    else Stepped(prior, WaitSeesPrior(c), if Last(prior.s.docs) >= v - 1 then Publishing(v) else Waiting(v))
  }

  /** One round of the ordering gate. */
  function WaitRoundLeg(l: Leg, e: Environment, c: nat, eid: string, v: nat): Leg {
    var read := Interfered(l, e);
    if e.moment(l.used).raises then read
    else if eid in read.s.docs.processed then Stepped(read, WaitSeesProcessed(c), Synchronized)
    else PriorLeg(Stepped(read, WaitSeesProcessed(c), Waiting(v)), e, c, v)
  }

  /** The state after `k` rounds of the gate that all left the call waiting, and one that may not have. */
  function WaitRounds(l: Leg, e: Environment, c: nat, eid: string, v: nat, k: nat): Leg {
    if k == 0 then l else WaitRoundLeg(WaitRounds(l, e, c, eid, v, k - 1), e, c, eid, v)
  }

  function PollRoundLeg(l: Leg, e: Environment, c: nat, eid: string, v: nat): Leg {
    var read := Interfered(l, e);
    if e.moment(l.used).raises then read
    else Stepped(read, PollSeesProcessed(c), if eid in read.s.docs.processed then Synchronized else Polling(v))
  }

  function PollRounds(l: Leg, e: Environment, c: nat, eid: string, v: nat, k: nat): Leg {
    if k == 0 then l else PollRoundLeg(PollRounds(l, e, c, eid, v, k - 1), e, c, eid, v)
  }

  /** The call is still waiting after each of the first `k` rounds. */
  ghost predicate WaitsThrough(l: Leg, e: Environment, c: nat, eid: string, v: nat, k: nat) {
    l.pc == Waiting(v) && (k == 0 || (WaitsThrough(l, e, c, eid, v, k - 1) && WaitRounds(l, e, c, eid, v, k).pc == Waiting(v)))
  }

  ghost predicate PollsThrough(l: Leg, e: Environment, c: nat, eid: string, v: nat, k: nat) {
    l.pc == Polling(v) && (k == 0 || (PollsThrough(l, e, c, eid, v, k - 1) && PollRounds(l, e, c, eid, v, k).pc == Polling(v)))
  }

  /** `after` comes of the gate by its round `k`: that round is the first to end the wait, or it is the final check after
      the deadline, no round has ended the wait, and the call times out. */
  ghost predicate GateEnds(l: Leg, after: Leg, e: Environment, c: nat, eid: string, v: nat, k: nat) {
    && 1 <= k <= e.waitRounds + 1
    && WaitsThrough(l, e, c, eid, v, k - 1)
    && var last := WaitRounds(l, e, c, eid, v, k);
       if last.pc == Waiting(v) then k == e.waitRounds + 1 && after == Stepped(last, TimeOut(c), Unavailable)
       else after == last
  }

  ghost predicate GateOutcome(l: Leg, after: Leg, e: Environment, c: nat, eid: string, v: nat) {
    exists k: nat :: GateEnds(l, after, e, c, eid, v, k)
  }

  ghost predicate PollEnds(l: Leg, after: Leg, e: Environment, c: nat, eid: string, v: nat, k: nat) {
    && 1 <= k <= e.pollRounds + 1
    && PollsThrough(l, e, c, eid, v, k - 1)
    && var last := PollRounds(l, e, c, eid, v, k);
       if last.pc == Polling(v) then k == e.pollRounds + 1 && after == Stepped(last, TimeOut(c), Unavailable)
       else after == last
  }

  ghost predicate PollOutcome(l: Leg, after: Leg, e: Environment, c: nat, eid: string, v: nat) {
    exists k: nat :: PollEnds(l, after, e, c, eid, v, k)
  }

  function CheckLeg(l: Leg, e: Environment, c: nat, eid: string): Leg {
    var read := Interfered(l, e);
    if e.moment(l.used).raises then Stepped(read, CheckProcessed(c, true), Allocating)
    else Stepped(read, CheckProcessed(c, false), if eid in read.s.docs.processed then Synchronized else Allocating)
  }

  function AllocateLeg(l: Leg, e: Environment, c: nat, eid: string): Leg {
    var there := Interfered(l, e);
    if e.moment(l.used).raises then Stepped(there, AllocateVersion(c, true), Unavailable)
    else
      var v := AllocatedVersion(there.s.docs, eid);
      Stepped(there.(s := there.s.(docs := AllocateStep(there.s.docs, eid))), AllocateVersion(c, false),
              if v > 1 then Waiting(v) else Publishing(v))
  }

  function PublishLeg(l: Leg, e: Environment, c: nat, a: Authorization, v: nat): Leg {
    var (there, m) := (Interfered(l, e), e.moment(l.used));
    var published := there.(s := there.s.(bus := there.s.bus + {BuildCheckpointEvent(a, v)}));
    if !m.raises then Stepped(published, Publish(c), Polling(v))
    else Stepped(if m.delivered then published else there, PublishRaises(c, m.delivered), Unavailable)
  }

  // ---------------------------------------------------------------- the call

  method Check(w: Shared, e: Environment, c: nat, a: Authorization, ghost l: Leg)
    returns (done: bool, ghost after: Leg)
    requires w.s == l.s && l.used == 0
    modifies w
    ensures after == CheckLeg(l, e, c, StableEventId(a)) && w.s == after.s
    ensures done <==> after.pc == Synchronized
  {
    var m := e.moment(0);
    w.Others(m.others);
    done := false;
    if !m.raises {
      done := w.HasProcessedEvent(StableEventId(a));
    }
    after := CheckLeg(l, e, c, StableEventId(a));
  }

  /** The version, or None when the allocation raised. */
  method AllocateVersionFor(w: Shared, e: Environment, c: nat, a: Authorization, ghost l: Leg)
    returns (version: Option<nat>, ghost after: Leg)
    requires w.s == l.s && l.used == 1
    modifies w
    ensures after == AllocateLeg(l, e, c, StableEventId(a)) && w.s == after.s
    ensures version == match after.pc
                       case Waiting(v) => Some(v)
                       case Publishing(v) => Some(v)
                       case _ => None
    ensures version.Some? ==> after.pc == if version.value > 1 then Waiting(version.value) else Publishing(version.value)
  {
    var m := e.moment(1);
    w.Others(m.others);
    version := None;
    if !m.raises {
      var v := w.AllocateAggregateVersion(StableEventId(a));
      version := Some(v);
    }
    after := AllocateLeg(l, e, c, StableEventId(a));
  }

  datatype Gate = StillWaiting | Passed | AlreadyDone | TimedOut

  function GatePc(g: Gate, v: nat): Pc {
    match g
    case StillWaiting => Waiting(v)
    case Passed => Publishing(v)
    case AlreadyDone => Synchronized
    case TimedOut => Unavailable
  }

  /** One round: a read that does not raise and finds the id ends the call; one that does not raise and finds every prior
      version applied opens the gate. */
  method WaitRound(w: Shared, e: Environment, used: nat, c: nat, a: Authorization, v: nat, ghost l: Leg)
    returns (g: Gate, used': nat, ghost after: Leg)
    requires w.s == l.s && used == l.used && l.pc == Waiting(v)
    modifies w
    ensures after == WaitRoundLeg(l, e, c, StableEventId(a), v) && w.s == after.s && used' == after.used
    ensures after.pc == GatePc(g, v) && g != TimedOut
  {
    after := WaitRoundLeg(l, e, c, StableEventId(a), v);
    g, used' := StillWaiting, used + 1;
    w.Others(e.moment(used).others);
    if e.moment(used).raises {
      return;
    }
    var processed := w.HasProcessedEvent(StableEventId(a));
    if processed {
      g := AlreadyDone;
      return;
    }
    w.Others(e.moment(used').others);
    if e.moment(used').raises {
      used' := used' + 1;
      return;
    }
    used' := used' + 1;
    var last := w.GetLastAggregateVersion();
    if last >= v - 1 {
      g := Passed;
    }
  }

  /** The ordering gate: rounds until the deadline, a final check, and otherwise a timeout. */
  method AwaitPrior(w: Shared, e: Environment, used: nat, c: nat, a: Authorization, v: nat, ghost l: Leg)
    returns (g: Gate, used': nat, ghost after: Leg)
    requires w.s == l.s && used == l.used && l.pc == Waiting(v)
    modifies w
    ensures GateOutcome(l, after, e, c, StableEventId(a), v)
    ensures w.s == after.s && used' == after.used && after.pc == GatePc(g, v) && g != StillWaiting
  {
    ghost var eid := StableEventId(a);
    g, used', after := StillWaiting, used, l;
    var i := 0;
    while i < e.waitRounds
      invariant 0 <= i <= e.waitRounds && g == StillWaiting
      invariant after == WaitRounds(l, e, c, eid, v, i) && w.s == after.s && used' == after.used
      invariant WaitsThrough(l, e, c, eid, v, i)
    {
      g, used', after := WaitRound(w, e, used', c, a, v, after);
      i := i + 1;
      if g != StillWaiting {
        assert GateEnds(l, after, e, c, eid, v, i);
        return;
      }
    }
    g, used', after := WaitRound(w, e, used', c, a, v, after);
    if g == StillWaiting {
      g := TimedOut;
      after := Stepped(after, TimeOut(c), Unavailable);
    }
    assert GateEnds(l, after, e, c, eid, v, e.waitRounds + 1);
  }

  method PollRound(w: Shared, e: Environment, used: nat, c: nat, a: Authorization, v: nat, ghost l: Leg)
    returns (found: bool, ghost after: Leg)
    requires w.s == l.s && used == l.used && l.pc == Polling(v)
    modifies w
    ensures after == PollRoundLeg(l, e, c, StableEventId(a), v) && w.s == after.s && after.used == used + 1
    ensures after.pc == if found then Synchronized else Polling(v)
  {
    after := PollRoundLeg(l, e, c, StableEventId(a), v);
    found := false;
    w.Others(e.moment(used).others);
    if !e.moment(used).raises {
      found := w.HasProcessedEvent(StableEventId(a));
    }
  }

  /** Poll until the event is projected, with a final check after the deadline. */
  method AwaitProjection(w: Shared, e: Environment, used: nat, c: nat, a: Authorization, v: nat, ghost l: Leg)
    returns (found: bool, ghost after: Leg)
    requires w.s == l.s && used == l.used && l.pc == Polling(v)
    modifies w
    ensures PollOutcome(l, after, e, c, StableEventId(a), v)
    ensures w.s == after.s && after.pc == if found then Synchronized else Unavailable
  {
    ghost var eid := StableEventId(a);
    found, after := false, l;
    var i := 0;
    while i < e.pollRounds
      invariant 0 <= i <= e.pollRounds && !found
      invariant after == PollRounds(l, e, c, eid, v, i) && w.s == after.s && after.used == used + i
      invariant PollsThrough(l, e, c, eid, v, i)
    {
      found, after := PollRound(w, e, used + i, c, a, v, after);
      i := i + 1;
      if found {
        assert PollEnds(l, after, e, c, eid, v, i);
        return;
      }
    }
    found, after := PollRound(w, e, used + i, c, a, v, after);
    if !found {
      after := Stepped(after, TimeOut(c), Unavailable);
    }
    assert PollEnds(l, after, e, c, eid, v, e.pollRounds + 1);
  }

  /** The event is built once and published at most once. */
  method PublishOnce(w: Shared, e: Environment, used: nat, c: nat, a: Authorization, v: nat, ghost l: Leg)
    returns (ok: bool, ghost after: Leg)
    requires w.s == l.s && used == l.used && l.pc == Publishing(v)
    modifies w
    ensures after == PublishLeg(l, e, c, a, v) && w.s == after.s && after.used == used + 1
    ensures after.pc == if ok then Polling(v) else Unavailable
  {
    var m := e.moment(used);
    var event := BuildCheckpointEvent(a, v);
    w.Others(m.others);
    if !m.raises || m.delivered {
      w.Publish(event);
    }
    ok := !m.raises;
    after := PublishLeg(l, e, c, a, v);
  }

  /** The legs of a whole call: the check, the allocation, the gate when the version is not the first, the publication and
      the polling, each only when the one before it leads there. */
  datatype Legs = Legs(start: Leg, checked: Leg, reserved: Leg, gated: Leg, published: Leg, end: Leg)

  ghost predicate CallLegs(ls: Legs, s: System, e: Environment, c: nat, a: Authorization) {
    var eid := StableEventId(a);
    && ls.start == Leg(s, Checking, [], 0)
    && ls.checked == CheckLeg(ls.start, e, c, eid)
    && ls.reserved == (if ls.checked.pc == Synchronized then ls.checked else AllocateLeg(ls.checked, e, c, eid))
    && (if ls.reserved.pc.Waiting? then GateOutcome(ls.reserved, ls.gated, e, c, eid, ls.reserved.pc.version)
        else ls.gated == ls.reserved)
    && ls.published == (if ls.gated.pc.Publishing? then PublishLeg(ls.gated, e, c, a, ls.gated.pc.version) else ls.gated)
    && (if ls.published.pc.Polling? then PollOutcome(ls.published, ls.end, e, c, eid, ls.published.pc.version)
        else ls.end == ls.published)
  }

  /** The whole call. */
  method SynchronizeReleaseCheckpoint(w: Shared, e: Environment, c: nat, a: Authorization)
    returns (r: SyncResult, ghost ls: Legs)
    modifies w
    ensures CallLegs(ls, old(w.s), e, c, a) && w.s == ls.end.s
    ensures ls.end.pc == if r == SYNCHRONIZED then Synchronized else Unavailable
  {
    ghost var start := Leg(w.s, Checking, [], 0);
    var done;
    ghost var checked;
    done, checked := Check(w, e, c, a, start);
    if done {
      return SYNCHRONIZED, Legs(start, checked, checked, checked, checked, checked);
    }
    var version;
    ghost var reserved;
    version, reserved := AllocateVersionFor(w, e, c, a, checked);
    if version.None? {
      return UNAVAILABLE, Legs(start, checked, reserved, reserved, reserved, reserved);
    }
    var v, used := version.value, 2;
    ghost var gated := reserved;
    if v > 1 {
      var g;
      g, used, gated := AwaitPrior(w, e, used, c, a, v, reserved);
      if g == AlreadyDone {
        return SYNCHRONIZED, Legs(start, checked, reserved, gated, gated, gated);
      }
      if g == TimedOut {
        return UNAVAILABLE, Legs(start, checked, reserved, gated, gated, gated);
      }
    }
    var ok;
    ghost var published;
    ok, published := PublishOnce(w, e, used, c, a, v, gated);
    if !ok {
      return UNAVAILABLE, Legs(start, checked, reserved, gated, published, published);
    }
    var found;
    ghost var end;
    found, end := AwaitProjection(w, e, used + 1, c, a, v, published);
    return if found then SYNCHRONIZED else UNAVAILABLE, Legs(start, checked, reserved, gated, published, end);
  }
}
