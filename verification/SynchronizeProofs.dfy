/** What every call of synchronize_release_checkpoint does, whatever its environment. */
module SynchronizeProofs {
  import opened Records
  import opened ProjectionStore
  import opened Checkpoint
  import opened CheckpointProofs
  import opened Synchronize

  // ---------------------------------------------------------------- the caller and the others

  /** A step of the worker or of another client. */
  predicate Foreign(act: Action, c: nat) {
    act.WorkerApply? || act.WorkerCommit? || act.WorkerCrash? || act.c != c
  }

  predicate AllForeign(acts: seq<Action>, c: nat) {
    forall i :: 0 <= i < |acts| ==> Foreign(acts[i], c)
  }

  ghost predicate ForeignEnvironment(e: Environment, c: nat) {
    forall k: nat :: AllForeign(e.moment(k).others, c)
  }

  /** The shared state together with the caller as client `c`. */
  function With(s: System, c: nat, a: Authorization, pc: Pc): System {
    s.(clients := s.clients[c := Client(a, pc)])
  }

  lemma MovedCommutes(s: System, c: nat, a: Authorization, pc: Pc, d: nat, q: Pc)
    requires d != c && d in s.clients && c !in s.clients
    ensures Moved(With(s, c, a, pc), d, q) == With(Moved(s, d, q), c, a, pc) && c !in Moved(s, d, q).clients
  {
  }

  lemma OtherClientCommutes(s: System, c: nat, a: Authorization, pc: Pc, act: Action, d: nat)
    requires d != c && d in s.clients && c !in s.clients
    ensures ClientStep(With(s, c, a, pc), act, d) == With(ClientStep(s, act, d), c, a, pc)
    ensures c !in ClientStep(s, act, d).clients
  {
    var t := With(s, c, a, pc);
    if act.AllocateVersion? {
      var after := s.(docs := AllocateStep(s.docs, StableEventId(s.clients[d].authorization)));
      var v := AllocatedVersion(s.docs, StableEventId(s.clients[d].authorization));
      MovedCommutes(s, c, a, pc, d, Unavailable);
      MovedCommutes(after, c, a, pc, d, if v > 1 then Waiting(v) else Publishing(v));
    } else if act.Publish? {
      if s.clients[d].pc.Publishing? {
        MovedCommutes(Published(s, d), c, a, pc, d, Polling(s.clients[d].pc.version));
      }
    } else if act.PublishRaises? {
      if s.clients[d].pc.Publishing? {
        MovedCommutes(if act.delivered then Published(s, d) else s, c, a, pc, d, Unavailable);
      }
    } else {
      MovedCommutes(s, c, a, pc, d, NextPc(s, act, d));
    }
  }

  lemma WorkerStepCommutes(s: System, c: nat, a: Authorization, pc: Pc, act: Action)
    requires c !in s.clients
    ensures WorkerStep(With(s, c, a, pc), act) == With(WorkerStep(s, act), c, a, pc) && c !in WorkerStep(s, act).clients
  {
  }

  lemma JoinCommutes(s: System, c: nat, a: Authorization, pc: Pc, act: Action)
    requires act.Join? && act.c != c && c !in s.clients
    ensures Take(With(s, c, a, pc), act) == With(Take(s, act), c, a, pc) && c !in Take(s, act).clients
  {
    assert s.clients[c := Client(a, pc)][act.c := Client(act.a, Checking)]
        == s.clients[act.c := Client(act.a, Checking)][c := Client(a, pc)];
  }

  /** The steps of others do not see the caller. */
  lemma ForeignStepCommutes(s: System, c: nat, a: Authorization, pc: Pc, act: Action)
    requires Foreign(act, c) && c !in s.clients
    ensures Take(With(s, c, a, pc), act) == With(Take(s, act), c, a, pc) && c !in Take(s, act).clients
  {
    if act.Join? {
      JoinCommutes(s, c, a, pc, act);
    } else if act.WorkerApply? || act.WorkerCommit? || act.WorkerCrash? {
      WorkerStepCommutes(s, c, a, pc, act);
    } else if act.c in s.clients {
      OtherClientCommutes(s, c, a, pc, act, act.c);
    }
  }

  lemma {:induction false} ForeignRunCommutes(s: System, c: nat, a: Authorization, pc: Pc, acts: seq<Action>)
    requires AllForeign(acts, c) && c !in s.clients
    ensures RunSystem(With(s, c, a, pc), acts) == With(RunSystem(s, acts), c, a, pc) && c !in RunSystem(s, acts).clients
  {
    if acts != [] {
      var before := acts[..|acts|-1];
      ForeignRunCommutes(s, c, a, pc, before);
      ForeignStepCommutes(RunSystem(s, before), c, a, pc, acts[|acts|-1]);
    }
  }

  lemma OneMore(s: System, before: seq<Action>, act: Action)
    ensures RunSystem(s, before + [act]) == Take(RunSystem(s, before), act)
  {
    assert (before + [act])[..|before|] == before;
  }

  // ---------------------------------------------------------------- what a trace shows

  function Foreigns(trace: seq<Action>, c: nat): seq<Action> {
    if trace == [] then []
    else Foreigns(trace[..|trace|-1], c) + if Foreign(trace[|trace|-1], c) then [trace[|trace|-1]] else []
  }

  function Owns(trace: seq<Action>, c: nat): seq<Action> {
    if trace == [] then []
    else Owns(trace[..|trace|-1], c) + if Foreign(trace[|trace|-1], c) then [] else [trace[|trace|-1]]
  }

  /** The interference of the first `n` accesses. */
  function Interference(e: Environment, n: nat): seq<Action> {
    if n == 0 then [] else Interference(e, n - 1) + e.moment(n - 1).others
  }

  /** The place of a step in the program text. */
  function Rank(act: Action): nat {
    match act
    case CheckProcessed(_, _) => 0
    case AllocateVersion(_, _) => 1
    case WaitSeesProcessed(_) => 2
    case WaitSeesPrior(_) => 2
    case Publish(_) => 3
    case PublishRaises(_, _) => 3
    case PollSeesProcessed(_) => 4
    case _ => 5
  }

  predicate InLoop(act: Action) {
    Rank(act) == 2 || Rank(act) == 4
  }

  /** Steps in the order of the program text; only those of the two loops are repeated. */
  ghost predicate InProgramOrder(os: seq<Action>) {
    forall i, j :: 0 <= i < j < |os| ==> Rank(os[i]) <= Rank(os[j]) && (Rank(os[i]) == Rank(os[j]) ==> InLoop(os[i]))
  }

  ghost predicate UpTo(os: seq<Action>, r: nat) {
    forall i :: 0 <= i < |os| ==> Rank(os[i]) <= r
  }

  predicate Publishes(act: Action, c: nat) {
    (act.Publish? || act.PublishRaises?) && act.c == c
  }

  /** At most one step, raising or not, that publishes. */
  ghost predicate PublishesOnce(os: seq<Action>, c: nat) {
    forall i, j :: 0 <= i < j < |os| ==> !(Publishes(os[i], c) && Publishes(os[j], c))
  }

  lemma OrderPublishesOnce(os: seq<Action>, c: nat)
    requires InProgramOrder(os)
    ensures PublishesOnce(os, c)
  {
    forall i, j | 0 <= i < j < |os| ensures !(Publishes(os[i], c) && Publishes(os[j], c)) {
      assert Rank(os[i]) <= Rank(os[j]) && (Rank(os[i]) == Rank(os[j]) ==> InLoop(os[i]));
    }
  }

  /** A read of the processed document that did not raise. */
  predicate Reads(act: Action, c: nat) {
    act == CheckProcessed(c, false) || act == WaitSeesProcessed(c) || act == PollSeesProcessed(c)
  }

  /** The step at `k` of the run is a read that found the id. */
  ghost predicate FindsAt(start: System, trace: seq<Action>, c: nat, eid: string, k: int) {
    0 <= k < |trace| && Reads(trace[k], c) && eid in RunSystem(start, trace[..k]).docs.processed
  }

  ghost predicate Finds(start: System, trace: seq<Action>, c: nat, eid: string) {
    exists k :: FindsAt(start, trace, c, eid, k)
  }

  /** At `j` the call learns that every version before `v` is applied, or allocates the first version. */
  ghost predicate Clears(start: System, trace: seq<Action>, c: nat, v: nat, j: int) {
    && 0 <= j < |trace|
    && (|| (trace[j] == WaitSeesPrior(c) && Last(RunSystem(start, trace[..j]).docs) >= v - 1)
        || (trace[j] == AllocateVersion(c, false) && v <= 1))
  }

  ghost predicate Cleared(start: System, trace: seq<Action>, c: nat, v: nat) {
    exists j :: Clears(start, trace, c, v, j)
  }

  /** A publication at `k` carries a version whose predecessors were seen applied before. */
  ghost predicate PublishesCleared(start: System, trace: seq<Action>, c: nat, k: int)
    requires 0 <= k < |trace|
  {
    var before := RunSystem(start, trace[..k]);
    && c in before.clients && before.clients[c].pc.Publishing?
    && Cleared(start, trace[..k], c, before.clients[c].pc.version)
  }

  ghost predicate NeverOvertakes(start: System, trace: seq<Action>, c: nat) {
    forall k :: 0 <= k < |trace| && Publishes(trace[k], c) ==> PublishesCleared(start, trace, c, k)
  }

  // ---------------------------------------------------------------- what every leg keeps

  /** The leg is a run of the protocol in which the caller's steps end at `pc`. */
  ghost predicate IsRun(s: System, c: nat, a: Authorization, l: Leg) {
    c !in l.s.clients && With(l.s, c, a, l.pc) == RunSystem(With(s, c, a, Checking), l.trace)
  }

  ghost predicate Reports(s: System, c: nat, a: Authorization, l: Leg) {
    l.pc == Synchronized <==> Finds(With(s, c, a, Checking), l.trace, c, StableEventId(a))
  }

  ghost predicate Gated(s: System, c: nat, a: Authorization, l: Leg) {
    && NeverOvertakes(With(s, c, a, Checking), l.trace, c)
    && (l.pc.Publishing? ==> Cleared(With(s, c, a, Checking), l.trace, c, l.pc.version))
  }

  ghost predicate Ordered(c: nat, l: Leg, r: nat) {
    InProgramOrder(Owns(l.trace, c)) && UpTo(Owns(l.trace, c), r)
  }

  /** `r` bounds the places in the program that the call has reached. */
  ghost predicate Sound(s: System, e: Environment, c: nat, a: Authorization, l: Leg, r: nat) {
    && IsRun(s, c, a, l)
    && Foreigns(l.trace, c) == Interference(e, l.used)
    && Ordered(c, l, r)
    && Reports(s, c, a, l)
    && Gated(s, c, a, l)
  }

  lemma {:induction false} ForeignsOfAppend(t: seq<Action>, acts: seq<Action>, c: nat)
    requires AllForeign(acts, c)
    ensures Foreigns(t + acts, c) == Foreigns(t, c) + acts && Owns(t + acts, c) == Owns(t, c)
  {
    if acts == [] {
      assert t + acts == t;
    } else {
      ForeignsOfAppend(t, acts[..|acts|-1], c);
      assert (t + acts)[..|t + acts|-1] == t + acts[..|acts|-1];
    }
  }

  lemma OwnsOfStep(t: seq<Action>, act: Action, c: nat)
    requires !Foreign(act, c)
    ensures Owns(t + [act], c) == Owns(t, c) + [act] && Foreigns(t + [act], c) == Foreigns(t, c)
  {
    assert (t + [act])[..|t|] == t;
  }

  lemma FindsStays(start: System, t: seq<Action>, more: seq<Action>, c: nat, eid: string, k: int)
    requires 0 <= k < |t|
    ensures FindsAt(start, t + more, c, eid, k) <==> FindsAt(start, t, c, eid, k)
  {
    assert (t + more)[..k] == t[..k];
  }

  lemma ForeignFindsNothing(start: System, t: seq<Action>, acts: seq<Action>, c: nat, eid: string)
    requires AllForeign(acts, c)
    ensures Finds(start, t + acts, c, eid) <==> Finds(start, t, c, eid)
  {
    forall k | 0 <= k < |t + acts| ensures FindsAt(start, t + acts, c, eid, k) <==> k < |t| && FindsAt(start, t, c, eid, k) {
      if k < |t| {
        FindsStays(start, t, acts, c, eid, k);
      } else {
        assert Foreign(acts[k - |t|], c);
      }
    }
  }

  lemma StepFinds(start: System, t: seq<Action>, act: Action, c: nat, eid: string)
    ensures Finds(start, t + [act], c, eid) <==>
            Finds(start, t, c, eid) || (Reads(act, c) && eid in RunSystem(start, t).docs.processed)
  {
    var all := t + [act];
    forall k | 0 <= k < |t| ensures FindsAt(start, all, c, eid, k) <==> FindsAt(start, t, c, eid, k) {
      FindsStays(start, t, [act], c, eid, k);
    }
    assert all[..|t|] == t;
    assert FindsAt(start, all, c, eid, |t|) <==> Reads(act, c) && eid in RunSystem(start, t).docs.processed;
  }

  lemma ClearedStays(start: System, t: seq<Action>, more: seq<Action>, c: nat, v: nat)
    requires Cleared(start, t, c, v)
    ensures Cleared(start, t + more, c, v)
  {
    var j :| Clears(start, t, c, v, j);
    assert (t + more)[..j] == t[..j];
    assert Clears(start, t + more, c, v, j);
  }

  lemma PublicationStays(start: System, t: seq<Action>, more: seq<Action>, c: nat, k: int)
    requires 0 <= k < |t|
    ensures PublishesCleared(start, t + more, c, k) <==> PublishesCleared(start, t, c, k)
  {
    assert (t + more)[..k] == t[..k];
  }

  lemma NeverOvertakesMore(start: System, t: seq<Action>, more: seq<Action>, c: nat)
    requires NeverOvertakes(start, t, c)
    requires forall i :: 0 <= i < |more| ==> !Publishes(more[i], c)
    ensures NeverOvertakes(start, t + more, c)
  {
    forall k | 0 <= k < |t + more| && Publishes((t + more)[k], c) ensures PublishesCleared(start, t + more, c, k) {
      PublicationStays(start, t, more, c, k);
    }
  }

  lemma PublicationIsCleared(start: System, t: seq<Action>, act: Action, c: nat)
    requires NeverOvertakes(start, t, c)
    requires var now := RunSystem(start, t);
             c in now.clients && now.clients[c].pc.Publishing? && Cleared(start, t, c, now.clients[c].pc.version)
    ensures NeverOvertakes(start, t + [act], c)
  {
    var all := t + [act];
    forall k | 0 <= k < |all| && Publishes(all[k], c) ensures PublishesCleared(start, all, c, k) {
      if k < |t| {
        PublicationStays(start, t, [act], c, k);
      } else {
        assert all[..k] == t;
      }
    }
  }

  lemma OrderGrows(os: seq<Action>, act: Action, r: nat)
    requires InProgramOrder(os) && UpTo(os, r) && r <= Rank(act)
    requires r == Rank(act) ==> InLoop(act)
    ensures InProgramOrder(os + [act]) && UpTo(os + [act], Rank(act))
  {
  }

  lemma InterferenceIsRun(s: System, c: nat, a: Authorization, l: Leg, e: Environment)
    requires IsRun(s, c, a, l) && ForeignEnvironment(e, c)
    ensures IsRun(s, c, a, Interfered(l, e))
  {
    var others := e.moment(l.used).others;
    ForeignRunCommutes(l.s, c, a, l.pc, others);
    RunsCompose(With(s, c, a, Checking), l.trace, others);
  }

  lemma InterferenceKeepsGated(s: System, c: nat, a: Authorization, l: Leg, e: Environment)
    requires Gated(s, c, a, l) && ForeignEnvironment(e, c)
    ensures Gated(s, c, a, Interfered(l, e))
  {
    var (start, others) := (With(s, c, a, Checking), e.moment(l.used).others);
    assert AllForeign(others, c);
    NeverOvertakesMore(start, l.trace, others, c);
    if l.pc.Publishing? {
      ClearedStays(start, l.trace, others, c, l.pc.version);
    }
  }

  lemma InterferenceKeeps(s: System, e: Environment, c: nat, a: Authorization, l: Leg, r: nat)
    requires Sound(s, e, c, a, l, r) && ForeignEnvironment(e, c)
    ensures Sound(s, e, c, a, Interfered(l, e), r)
  {
    var others := e.moment(l.used).others;
    InterferenceIsRun(s, c, a, l, e);
    ForeignsOfAppend(l.trace, others, c);
    ForeignFindsNothing(With(s, c, a, Checking), l.trace, others, c, StableEventId(a));
    InterferenceKeepsGated(s, c, a, l, e);
  }

  /** What a step of the caller must meet. */
  ghost predicate FitsStep(l: Leg, act: Action, s': System, pc: Pc, c: nat, a: Authorization, r: nat) {
    && !Foreign(act, c) && c !in s'.clients
    && Take(With(l.s, c, a, l.pc), act) == With(s', c, a, pc)
    && r <= Rank(act) && (r == Rank(act) ==> InLoop(act))
    && l.pc != Synchronized
    && (pc == Synchronized <==> Reads(act, c) && StableEventId(a) in l.s.docs.processed)
    && (Publishes(act, c) ==> l.pc.Publishing?)
    && (pc.Publishing? ==>
          || (act == WaitSeesPrior(c) && Last(l.s.docs) >= pc.version - 1)
          || (act == AllocateVersion(c, false) && pc.version <= 1))
  }

  lemma StepKeepsGated(s: System, e: Environment, c: nat, a: Authorization, l: Leg, r: nat, act: Action, s': System, pc: Pc)
    requires Sound(s, e, c, a, l, r) && FitsStep(l, act, s', pc, c, a, r)
    ensures Gated(s, c, a, Stepped(l.(s := s'), act, pc))
  {
    var start := With(s, c, a, Checking);
    if Publishes(act, c) {
      PublicationIsCleared(start, l.trace, act, c);
    } else {
      NeverOvertakesMore(start, l.trace, [act], c);
    }
    if pc.Publishing? {
      assert (l.trace + [act])[..|l.trace|] == l.trace;
      assert Clears(start, l.trace + [act], c, pc.version, |l.trace|);
    }
  }

  lemma StepIsRun(s: System, c: nat, a: Authorization, l: Leg, act: Action, s': System, pc: Pc)
    requires IsRun(s, c, a, l) && c !in s'.clients && Take(With(l.s, c, a, l.pc), act) == With(s', c, a, pc)
    ensures IsRun(s, c, a, Stepped(l.(s := s'), act, pc))
  {
    OneMore(With(s, c, a, Checking), l.trace, act);
  }

  lemma StepReports(s: System, c: nat, a: Authorization, l: Leg, act: Action, s': System, pc: Pc)
    requires IsRun(s, c, a, l) && Reports(s, c, a, l) && l.pc != Synchronized
    requires pc == Synchronized <==> Reads(act, c) && StableEventId(a) in l.s.docs.processed
    ensures Reports(s, c, a, Stepped(l.(s := s'), act, pc))
  {
    StepFinds(With(s, c, a, Checking), l.trace, act, c, StableEventId(a));
  }

  lemma StepIsOrdered(c: nat, l: Leg, r: nat, act: Action, s': System, pc: Pc)
    requires Ordered(c, l, r) && !Foreign(act, c) && r <= Rank(act) && (r == Rank(act) ==> InLoop(act))
    ensures Ordered(c, Stepped(l.(s := s'), act, pc), Rank(act))
  {
    OwnsOfStep(l.trace, act, c);
    OrderGrows(Owns(l.trace, c), act, r);
  }

  lemma StepKeeps(s: System, e: Environment, c: nat, a: Authorization, l: Leg, r: nat, act: Action, s': System, pc: Pc)
    requires Sound(s, e, c, a, l, r) && FitsStep(l, act, s', pc, c, a, r)
    ensures Sound(s, e, c, a, Stepped(l.(s := s'), act, pc), Rank(act))
  {
    StepIsRun(s, c, a, l, act, s', pc);
    OwnsOfStep(l.trace, act, c);
    StepIsOrdered(c, l, r, act, s', pc);
    StepReports(s, c, a, l, act, s', pc);
    StepKeepsGated(s, e, c, a, l, r, act, s', pc);
  }

  // ---------------------------------------------------------------- the legs of a call

  lemma Enters(s: System, c: nat, a: Authorization, q: Pc, act: Action, s': System, pc: Pc)
    requires act.CheckProcessed? || act.WaitSeesProcessed? || act.WaitSeesPrior? || act.PollSeesProcessed? || act.TimeOut?
    requires act.c == c && c !in s.clients && s' == s && pc == NextPc(With(s, c, a, q), act, c)
    ensures Take(With(s, c, a, q), act) == With(s', c, a, pc)
  {
    assert s.clients[c := Client(a, q)][c := Client(a, pc)] == s.clients[c := Client(a, pc)];
  }

  lemma FirstStepIsOrdered(c: nat, l: Leg, act: Action, pc: Pc)
    requires Owns(l.trace, c) == [] && !Foreign(act, c) && Rank(act) == 0
    ensures Ordered(c, Stepped(l, act, pc), 0)
  {
    OwnsOfStep(l.trace, act, c);
    assert [] + [act] == [act];
  }

  lemma FirstStepIsGated(s: System, c: nat, a: Authorization, l: Leg, act: Action, pc: Pc)
    requires Gated(s, c, a, l) && !Publishes(act, c) && !pc.Publishing?
    ensures Gated(s, c, a, Stepped(l, act, pc))
  {
    NeverOvertakesMore(With(s, c, a, Checking), l.trace, [act], c);
  }

  /** The first step has no predecessor to be ordered after. */
  lemma FirstStepKeeps(s: System, e: Environment, c: nat, a: Authorization, l: Leg, act: Action, pc: Pc)
    requires Sound(s, e, c, a, l, 0) && Owns(l.trace, c) == [] && act.CheckProcessed? && act.c == c
    requires Take(With(l.s, c, a, l.pc), act) == With(l.s, c, a, pc) && l.pc == Checking
    requires pc in {Synchronized, Allocating} && (pc == Synchronized <==> Reads(act, c) && StableEventId(a) in l.s.docs.processed)
    ensures Sound(s, e, c, a, Stepped(l, act, pc), 0)
  {
    assert l.(s := l.s) == l;
    StepIsRun(s, c, a, l, act, l.s, pc);
    OwnsOfStep(l.trace, act, c);
    FirstStepIsOrdered(c, l, act, pc);
    StepReports(s, c, a, l, act, l.s, pc);
    FirstStepIsGated(s, c, a, l, act, pc);
  }

  lemma InterferenceOwnsNothing(l: Leg, e: Environment, c: nat)
    requires ForeignEnvironment(e, c)
    ensures Owns(Interfered(l, e).trace, c) == Owns(l.trace, c)
  {
    ForeignsOfAppend(l.trace, e.moment(l.used).others, c);
  }

  lemma CheckReadKeeps(s: System, e: Environment, c: nat, a: Authorization, there: Leg, raises: bool)
    requires Sound(s, e, c, a, there, 0) && there.pc == Checking && Owns(there.trace, c) == []
    ensures Sound(s, e, c, a, Stepped(there, CheckProcessed(c, raises),
                                      if !raises && StableEventId(a) in there.s.docs.processed then Synchronized
                                      else Allocating), 0)
  {
    var pc := if !raises && StableEventId(a) in there.s.docs.processed then Synchronized else Allocating;
    Enters(there.s, c, a, Checking, CheckProcessed(c, raises), there.s, pc);
    FirstStepKeeps(s, e, c, a, there, CheckProcessed(c, raises), pc);
  }

  lemma CheckKeeps(s: System, e: Environment, c: nat, a: Authorization, l: Leg)
    requires Sound(s, e, c, a, l, 0) && l.pc == Checking && Owns(l.trace, c) == [] && ForeignEnvironment(e, c)
    ensures Sound(s, e, c, a, CheckLeg(l, e, c, StableEventId(a)), 0)
  {
    InterferenceKeeps(s, e, c, a, l, 0);
    InterferenceOwnsNothing(l, e, c);
    CheckReadKeeps(s, e, c, a, Interfered(l, e), e.moment(l.used).raises);
  }

  lemma AllocationEnters(s: System, c: nat, a: Authorization, fails: bool)
    requires c !in s.clients
    ensures var v := AllocatedVersion(s.docs, StableEventId(a));
            Take(With(s, c, a, Allocating), AllocateVersion(c, fails)) ==
              if fails then With(s, c, a, Unavailable)
              else With(s.(docs := AllocateStep(s.docs, StableEventId(a))), c, a, if v > 1 then Waiting(v) else Publishing(v))
  {
    forall q {:trigger Client(a, q)} ensures s.clients[c := Client(a, Allocating)][c := Client(a, q)] == s.clients[c := Client(a, q)] {
    }
  }

  lemma AllocateKeeps(s: System, e: Environment, c: nat, a: Authorization, l: Leg)
    requires Sound(s, e, c, a, l, 0) && l.pc == Allocating && ForeignEnvironment(e, c)
    ensures Sound(s, e, c, a, AllocateLeg(l, e, c, StableEventId(a)), 1)
  {
    InterferenceKeeps(s, e, c, a, l, 0);
    var there := Interfered(l, e);
    var raises := e.moment(l.used).raises;
    AllocationEnters(there.s, c, a, raises);
    if raises {
      StepKeeps(s, e, c, a, there, 0, AllocateVersion(c, true), there.s, Unavailable);
    } else {
      var v := AllocatedVersion(there.s.docs, StableEventId(a));
      StepKeeps(s, e, c, a, there, 0, AllocateVersion(c, false),
                there.s.(docs := AllocateStep(there.s.docs, StableEventId(a))), if v > 1 then Waiting(v) else Publishing(v));
    }
  }

  lemma SoundUpTo(s: System, e: Environment, c: nat, a: Authorization, l: Leg, r: nat, r': nat)
    requires Sound(s, e, c, a, l, r) && r <= r'
    ensures Sound(s, e, c, a, l, r')
  {
  }

  lemma WaitReadKeeps(s: System, e: Environment, c: nat, a: Authorization, read: Leg, v: nat, pc: Pc)
    requires Sound(s, e, c, a, read, 2) && read.pc == Waiting(v)
    requires pc == if StableEventId(a) in read.s.docs.processed then Synchronized else Waiting(v)
    ensures Sound(s, e, c, a, Stepped(read, WaitSeesProcessed(c), pc), 2)
  {
    Enters(read.s, c, a, Waiting(v), WaitSeesProcessed(c), read.s, pc);
    StepKeeps(s, e, c, a, read, 2, WaitSeesProcessed(c), read.s, pc);
  }

  lemma PriorReadKeeps(s: System, e: Environment, c: nat, a: Authorization, prior: Leg, v: nat)
    requires Sound(s, e, c, a, prior, 2) && prior.pc == Waiting(v)
    ensures Sound(s, e, c, a, Stepped(prior, WaitSeesPrior(c),
                                      if Last(prior.s.docs) >= v - 1 then Publishing(v) else Waiting(v)), 2)
  {
    var pc := if Last(prior.s.docs) >= v - 1 then Publishing(v) else Waiting(v);
    Enters(prior.s, c, a, Waiting(v), WaitSeesPrior(c), prior.s, pc);
    StepKeeps(s, e, c, a, prior, 2, WaitSeesPrior(c), prior.s, pc);
  }

  lemma PriorLegKeeps(s: System, e: Environment, c: nat, a: Authorization, l: Leg, v: nat)
    requires Sound(s, e, c, a, l, 2) && l.pc == Waiting(v) && ForeignEnvironment(e, c)
    ensures Sound(s, e, c, a, PriorLeg(l, e, c, v), 2)
  {
    InterferenceKeeps(s, e, c, a, l, 2);
    if !e.moment(l.used).raises {
      PriorReadKeeps(s, e, c, a, Interfered(l, e), v);
    }
  }

  /** The round after a read that did not raise. */
  lemma WaitedKeeps(s: System, e: Environment, c: nat, a: Authorization, read: Leg, v: nat)
    requires Sound(s, e, c, a, read, 2) && read.pc == Waiting(v) && ForeignEnvironment(e, c)
    ensures Sound(s, e, c, a, if StableEventId(a) in read.s.docs.processed
                              then Stepped(read, WaitSeesProcessed(c), Synchronized)
                              else PriorLeg(Stepped(read, WaitSeesProcessed(c), Waiting(v)), e, c, v), 2)
  {
    if StableEventId(a) in read.s.docs.processed {
      WaitReadKeeps(s, e, c, a, read, v, Synchronized);
    } else {
      WaitReadKeeps(s, e, c, a, read, v, Waiting(v));
      PriorLegKeeps(s, e, c, a, Stepped(read, WaitSeesProcessed(c), Waiting(v)), v);
    }
  }

  lemma WaitRoundKeeps(s: System, e: Environment, c: nat, a: Authorization, l: Leg, v: nat)
    requires Sound(s, e, c, a, l, 2) && l.pc == Waiting(v) && ForeignEnvironment(e, c)
    ensures Sound(s, e, c, a, WaitRoundLeg(l, e, c, StableEventId(a), v), 2)
  {
    InterferenceKeeps(s, e, c, a, l, 2);
    if !e.moment(l.used).raises {
      WaitedKeeps(s, e, c, a, Interfered(l, e), v);
    }
  }

  lemma {:induction false} WaitRoundsKeep(s: System, e: Environment, c: nat, a: Authorization, l: Leg, v: nat, k: nat)
    requires Sound(s, e, c, a, l, 2) && ForeignEnvironment(e, c)
    requires k == 0 || WaitsThrough(l, e, c, StableEventId(a), v, k - 1)
    ensures Sound(s, e, c, a, WaitRounds(l, e, c, StableEventId(a), v, k), 2)
  {
    if k > 0 {
      WaitRoundsKeep(s, e, c, a, l, v, k - 1);
      WaitRoundKeeps(s, e, c, a, WaitRounds(l, e, c, StableEventId(a), v, k - 1), v);
    }
  }

  lemma TimeOutKeeps(s: System, e: Environment, c: nat, a: Authorization, l: Leg)
    requires Sound(s, e, c, a, l, 4) && (l.pc.Waiting? || l.pc.Polling?)
    ensures Sound(s, e, c, a, Stepped(l, TimeOut(c), Unavailable), 5)
  {
    Enters(l.s, c, a, l.pc, TimeOut(c), l.s, Unavailable);
    StepKeeps(s, e, c, a, l, 4, TimeOut(c), l.s, Unavailable);
  }

  lemma WaitRoundPc(l: Leg, e: Environment, c: nat, eid: string, v: nat)
    ensures l.pc == Waiting(v) ==> WaitRoundLeg(l, e, c, eid, v).pc in {Waiting(v), Publishing(v), Synchronized}
  {
  }

  lemma GatePc(l: Leg, after: Leg, e: Environment, c: nat, eid: string, v: nat, k: nat)
    requires GateEnds(l, after, e, c, eid, v, k)
    ensures after.pc == Publishing(v) || after.pc == Synchronized || after.pc == Unavailable
    ensures after.pc == Unavailable <==> WaitRounds(l, e, c, eid, v, k).pc == Waiting(v)
  {
    WaitRoundPc(WaitRounds(l, e, c, eid, v, k - 1), e, c, eid, v);
  }

  /** The gate ends past it, synchronized, or timed out; only a timeout reaches the end of the program. */
  lemma GateKeeps(s: System, e: Environment, c: nat, a: Authorization, l: Leg, after: Leg, v: nat)
    requires Sound(s, e, c, a, l, 2) && l.pc == Waiting(v) && ForeignEnvironment(e, c)
    requires GateOutcome(l, after, e, c, StableEventId(a), v)
    ensures after.pc == Publishing(v) || after.pc == Synchronized || after.pc == Unavailable
    ensures Sound(s, e, c, a, after, if after.pc == Unavailable then 5 else 2)
  {
    var k: nat :| GateEnds(l, after, e, c, StableEventId(a), v, k);
    GatePc(l, after, e, c, StableEventId(a), v, k);
    WaitRoundsKeep(s, e, c, a, l, v, k);
    LastRoundKeeps(s, e, c, a, WaitRounds(l, e, c, StableEventId(a), v, k), after, v);
  }

  lemma LastRoundKeeps(s: System, e: Environment, c: nat, a: Authorization, last: Leg, after: Leg, v: nat)
    requires Sound(s, e, c, a, last, 2)
    requires after == if last.pc == Waiting(v) then Stepped(last, TimeOut(c), Unavailable) else last
    ensures Sound(s, e, c, a, after, if last.pc == Waiting(v) then 5 else 2)
  {
    if last.pc == Waiting(v) {
      SoundUpTo(s, e, c, a, last, 2, 4);
      TimeOutKeeps(s, e, c, a, last);
    }
  }

  lemma PublicationEnters(s: System, c: nat, a: Authorization, v: nat, act: Action)
    requires c !in s.clients && Publishes(act, c)
    ensures var published := s.(bus := s.bus + {BuildCheckpointEvent(a, v)});
            Take(With(s, c, a, Publishing(v)), act) ==
              if act.Publish? then With(published, c, a, Polling(v))
              else With(if act.delivered then published else s, c, a, Unavailable)
  {
    forall q {:trigger Client(a, q)} ensures s.clients[c := Client(a, Publishing(v))][c := Client(a, q)] == s.clients[c := Client(a, q)] {
    }
  }

  function WithEvent(s: System, a: Authorization, v: nat): System {
    s.(bus := s.bus + {BuildCheckpointEvent(a, v)})
  }

  lemma PublishedFits(c: nat, a: Authorization, there: Leg, v: nat, s': System)
    requires c !in there.s.clients && there.pc == Publishing(v) && s' == WithEvent(there.s, a, v)
    ensures FitsStep(there, Publish(c), s', Polling(v), c, a, 2)
  {
    PublicationEnters(there.s, c, a, v, Publish(c));
  }

  lemma DeliveredRaiseFits(c: nat, a: Authorization, there: Leg, v: nat, s': System)
    requires c !in there.s.clients && there.pc == Publishing(v) && s' == WithEvent(there.s, a, v)
    ensures FitsStep(there, PublishRaises(c, true), s', Unavailable, c, a, 2)
  {
    PublicationEnters(there.s, c, a, v, PublishRaises(c, true));
  }

  lemma LostRaiseFits(c: nat, a: Authorization, there: Leg, v: nat)
    requires c !in there.s.clients && there.pc == Publishing(v)
    ensures FitsStep(there, PublishRaises(c, false), there.s, Unavailable, c, a, 2)
  {
    PublicationEnters(there.s, c, a, v, PublishRaises(c, false));
  }

  lemma PublishedKeeps(s: System, e: Environment, c: nat, a: Authorization, there: Leg, v: nat, s': System)
    requires Sound(s, e, c, a, there, 2) && there.pc == Publishing(v) && s' == WithEvent(there.s, a, v)
    ensures Sound(s, e, c, a, Stepped(there.(s := s'), Publish(c), Polling(v)), 3)
  {
    PublishedFits(c, a, there, v, s');
    StepKeeps(s, e, c, a, there, 2, Publish(c), s', Polling(v));
  }

  lemma DeliveredRaiseKeeps(s: System, e: Environment, c: nat, a: Authorization, there: Leg, v: nat, s': System)
    requires Sound(s, e, c, a, there, 2) && there.pc == Publishing(v) && s' == WithEvent(there.s, a, v)
    ensures Sound(s, e, c, a, Stepped(there.(s := s'), PublishRaises(c, true), Unavailable), 3)
  {
    DeliveredRaiseFits(c, a, there, v, s');
    StepKeeps(s, e, c, a, there, 2, PublishRaises(c, true), s', Unavailable);
  }

  lemma LostRaiseKeeps(s: System, e: Environment, c: nat, a: Authorization, there: Leg, v: nat)
    requires Sound(s, e, c, a, there, 2) && there.pc == Publishing(v)
    ensures Sound(s, e, c, a, Stepped(there, PublishRaises(c, false), Unavailable), 3)
  {
    LostRaiseFits(c, a, there, v);
    StepKeeps(s, e, c, a, there, 2, PublishRaises(c, false), there.s, Unavailable);
  }

  lemma PublishKeeps(s: System, e: Environment, c: nat, a: Authorization, l: Leg, v: nat)
    requires Sound(s, e, c, a, l, 2) && l.pc == Publishing(v) && ForeignEnvironment(e, c)
    ensures Sound(s, e, c, a, PublishLeg(l, e, c, a, v), 3)
  {
    InterferenceKeeps(s, e, c, a, l, 2);
    var (there, m) := (Interfered(l, e), e.moment(l.used));
    if !m.raises {
      PublishedKeeps(s, e, c, a, there, v, WithEvent(there.s, a, v));
    } else if m.delivered {
      DeliveredRaiseKeeps(s, e, c, a, there, v, WithEvent(there.s, a, v));
    } else {
      LostRaiseKeeps(s, e, c, a, there, v);
    }
  }

  lemma PollRoundKeeps(s: System, e: Environment, c: nat, a: Authorization, l: Leg, v: nat)
    requires Sound(s, e, c, a, l, 4) && l.pc == Polling(v) && ForeignEnvironment(e, c)
    ensures Sound(s, e, c, a, PollRoundLeg(l, e, c, StableEventId(a), v), 4)
  {
    InterferenceKeeps(s, e, c, a, l, 4);
    var read := Interfered(l, e);
    if !e.moment(l.used).raises {
      var pc := if StableEventId(a) in read.s.docs.processed then Synchronized else Polling(v);
      Enters(read.s, c, a, Polling(v), PollSeesProcessed(c), read.s, pc);
      StepKeeps(s, e, c, a, read, 4, PollSeesProcessed(c), read.s, pc);
    }
  }

  lemma {:induction false} PollRoundsKeep(s: System, e: Environment, c: nat, a: Authorization, l: Leg, v: nat, k: nat)
    requires Sound(s, e, c, a, l, 4) && ForeignEnvironment(e, c)
    requires k == 0 || PollsThrough(l, e, c, StableEventId(a), v, k - 1)
    ensures Sound(s, e, c, a, PollRounds(l, e, c, StableEventId(a), v, k), 4)
  {
    if k > 0 {
      PollRoundsKeep(s, e, c, a, l, v, k - 1);
      PollRoundKeeps(s, e, c, a, PollRounds(l, e, c, StableEventId(a), v, k - 1), v);
    }
  }

  lemma PollRoundPc(l: Leg, e: Environment, c: nat, eid: string, v: nat)
    ensures l.pc == Polling(v) ==> PollRoundLeg(l, e, c, eid, v).pc in {Polling(v), Synchronized}
  {
  }

  lemma PollPc(l: Leg, after: Leg, e: Environment, c: nat, eid: string, v: nat, k: nat)
    requires PollEnds(l, after, e, c, eid, v, k)
    ensures after.pc == Synchronized || after.pc == Unavailable
    ensures after.pc == Unavailable <==> PollRounds(l, e, c, eid, v, k).pc == Polling(v)
  {
    PollRoundPc(PollRounds(l, e, c, eid, v, k - 1), e, c, eid, v);
  }

  lemma PollKeeps(s: System, e: Environment, c: nat, a: Authorization, l: Leg, after: Leg, v: nat)
    requires Sound(s, e, c, a, l, 4) && l.pc == Polling(v) && ForeignEnvironment(e, c)
    requires PollOutcome(l, after, e, c, StableEventId(a), v)
    ensures Sound(s, e, c, a, after, 5) && (after.pc == Synchronized || after.pc == Unavailable)
  {
    var k: nat :| PollEnds(l, after, e, c, StableEventId(a), v, k);
    PollPc(l, after, e, c, StableEventId(a), v, k);
    PollRoundsKeep(s, e, c, a, l, v, k);
    LastPollKeeps(s, e, c, a, PollRounds(l, e, c, StableEventId(a), v, k), after, v);
  }

  lemma LastPollKeeps(s: System, e: Environment, c: nat, a: Authorization, last: Leg, after: Leg, v: nat)
    requires Sound(s, e, c, a, last, 4)
    requires after == if last.pc == Polling(v) then Stepped(last, TimeOut(c), Unavailable) else last
    ensures Sound(s, e, c, a, after, 5)
  {
    if last.pc == Polling(v) {
      TimeOutKeeps(s, e, c, a, last);
    } else {
      SoundUpTo(s, e, c, a, last, 4, 5);
    }
  }

  // ---------------------------------------------------------------- the whole call

  lemma StartIsSound(s: System, e: Environment, c: nat, a: Authorization)
    requires c !in s.clients
    ensures Sound(s, e, c, a, Leg(s, Checking, [], 0), 0)
  {
  }

  lemma CallIsSound(s: System, e: Environment, c: nat, a: Authorization, ls: Legs)
    requires c !in s.clients && ForeignEnvironment(e, c) && CallLegs(ls, s, e, c, a)
    ensures Sound(s, e, c, a, ls.end, 5)
  {
    StartIsSound(s, e, c, a);
    CheckKeeps(s, e, c, a, ls.start);
    if ls.checked.pc == Synchronized {
      SoundUpTo(s, e, c, a, ls.checked, 0, 5);
    } else {
      AllocateKeeps(s, e, c, a, ls.checked);
      AfterAllocation(s, e, c, a, ls);
    }
  }

  lemma AfterAllocation(s: System, e: Environment, c: nat, a: Authorization, ls: Legs)
    requires ForeignEnvironment(e, c) && CallLegs(ls, s, e, c, a) && Sound(s, e, c, a, ls.reserved, 1)
    ensures Sound(s, e, c, a, ls.end, 5)
  {
    SoundUpTo(s, e, c, a, ls.reserved, 1, 2);
    if ls.reserved.pc.Waiting? {
      GateKeeps(s, e, c, a, ls.reserved, ls.gated, ls.reserved.pc.version);
    }
    if ls.gated.pc.Publishing? {
      PublishKeeps(s, e, c, a, ls.gated, ls.gated.pc.version);
      SoundUpTo(s, e, c, a, ls.published, 3, 4);
      if ls.published.pc.Polling? {
        PollKeeps(s, e, c, a, ls.published, ls.end, ls.published.pc.version);
      } else {
        SoundUpTo(s, e, c, a, ls.end, 4, 5);
      }
    } else {
      NoPolling(s, e, c, a, ls);
      SoundUpTo(s, e, c, a, ls.end, if ls.gated.pc == Unavailable && ls.reserved.pc.Waiting? then 5 else 2, 5);
    }
  }

  lemma NoPolling(s: System, e: Environment, c: nat, a: Authorization, ls: Legs)
    requires CallLegs(ls, s, e, c, a) && !ls.gated.pc.Publishing?
    requires ls.reserved.pc.Waiting? ==> ls.gated.pc == Synchronized || ls.gated.pc == Unavailable
    ensures ls.end == ls.gated
  {
  }

  /** Every call, in every environment: it is a run of the protocol's state machine from the caller's first step; the
      steps of others in it are exactly the interference of the accesses it made; its own steps come in the order of the
      program text; it publishes at most once, and only after it saw every earlier version applied or holds the first one;
      and it reports SYNCHRONIZED exactly when one of its reads that did not raise found the event processed. */
  lemma CallFollowsProtocol(s: System, e: Environment, c: nat, a: Authorization, ls: Legs)
    requires c !in s.clients && ForeignEnvironment(e, c) && CallLegs(ls, s, e, c, a)
    ensures With(ls.end.s, c, a, ls.end.pc) == RunSystem(With(s, c, a, Checking), ls.end.trace)
    ensures Foreigns(ls.end.trace, c) == Interference(e, ls.end.used)
    ensures InProgramOrder(Owns(ls.end.trace, c))
    ensures PublishesOnce(Owns(ls.end.trace, c), c)
    ensures NeverOvertakes(With(s, c, a, Checking), ls.end.trace, c)
    ensures ls.end.pc == Synchronized <==> Finds(With(s, c, a, Checking), ls.end.trace, c, StableEventId(a))
  {
    CallIsSound(s, e, c, a, ls);
    OrderPublishesOnce(Owns(ls.end.trace, c), c);
  }

  /** A call that starts in a reachable state ends in one, so the protocol's safety holds of it; in particular a call
      that reports SYNCHRONIZED has its event projected, applied exactly once. */
  lemma SynchronizedCallIsProjected(s: System, e: Environment, c: nat, a: Authorization, ls: Legs)
    requires Reachable(With(s, c, a, Checking)) && c !in s.clients && ForeignEnvironment(e, c) && CallLegs(ls, s, e, c, a)
    ensures Reachable(With(ls.end.s, c, a, ls.end.pc))
    ensures ls.end.pc == Synchronized ==>
              && StableEventId(a) in ls.end.s.docs.processed
              && exists i :: 0 <= i < |ls.end.s.history| && ls.end.s.history[i].eventId == StableEventId(a)
  {
    CallFollowsProtocol(s, e, c, a, ls);
    var (before, after) := (With(s, c, a, Checking), With(ls.end.s, c, a, ls.end.pc));
    var pid, acts :| before == RunSystem(Initial(pid), acts);
    RunsCompose(Initial(pid), acts, ls.end.trace);
    assert after == RunSystem(Initial(pid), acts + ls.end.trace);
    if ls.end.pc == Synchronized {
      ReportsAreTrue(after);
      assert IsProcessed(after, c);
      AppliedExactlyOnceInOrder(after);
    }
  }
}
