/** The release-checkpoint protocol of one production: many clients, one at-least-once bus, one worker.
    Every step is atomic, may interleave with any other, and may never come. */
module Checkpoint {
  import opened Records
  import opened Projection
  import opened ProjectionStore

  // ---------------------------------------------------------------- the event

  /** UUID5 of the name; distinct names give distinct ids, so the name stands for the id. */
  function StableEventId(a: Authorization): string {
    a.productionId + ":" + a.id
  }

  function BuildCheckpointEvent(a: Authorization, version: nat): Event {
    Event(StableEventId(a), a.productionId, version, a.authorizedAt, a.productionId,
          ResolutionRecorded(LogEntry(a.issueId, a.action, a.actorId, "RELEASE_APPROVER", a.hashes, a.reason,
                                      a.authorizedAt)))
  }

  // ---------------------------------------------------------------- the system

  /** Where a call of synchronize_release_checkpoint stands. */
  datatype Pc =
    | Checking
    | Allocating
    | Waiting(version: nat)
    | Publishing(version: nat)
    | Polling(version: nat)
    | Synchronized
    | Unavailable
    | Gone

  datatype Client = Client(authorization: Authorization, pc: Pc)

  datatype Worker = Idle | Handled(e: Event)

  /** `bus` holds every message ever published: any of them may be delivered again, at any time, in any
      order. `history` is the applied events in order, kept for the statements only. */
  datatype System = System(pid: string, docs: Docs, bus: set<Event>, clients: map<nat, Client>,
                           worker: Worker, committed: set<Event>, history: seq<Event>)

  function Initial(pid: string): System {
    System(pid, NO_DOCS, {}, map[], Idle, {}, [])
  }

  datatype Action =
    | Join(c: nat, a: Authorization)
    | CheckProcessed(c: nat, readFails: bool)
    | AllocateVersion(c: nat, fails: bool)
    | WaitSeesProcessed(c: nat)
    | WaitSeesPrior(c: nat)
    | Publish(c: nat)
    | PublishRaises(c: nat, delivered: bool)
    | PollSeesProcessed(c: nat)
    | TimeOut(c: nat)
    | Crash(c: nat)
    | Retry(c: nat)
    | WorkerApply(e: Event)
    | WorkerCommit
    | WorkerCrash

  function Moved(s: System, c: nat, pc: Pc): System
    requires c in s.clients
  {
    s.(clients := s.clients[c := s.clients[c].(pc := pc)])
  }

  function Published(s: System, c: nat): System
    requires c in s.clients && s.clients[c].pc.Publishing?
  {
    s.(bus := s.bus + {BuildCheckpointEvent(s.clients[c].authorization, s.clients[c].pc.version)})
  }

  predicate IsProcessed(s: System, c: nat)
    requires c in s.clients
  {
    StableEventId(s.clients[c].authorization) in s.docs.processed
  }

  /** Where client `c` goes by a step that only reads the documents. */
  function NextPc(s: System, act: Action, c: nat): Pc
    requires c in s.clients
  {
    var pc := s.clients[c].pc;
    match act
    case CheckProcessed(_, readFails) =>
      if !pc.Checking? then pc else if !readFails && IsProcessed(s, c) then Synchronized else Allocating
    case WaitSeesProcessed(_) => if pc.Waiting? && IsProcessed(s, c) then Synchronized else pc
    case WaitSeesPrior(_) => if pc.Waiting? && Last(s.docs) >= pc.version - 1 then Publishing(pc.version) else pc
    case PollSeesProcessed(_) => if pc.Polling? && IsProcessed(s, c) then Synchronized else pc
    case TimeOut(_) => if pc.Waiting? || pc.Polling? then Unavailable else pc
    case Crash(_) => if pc.Synchronized? then pc else Gone
    case Retry(_) => if pc.Unavailable? || pc.Gone? then Checking else pc
    case _ => pc
  }

  /** One step of client `c`; a step that its program counter does not allow changes nothing. */
  function ClientStep(s: System, act: Action, c: nat): System
    requires c in s.clients
  {
    var pc := s.clients[c].pc;
    match act
    case AllocateVersion(_, fails) =>
      if !pc.Allocating? then s
      else if fails then Moved(s, c, Unavailable)
      else
        var eid := StableEventId(s.clients[c].authorization);
        var v := AllocatedVersion(s.docs, eid);
        Moved(s.(docs := AllocateStep(s.docs, eid)), c, if v > 1 then Waiting(v) else Publishing(v))
    case Publish(_) =>
      if pc.Publishing? then Moved(Published(s, c), c, Polling(pc.version)) else s
    case PublishRaises(_, delivered) =>
      if !pc.Publishing? then s
      else Moved(if delivered then Published(s, c) else s, c, Unavailable)
    case _ => Moved(s, c, NextPc(s, act, c))
  }

  /** The worker applies a delivered message, then commits it; it may stop between the two. */
  function WorkerStep(s: System, act: Action): System {
    match act
    case WorkerApply(e) =>
      if !s.worker.Idle? || e !in s.bus then s
      else
        var verdict := StoreVerdict(s.docs, e);
        s.(docs := StoreStep(s.docs, e),
           worker := if verdict.Rejected? then Idle else Handled(e),
           history := if verdict == Applied then s.history + [e] else s.history)
    case WorkerCommit =>
      if s.worker.Handled? then s.(worker := Idle, committed := s.committed + {s.worker.e}) else s
    case WorkerCrash => s.(worker := Idle)
    case _ => s
  }

  function Take(s: System, act: Action): System {
    match act
    case Join(c, a) =>
      if c in s.clients || a.productionId != s.pid then s else s.(clients := s.clients[c := Client(a, Checking)])
    case WorkerApply(_) => WorkerStep(s, act)
    case WorkerCommit => WorkerStep(s, act)
    case WorkerCrash => WorkerStep(s, act)
    case _ => if act.c in s.clients then ClientStep(s, act, act.c) else s
  }

  function RunSystem(s: System, acts: seq<Action>): System {
    if acts == [] then s else Take(RunSystem(s, acts[..|acts|-1]), acts[|acts|-1])
  }
}
