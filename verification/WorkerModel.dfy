/** The worker: one claiming loop, the tasks it dispatches and the lane in which
    they resolve their claims. Each event is what runs between two waits. */
module WorkerModel {
  import opened Wrappers

  type Session = nat
  type TaskId = nat
  type Ticket = nat

  /** How far a task is. It is processed when its session is free again, and it
      is gone when its promise has settled. */
  datatype Stage = Working | Queued(ticket: Ticket) | Resolving(ticket: Ticket) | Processed

  datatype Task = Task(session: Session, stage: Stage)

  /** Where the loop is. A sleep ends by itself, woken or not. Without the lock the
      worker tries to take it or rests, after a refusal, a failure or a lost connection. */
  datatype Phase =
    | Turning
    | Proceeding
    | Claiming(excluded: set<Session>)
    | WaitingForSlot(woken: bool)
    | Sleeping(listening: bool, allowWake: bool, woken: bool)
    | Draining
    | Unlocked
    | Resting(woken: bool)

  /** Each run of the lane has a promise that it resolves when it leaves. The
      number of runs that have started is kept for the record. */
  datatype Lane = Lane(released: seq<bool>, started: nat)

  datatype State = State(
    limit: nat,
    tasks: map<TaskId, Task>,
    sessions: set<Session>,
    lane: Lane,
    phase: Phase,
    stopping: bool,
    wakeRequested: bool,
    staleBackoff: bool)

  datatype Event =
    | Relock
    | NoLock
    | Turn
    | Resume
    | Claimed(job: Option<(TaskId, Session)>)
    | LoopFails
    | Drained
    | EnterLane(id: TaskId)
    | StartResolving(id: TaskId)
    | LeaveLane(id: TaskId)
    | Process(id: TaskId, stale: bool)
    | Settle(id: TaskId)
    | Wake
    | Stop

  function Start(limit: nat): State {
    State(limit, map[], {}, Lane([], 0), Unlocked, false, false, false)
  }

  // ----- the lane -----

  /** The tail of the lane after so many runs is a chain of promises. */
  predicate TailResolved(released: seq<bool>, runs: nat)
    requires runs <= |released|
  {
    runs == 0 || (TailResolved(released, runs - 1) && released[runs - 1])
  }

  // ----- the loop -----

  /** The wait for work: at once, or asleep. */
  function Rest(s: State, listening: bool, allowWake: bool, awake: Phase): State {
    if s.stopping then s.(phase := awake)
    else if allowWake && s.wakeRequested then s.(wakeRequested := false, phase := awake)
    else s.(phase := Sleeping(listening, allowWake, false))
  }

  /** The rest of a turn, behind the backoff. */
  function Proceed(s: State): State {
    if s.stopping then s.(phase := Draining)
    else if |s.tasks| >= s.limit then s.(phase := WaitingForSlot(false))
    else s.(phase := Claiming(s.sessions))
  }

  function BeginTurn(s: State): State {
    if s.stopping then s.(phase := Draining)
    else if s.staleBackoff then Rest(s.(staleBackoff := false), false, false, Proceeding)
    else Proceed(s)
  }

  function Dispatch(s: State, id: TaskId, session: Session): State {
    s.(tasks := s.tasks[id := Task(session, Working)], sessions := s.sessions + {session})
  }

  function ClaimReturns(s: State, job: Option<(TaskId, Session)>): State {
    var dispatched := if job.Some? then Dispatch(s, job.value.0, job.value.1) else s;
    if s.stopping then dispatched.(phase := Draining)
    else if job.None? then Rest(s, |s.tasks| > 0, true, Turning)
    else dispatched.(phase := Turning)
  }

  /** What wake does to whoever waits. */
  function Woken(s: State): State {
    var phase :=
      match s.phase
      case WaitingForSlot(_) => WaitingForSlot(true)
      case Sleeping(listening, allowWake, woken) => Sleeping(listening, allowWake, woken || allowWake || s.stopping)
      case Resting(_) => Resting(true)
      case other => other;
    s.(wakeRequested := true, phase := phase)
  }

  /** A task completes: the loop hears of it only while it listens. */
  function Completed(s: State): State {
    match s.phase
    case WaitingForSlot(_) => s.(phase := WaitingForSlot(true))
    case Sleeping(listening, _, _) => if listening then Woken(s) else s
    case _ => s
  }

  function WithStage(s: State, id: TaskId, stage: Stage): State
    requires id in s.tasks
  {
    s.(tasks := s.tasks[id := s.tasks[id].(stage := stage)])
  }

  predicate Enabled(s: State, e: Event) {
    match e
    case Relock => s.phase == Unlocked && !s.stopping
    case NoLock => s.phase == Unlocked
    case Turn => s.phase == Turning || s.phase == Proceeding
    case Resume => s.phase.Sleeping? || s.phase.Resting? || (s.phase.WaitingForSlot? && s.phase.woken)
    case Claimed(job) =>
      s.phase.Claiming? && (job.Some? ==> job.value.0 !in s.tasks && job.value.1 !in s.phase.excluded)
    case LoopFails => s.phase.Claiming?
    case Drained => s.phase == Draining && s.tasks == map[]
    case EnterLane(id) => id in s.tasks && s.tasks[id].stage == Working
    case StartResolving(id) =>
      && id in s.tasks && s.tasks[id].stage.Queued? && s.tasks[id].stage.ticket <= |s.lane.released|
      && TailResolved(s.lane.released, s.tasks[id].stage.ticket)
    case LeaveLane(id) => id in s.tasks && s.tasks[id].stage.Resolving? && s.tasks[id].stage.ticket < |s.lane.released|
    case Process(id, _) => id in s.tasks && s.tasks[id].stage == Working
    case Settle(id) => id in s.tasks && s.tasks[id].stage == Processed
    case Wake => true
    case Stop => true
  }

  function Next(s: State, e: Event): State
    requires Enabled(s, e)
  {
    match e
    case Relock => s.(phase := Turning, tasks := map[], sessions := {}, staleBackoff := false)
    case NoLock =>
      if s.stopping then s
      else if s.wakeRequested then s.(wakeRequested := false)
      else s.(phase := Resting(false))
    case Turn => if s.phase == Turning then BeginTurn(s) else Proceed(s)
    case Resume =>
      if s.phase.WaitingForSlot? then s.(phase := if s.stopping then Draining else Turning)
      else if s.phase.Resting? then s.(wakeRequested := false, phase := Unlocked)
      else s.(wakeRequested := false, phase := if s.phase.allowWake then Turning else Proceeding)
    case Claimed(job) => ClaimReturns(s, job)
    case LoopFails => s.(phase := Draining)
    case Drained => s.(phase := Unlocked)
    case EnterLane(id) =>
      WithStage(s, id, Queued(|s.lane.released|)).(lane := s.lane.(released := s.lane.released + [false]))
    case StartResolving(id) =>
      WithStage(s, id, Resolving(s.tasks[id].stage.ticket)).(lane := s.lane.(started := s.lane.started + 1))
    case LeaveLane(id) =>
      WithStage(s, id, Working).(lane := s.lane.(released := s.lane.released[s.tasks[id].stage.ticket := true]))
    case Process(id, stale) =>
      WithStage(s, id, Processed).(sessions := s.sessions - {s.tasks[id].session}, staleBackoff := s.staleBackoff || stale)
    case Settle(id) => Completed(s.(tasks := s.tasks - {id}))
    case Wake => Woken(s)
    case Stop => Woken(s.(stopping := true))
  }

  /** The state after a run in which every event was enabled. */
  function After(limit: nat, events: seq<Event>): Option<State>
    decreases |events|
  {
    if events == [] then Some(Start(limit))
    else
      var before := After(limit, events[..|events| - 1]);
      var e := events[|events| - 1];
      if before.Some? && Enabled(before.value, e) then Some(Next(before.value, e)) else None
  }
}
