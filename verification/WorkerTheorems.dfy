/** Over every run of the worker: how many tasks, whose sessions, who resolves in
    which order, and that nothing is left when the lock is given up. */
module WorkerTheorems {
  import opened Wrappers
  import opened WorkerModel

  // ----- the lane -----

  lemma {:induction false} TailResolvedIs(released: seq<bool>, runs: nat)
    requires runs <= |released|
    ensures TailResolved(released, runs) <==> forall t :: 0 <= t < runs ==> released[t]
  {
    if runs > 0 { TailResolvedIs(released, runs - 1); }
  }

  predicate Holds(task: Task, t: Ticket) {
    task.stage == Queued(t) || task.stage == Resolving(t)
  }

  predicate Waiting(task: Task) {
    task.stage.Queued? || task.stage.Resolving?
  }

  /** The tasks that entered the lane, in order. */
  function Entries(events: seq<Event>): seq<TaskId> {
    if events == [] then []
    else
      var e := events[|events| - 1];
      Entries(events[..|events| - 1]) + if e.EnterLane? then [e.id] else []
  }

  /** The tasks that started to resolve, in order. */
  function Starts(events: seq<Event>): seq<TaskId> {
    if events == [] then []
    else
      var e := events[|events| - 1];
      Starts(events[..|events| - 1]) + if e.StartResolving? then [e.id] else []
  }

  /** Runs before the last one that started are released and none after it. */
  predicate ReleasedOk(lane: Lane) {
    && lane.started <= |lane.released|
    && (forall t :: 0 <= t < lane.started - 1 ==> lane.released[t])
    && (forall t :: lane.started <= t < |lane.released| ==> !lane.released[t])
  }

  /** A task that waits holds the ticket of its entry, a started one exactly if it resolves. */
  predicate TicketOk(lane: Lane, entries: seq<TaskId>, id: TaskId, stage: Stage)
    requires |entries| == |lane.released|
  {
    match stage
    case Queued(t) => lane.started <= t < |entries| && entries[t] == id
    case Resolving(t) => t == lane.started - 1 && t < |entries| && entries[t] == id && !lane.released[t]
    case _ => true
  }

  predicate TicketsOk(s: State, entries: seq<TaskId>)
    requires |entries| == |s.lane.released| && ReleasedOk(s.lane)
  {
    forall id :: id in s.tasks ==> TicketOk(s.lane, entries, id, s.tasks[id].stage)
  }

  /** A run that has not been released belongs to a task that holds its ticket. */
  predicate HoldersOk(s: State, entries: seq<TaskId>)
    requires |entries| == |s.lane.released|
  {
    forall t :: 0 <= t < |entries| && !s.lane.released[t] ==> entries[t] in s.tasks && Holds(s.tasks[entries[t]], t)
  }

  predicate LaneOk(s: State, entries: seq<TaskId>, starts: seq<TaskId>) {
    && |entries| == |s.lane.released|
    && ReleasedOk(s.lane)
    && TicketsOk(s, entries)
    && HoldersOk(s, entries)
    && starts == entries[..s.lane.started]
  }

  // ----- sessions, limit and waits -----

  predicate Busy(task: Task) {
    task.stage != Processed
  }

  predicate OneEach(s: State) {
    forall a, b :: a in s.tasks && b in s.tasks && Busy(s.tasks[a]) && Busy(s.tasks[b]) && a != b ==>
      s.tasks[a].session != s.tasks[b].session
  }

  predicate BusyIsMarked(s: State) {
    forall id :: id in s.tasks && Busy(s.tasks[id]) ==> s.tasks[id].session in s.sessions
  }

  predicate MarkedIsBusy(s: State) {
    forall x :: x in s.sessions ==> exists id :: id in s.tasks && Busy(s.tasks[id]) && s.tasks[id].session == x
  }

  predicate SessionsOk(s: State) {
    && OneEach(s) && BusyIsMarked(s) && MarkedIsBusy(s)
    && (s.phase.Claiming? ==> s.sessions <= s.phase.excluded)
  }

  predicate LimitOk(s: State) {
    && |s.tasks| <= s.limit
    && (s.phase.Claiming? ==> |s.tasks| < s.limit)
    && (s.phase == Unlocked || s.phase.Resting? ==> s.tasks == map[])
  }

  predicate WaitsOk(s: State) {
    match s.phase
    case WaitingForSlot(woken) => !woken ==> !s.stopping && |s.tasks| >= s.limit
    case Sleeping(listening, allowWake, woken) =>
      && (!woken ==> !s.stopping && (allowWake ==> !s.wakeRequested))
      && (allowWake && s.tasks != map[] ==> listening)
    case Resting(woken) => !woken ==> !s.stopping && !s.wakeRequested
    case _ => true
  }

  predicate Inv(s: State, entries: seq<TaskId>, starts: seq<TaskId>) {
    LaneOk(s, entries, starts) && SessionsOk(s) && LimitOk(s) && WaitsOk(s)
  }

  // ----- every event keeps it -----

  predicate SameLane(s: State, after: State) {
    after.lane == s.lane
    && (forall id :: id in after.tasks && Waiting(after.tasks[id]) ==> id in s.tasks && after.tasks[id].stage == s.tasks[id].stage)
    && (forall id :: id in s.tasks && Waiting(s.tasks[id]) ==> id in after.tasks && after.tasks[id].stage == s.tasks[id].stage)
  }

  lemma SameLaneKeeps(s: State, after: State, entries: seq<TaskId>, starts: seq<TaskId>)
    requires LaneOk(s, entries, starts) && SameLane(s, after)
    ensures LaneOk(after, entries, starts)
  {
    forall id | id in after.tasks ensures TicketOk(after.lane, entries, id, after.tasks[id].stage) {
      if Waiting(after.tasks[id]) { assert TicketOk(s.lane, entries, id, s.tasks[id].stage); }
    }
    forall t | 0 <= t < |entries| && !after.lane.released[t]
      ensures entries[t] in after.tasks && Holds(after.tasks[entries[t]], t)
    {
      assert Holds(s.tasks[entries[t]], t);
    }
  }

  lemma EnterKeeps(s: State, id: TaskId, entries: seq<TaskId>, starts: seq<TaskId>)
    requires LaneOk(s, entries, starts) && Enabled(s, EnterLane(id))
    ensures LaneOk(Next(s, EnterLane(id)), entries + [id], starts)
  {
    var after := Next(s, EnterLane(id));
    var more := entries + [id];
    forall other | other in after.tasks ensures TicketOk(after.lane, more, other, after.tasks[other].stage) {
      if other != id { assert TicketOk(s.lane, entries, other, s.tasks[other].stage); }
    }
    forall t | 0 <= t < |more| && !after.lane.released[t] ensures more[t] in after.tasks && Holds(after.tasks[more[t]], t) {
      if t < |entries| {
        assert !s.lane.released[t] && Holds(s.tasks[entries[t]], t);
      }
    }
  }

  lemma StartKeeps(s: State, id: TaskId, entries: seq<TaskId>, starts: seq<TaskId>)
    requires LaneOk(s, entries, starts) && Enabled(s, StartResolving(id))
    ensures LaneOk(Next(s, StartResolving(id)), entries, starts + [id])
  {
    var t := s.tasks[id].stage.ticket;
    var after := Next(s, StartResolving(id));
    assert TicketOk(s.lane, entries, id, s.tasks[id].stage);
    TailResolvedIs(s.lane.released, t);
    assert t == s.lane.started;
    forall other | other in after.tasks ensures TicketOk(after.lane, entries, other, after.tasks[other].stage) {
      assert TicketOk(s.lane, entries, other, s.tasks[other].stage);
    }
    forall u | 0 <= u < |entries| && !after.lane.released[u] ensures entries[u] in after.tasks && Holds(after.tasks[entries[u]], u) {
      assert Holds(s.tasks[entries[u]], u);
    }
    assert starts + [id] == entries[..after.lane.started];
  }

  lemma LeaveKeeps(s: State, id: TaskId, entries: seq<TaskId>, starts: seq<TaskId>)
    requires LaneOk(s, entries, starts) && Enabled(s, LeaveLane(id))
    ensures LaneOk(Next(s, LeaveLane(id)), entries, starts)
  {
    var after := Next(s, LeaveLane(id));
    assert TicketOk(s.lane, entries, id, s.tasks[id].stage);
    forall other | other in after.tasks ensures TicketOk(after.lane, entries, other, after.tasks[other].stage) {
      assert TicketOk(s.lane, entries, other, s.tasks[other].stage);
    }
    forall u | 0 <= u < |entries| && !after.lane.released[u] ensures entries[u] in after.tasks && Holds(after.tasks[entries[u]], u) {
      assert Holds(s.tasks[entries[u]], u);
    }
  }

  function NewEntry(e: Event): seq<TaskId> {
    if e.EnterLane? then [e.id] else []
  }

  function NewStart(e: Event): seq<TaskId> {
    if e.StartResolving? then [e.id] else []
  }

  lemma LaneKeeps(s: State, e: Event, entries: seq<TaskId>, starts: seq<TaskId>)
    requires LaneOk(s, entries, starts) && LimitOk(s) && Enabled(s, e)
    ensures LaneOk(Next(s, e), entries + NewEntry(e), starts + NewStart(e))
  {
    if e.EnterLane? {
      EnterKeeps(s, e.id, entries, starts);
      assert starts + [] == starts;
    } else {
      assert entries + [] == entries;
      if e.StartResolving? {
        StartKeeps(s, e.id, entries, starts);
      } else {
        assert starts + [] == starts;
        if e.LeaveLane? {
          LeaveKeeps(s, e.id, entries, starts);
        } else {
          OtherLane(s, e);
          SameLaneKeeps(s, Next(s, e), entries, starts);
        }
      }
    }
  }

  /** The loop's own events, those of no task. */
  predicate OfLoop(e: Event) {
    e.NoLock? || e.Turn? || e.Resume? || e.LoopFails? || e.Drained? || e.Wake? || e.Stop?
  }

  lemma LoopOnly(s: State, e: Event)
    requires Enabled(s, e) && OfLoop(e)
    ensures var after := Next(s, e);
      && after.tasks == s.tasks && after.sessions == s.sessions && after.lane == s.lane
      && (after.phase.Claiming? ==> after.phase.excluded == s.sessions || after.phase == s.phase)
  {
  }

  lemma OtherLane(s: State, e: Event)
    requires LimitOk(s) && Enabled(s, e) && !e.EnterLane? && !e.StartResolving? && !e.LeaveLane?
    ensures SameLane(s, Next(s, e))
  {
    if OfLoop(e) {
      LoopOnly(s, e);
      hide Next;
    } else if e.Claimed? {
      ClaimedLane(s, e.job);
      hide Next;
    }
  }

  lemma ClaimedLane(s: State, job: Option<(TaskId, Session)>)
    requires Enabled(s, Claimed(job))
    ensures SameLane(s, Next(s, Claimed(job)))
  {
  }

  lemma DispatchKeeps(s: State, id: TaskId, session: Session)
    requires SessionsOk(s) && id !in s.tasks && session !in s.sessions
    ensures var after := Dispatch(s, id, session); OneEach(after) && BusyIsMarked(after) && MarkedIsBusy(after)
  {
    var after := Dispatch(s, id, session);
    forall x | x in after.sessions ensures exists b :: b in after.tasks && Busy(after.tasks[b]) && after.tasks[b].session == x {
      if x == session {
        assert Busy(after.tasks[id]);
      } else {
        var b :| b in s.tasks && Busy(s.tasks[b]) && s.tasks[b].session == x;
        assert Busy(after.tasks[b]);
      }
    }
  }

  lemma ProcessKeeps(s: State, id: TaskId, stale: bool)
    requires SessionsOk(s) && Enabled(s, Process(id, stale))
    ensures SessionsOk(Next(s, Process(id, stale)))
  {
    var after := Next(s, Process(id, stale));
    forall b | b in after.tasks && Busy(after.tasks[b]) ensures after.tasks[b].session in after.sessions {
      assert b != id && Busy(s.tasks[b]) && Busy(s.tasks[id]);
    }
    forall x | x in after.sessions ensures exists b :: b in after.tasks && Busy(after.tasks[b]) && after.tasks[b].session == x {
      var b :| b in s.tasks && Busy(s.tasks[b]) && s.tasks[b].session == x;
      assert Busy(after.tasks[b]);
    }
  }

  predicate SameBusy(s: State, after: State) {
    && after.sessions == s.sessions
    && (forall id :: id in after.tasks && Busy(after.tasks[id]) ==> id in s.tasks && Busy(s.tasks[id]) && after.tasks[id].session == s.tasks[id].session)
    && (forall id :: id in s.tasks && Busy(s.tasks[id]) ==> id in after.tasks && Busy(after.tasks[id]) && after.tasks[id].session == s.tasks[id].session)
  }

  lemma SameBusyKeeps(s: State, after: State)
    requires SessionsOk(s) && SameBusy(s, after)
    requires after.phase.Claiming? ==> after.phase.excluded == s.sessions || after.phase == s.phase
    ensures SessionsOk(after)
  {
    forall x | x in after.sessions ensures exists b :: b in after.tasks && Busy(after.tasks[b]) && after.tasks[b].session == x {
      var b :| b in s.tasks && Busy(s.tasks[b]) && s.tasks[b].session == x;
      assert Busy(after.tasks[b]);
    }
  }

  lemma ClaimedKeeps(s: State, job: Option<(TaskId, Session)>)
    requires SessionsOk(s) && Enabled(s, Claimed(job))
    ensures SessionsOk(Next(s, Claimed(job)))
  {
    var after := Next(s, Claimed(job));
    assert !after.phase.Claiming?;
    if job.Some? {
      DispatchKeeps(s, job.value.0, job.value.1);
      var d := Dispatch(s, job.value.0, job.value.1);
      assert after.tasks == d.tasks && after.sessions == d.sessions;
    } else {
      assert after.tasks == s.tasks && after.sessions == s.sessions;
    }
    hide Next, Dispatch;
  }

  lemma OtherBusy(s: State, e: Event)
    requires Enabled(s, e) && (e.EnterLane? || e.StartResolving? || e.LeaveLane? || e.Settle?)
    ensures SameBusy(s, Next(s, e)) && (Next(s, e).phase.Claiming? ==> Next(s, e).phase == s.phase)
  {
  }

  lemma SessionsKeep(s: State, e: Event)
    requires SessionsOk(s) && LimitOk(s) && Enabled(s, e)
    ensures SessionsOk(Next(s, e))
  {
    if e.Relock? {
      assert s.sessions == {};
    } else {
      hide Next, SessionsOk, LimitOk, Enabled;
      if OfLoop(e) {
        LoopOnly(s, e);
        SameBusyKeeps(s, Next(s, e));
      } else if e.Claimed? {
        ClaimedKeeps(s, e.job);
      } else if e.Process? {
        ProcessKeeps(s, e.id, e.stale);
      } else {
        OtherBusy(s, e);
        SameBusyKeeps(s, Next(s, e));
      }
    }
  }

  lemma SizeWithout(tasks: map<TaskId, Task>, id: TaskId)
    requires id in tasks
    ensures |tasks - {id}| == |tasks| - 1
  {
    assert (tasks - {id}).Keys == tasks.Keys - {id};
  }

  lemma SizeWith(tasks: map<TaskId, Task>, id: TaskId, task: Task)
    ensures |tasks[id := task]| == if id in tasks then |tasks| else |tasks| + 1
  {
    assert tasks[id := task].Keys == tasks.Keys + {id};
  }

  lemma LimitKeeps(s: State, e: Event)
    requires LimitOk(s) && Enabled(s, e)
    ensures LimitOk(Next(s, e))
  {
    match e
    case Claimed(job) =>
      if job.Some? { SizeWith(s.tasks, job.value.0, Task(job.value.1, Working)); }
    case EnterLane(id) => SizeWith(s.tasks, id, Next(s, e).tasks[id]);
    case StartResolving(id) => SizeWith(s.tasks, id, Next(s, e).tasks[id]);
    case LeaveLane(id) => SizeWith(s.tasks, id, Next(s, e).tasks[id]);
    case Process(id, _) => SizeWith(s.tasks, id, Next(s, e).tasks[id]);
    case Settle(id) => SizeWithout(s.tasks, id);
    case _ =>
  }

  lemma WaitsKeep(s: State, e: Event)
    requires WaitsOk(s) && Enabled(s, e)
    ensures WaitsOk(Next(s, e))
  {
    hide TailResolved;
    if OfLoop(e) {
      hide LimitOk;
    } else if e.EnterLane? || e.StartResolving? || e.LeaveLane? || e.Process? {
      SizeWith(s.tasks, e.id, Next(s, e).tasks[e.id]);
    } else {
      hide LimitOk;
    }
  }

  lemma {:induction false} RunKeeps(limit: nat, events: seq<Event>)
    requires After(limit, events).Some?
    ensures var s := After(limit, events).value; s.limit == limit && Inv(s, Entries(events), Starts(events))
  {
    if events != [] {
      var n := |events| - 1;
      RunKeeps(limit, events[..n]);
      var s := After(limit, events[..n]).value;
      var e := events[n];
      hide LaneOk, SessionsOk, LimitOk, WaitsOk;
      LaneKeeps(s, e, Entries(events[..n]), Starts(events[..n]));
      SessionsKeep(s, e);
      LimitKeeps(s, e);
      WaitsKeep(s, e);
    }
  }

  // ----- what follows -----

  /** Never more tasks than the concurrency allows, whatever finishes when. */
  lemma WithinConcurrency(limit: nat, events: seq<Event>)
    requires After(limit, events).Some?
    ensures |After(limit, events).value.tasks| <= limit
  {
    RunKeeps(limit, events);
  }

  /** Two tasks that are being processed are of different sessions, though the
      sessions that a claim excludes are those of the moment it was sent. */
  lemma SessionsAreApart(limit: nat, events: seq<Event>, a: TaskId, b: TaskId)
    requires After(limit, events).Some?
    requires var s := After(limit, events).value;
      a in s.tasks && b in s.tasks && a != b && Busy(s.tasks[a]) && Busy(s.tasks[b])
    ensures var s := After(limit, events).value; s.tasks[a].session != s.tasks[b].session
  {
    RunKeeps(limit, events);
  }

  /** One task at most resolves its claims. */
  lemma OneResolves(limit: nat, events: seq<Event>, a: TaskId, b: TaskId)
    requires After(limit, events).Some?
    requires var s := After(limit, events).value;
      a in s.tasks && b in s.tasks && s.tasks[a].stage.Resolving? && s.tasks[b].stage.Resolving?
    ensures a == b
  {
    RunKeeps(limit, events);
    var s := After(limit, events).value;
    assert TicketOk(s.lane, Entries(events), a, s.tasks[a].stage);
    assert TicketOk(s.lane, Entries(events), b, s.tasks[b].stage);
  }

  /** Tasks start to resolve in the order in which they entered the lane. */
  lemma FirstInFirstOut(limit: nat, events: seq<Event>)
    requires After(limit, events).Some?
    ensures Starts(events) <= Entries(events)
  {
    RunKeeps(limit, events);
  }

  /** The lane is never stuck: while a task is queued, one resolves or the first
      of the queue may start, even if those before it failed. */
  lemma LaneMoves(limit: nat, events: seq<Event>, id: TaskId)
    requires After(limit, events).Some?
    requires var s := After(limit, events).value; id in s.tasks && s.tasks[id].stage.Queued?
    ensures var s := After(limit, events).value;
      exists other :: other in s.tasks && (s.tasks[other].stage.Resolving? || Enabled(s, StartResolving(other)))
  {
    RunKeeps(limit, events);
    var s, entries := After(limit, events).value, Entries(events);
    assert TicketOk(s.lane, entries, id, s.tasks[id].stage);
    hide After, SessionsOk, LimitOk, WaitsOk, Entries, Starts;
    var k := s.lane.started;
    if k > 0 && !s.lane.released[k - 1] {
      var holder := entries[k - 1];
      assert Holds(s.tasks[holder], k - 1) && TicketOk(s.lane, entries, holder, s.tasks[holder].stage);
      assert s.tasks[holder].stage.Resolving?;
    } else {
      var first := entries[k];
      assert Holds(s.tasks[first], k) && TicketOk(s.lane, entries, first, s.tasks[first].stage);
      TailResolvedIs(s.lane.released, k);
      assert Enabled(s, StartResolving(first));
    }
  }

  /** Without the lock there is no task left, no session taken and nobody in the lane. */
  lemma SettledBeforeUnlock(limit: nat, events: seq<Event>)
    requires After(limit, events).Some?
    requires After(limit, events).value.phase == Unlocked || After(limit, events).value.phase.Resting?
    ensures var s := After(limit, events).value;
      s.tasks == map[] && s.sessions == {} && forall t :: 0 <= t < |s.lane.released| ==> s.lane.released[t]
  {
    RunKeeps(limit, events);
    var s, entries := After(limit, events).value, Entries(events);
    assert forall t :: 0 <= t < |entries| && !s.lane.released[t] ==> entries[t] in s.tasks;
  }

  /** A loop that waits has not missed a stop, a wake or a free slot. */
  lemma WaitsAreWarranted(limit: nat, events: seq<Event>)
    requires After(limit, events).Some?
    ensures var s := After(limit, events).value;
      && (s.phase == WaitingForSlot(false) ==> !s.stopping && |s.tasks| == limit)
      && (s.phase.Sleeping? && !s.phase.woken ==> !s.stopping && (s.phase.allowWake ==> !s.wakeRequested))
      && (s.phase == Resting(false) ==> !s.stopping && !s.wakeRequested)
  {
    RunKeeps(limit, events);
  }

  /** A completion wakes a sleeping loop exactly if the loop listens and may be woken
      or is stopping; during a claim nobody listens. */
  lemma CompletionWakes(s: State, id: TaskId)
    requires Enabled(s, Settle(id)) && s.phase.Sleeping? && !s.phase.woken
    ensures Next(s, Settle(id)).phase.woken <==> s.phase.listening && (s.phase.allowWake || s.stopping)
    ensures Next(s, Settle(id)).phase.Sleeping?
  {
  }

  /** The loop sleeps on with nobody to wake it, though a session that its claim
      left out has become free. */
  ghost predicate SleepsOverFreeSession(s: State, excluded: set<Session>) {
    && s.phase.Sleeping? && !s.phase.woken
    && exists x :: x in excluded && x !in s.sessions
  }

  /** The sessions of all tasks, also of those that have yet to settle. */
  function TaskSessions(s: State): set<Session> {
    set id | id in s.tasks :: s.tasks[id].session
  }

  /** The same, with no completion of that session still to come. */
  ghost predicate SleepsOverSettledSession(s: State, excluded: set<Session>) {
    && s.phase.Sleeping? && !s.phase.woken
    && exists x :: x in excluded && x !in TaskSessions(s)
  }

  /** In every reachable state, an empty answer to a claim leaves the loop asleep over
      a session that has become free in the meantime exactly if the loop is not
      stopping, nobody has asked it to wake, and the sessions are no longer those that
      the claim left out. And no completion of such a session is still to come exactly
      if some session that was left out has no task at all any more. */
  lemma CompletionIsMissedIff(limit: nat, events: seq<Event>)
    requires After(limit, events).Some? && After(limit, events).value.phase.Claiming?
    ensures var s := After(limit, events).value;
      SleepsOverFreeSession(Next(s, Claimed(None)), s.phase.excluded)
      <==> !s.stopping && !s.wakeRequested && s.phase.excluded != s.sessions
    ensures var s := After(limit, events).value;
      SleepsOverSettledSession(Next(s, Claimed(None)), s.phase.excluded)
      <==> !s.stopping && !s.wakeRequested && !(s.phase.excluded <= TaskSessions(s))
  {
    RunKeeps(limit, events);
    var s := After(limit, events).value;
    assert s.sessions <= s.phase.excluded;
    assert s.phase.excluded != s.sessions <==> exists x :: x in s.phase.excluded && x !in s.sessions;
  }

  /** A task that works ends while a claim leaves its session out. */
  function MissedRun(id: TaskId, session: Session): seq<Event> {
    [Relock, Turn, Claimed(Some((id, session))), Turn, Process(id, false), Settle(id), Claimed(None)]
  }

  /** Such a run: the loop sleeps with no task left, and the session is free. */
  lemma CompletionIsMissed(limit: nat, id: TaskId, session: Session)
    requires limit >= 2
    ensures var s := After(limit, MissedRun(id, session));
      && s.Some? && s.value.tasks == map[] && session !in s.value.sessions
      && s.value.phase == Sleeping(false, true, false)
      && SleepsOverFreeSession(s.value, {session}) && SleepsOverSettledSession(s.value, {session})
  {
    var e := MissedRun(id, session);
    var s := Idle(limit);
    var done := Done(limit, id, session);
    ClaimIsOut(limit, id, session);
    LastSteps(limit, id, session);
    hide After, Next, Enabled, Idle, Busily, Done;
    Appends(limit, e, 4, Busily(limit, id, session).(phase := Claiming({session})), done);
    Appends(limit, e, 5, done, done.(tasks := map[]));
    Appends(limit, e, 6, done.(tasks := map[]), s.(phase := Sleeping(false, true, false)));
    assert e[..7] == e;
    IdleIs(limit);
  }

  /** A loop with nothing to do, one with a task, and one whose task has ended. */
  function Idle(limit: nat): State {
    State(limit, map[], {}, Lane([], 0), Turning, false, false, false)
  }

  function Busily(limit: nat, id: TaskId, session: Session): State {
    Idle(limit).(tasks := map[id := Task(session, Working)], sessions := {session})
  }

  function Done(limit: nat, id: TaskId, session: Session): State {
    Idle(limit).(tasks := map[id := Task(session, Processed)], phase := Claiming({session}))
  }

  lemma IdleIs(limit: nat)
    ensures Idle(limit).tasks == map[] && Idle(limit).sessions == {}
  {
  }

  lemma ClaimIsOut(limit: nat, id: TaskId, session: Session)
    requires limit >= 2
    ensures After(limit, MissedRun(id, session)[..4]) == Some(Busily(limit, id, session).(phase := Claiming({session})))
  {
    var e := MissedRun(id, session);
    var s, busy := Idle(limit), Busily(limit, id, session);
    assert After(limit, e[..0]) == Some(Start(limit));
    FirstSteps(limit, id, session);
    hide After, Next, Enabled, Idle, Busily;
    Appends(limit, e, 0, Start(limit), s);
    Appends(limit, e, 1, s, s.(phase := Claiming({})));
    Appends(limit, e, 2, s.(phase := Claiming({})), busy);
    Appends(limit, e, 3, busy, busy.(phase := Claiming({session})));
  }

  predicate Goes(s: State, e: Event, next: State) {
    Enabled(s, e) && next == Next(s, e)
  }

  lemma FirstSteps(limit: nat, id: TaskId, session: Session)
    requires limit >= 2
    ensures var s, busy := Idle(limit), Busily(limit, id, session);
      && Goes(Start(limit), Relock, s)
      && Goes(s, Turn, s.(phase := Claiming({})))
      && Goes(s.(phase := Claiming({})), Claimed(Some((id, session))), busy)
      && Goes(busy, Turn, busy.(phase := Claiming({session})))
  {
    hide TailResolved;
  }

  lemma LastSteps(limit: nat, id: TaskId, session: Session)
    ensures var busy, done := Busily(limit, id, session), Done(limit, id, session);
      && Goes(busy.(phase := Claiming({session})), Process(id, false), done)
      && Goes(done, Settle(id), done.(tasks := map[]))
      && Goes(done.(tasks := map[]), Claimed(None), Idle(limit).(phase := Sleeping(false, true, false)))
  {
    var busy, done := Busily(limit, id, session), Done(limit, id, session);
    assert busy.tasks[id := Task(session, Processed)] == done.tasks;
    assert done.tasks - {id} == map[];
    hide TailResolved;
  }

  lemma Appends(limit: nat, events: seq<Event>, n: nat, s: State, next: State)
    requires n < |events| && After(limit, events[..n]) == Some(s) && Goes(s, events[n], next)
    ensures After(limit, events[..n + 1]) == Some(next)
  {
    assert events[..n + 1][..n] == events[..n];
  }
}
