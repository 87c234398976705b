/** The worker as it runs: the fields of the loop, of its tasks and of the lane, and
    the code between two waits. Each method is its event in WorkerModel. */
module WorkerService {
  import opened Wrappers
  import M = WorkerModel
  import opened WorkerModel
  import opened WorkerTheorems

  class Worker {
    const concurrency: nat
    var stopping: bool
    var wakeRequested: bool
    var staleBackoff: bool
    var activeTasks: map<TaskId, Task>
    var activeSessions: set<Session>
    /** The promises of the lane; the tail waits for all of them. */
    var released: seq<bool>
    var phase: Phase
    ghost var entries: seq<TaskId>
    ghost var starts: seq<TaskId>

    ghost function State(): M.State
      reads this
    {
      M.State(concurrency, activeTasks, activeSessions, Lane(released, |starts|), phase, stopping, wakeRequested, staleBackoff)
    }

    ghost predicate Valid()
      reads this
    {
      Inv(State(), entries, starts)
    }

    /** One event happened to the worker. */
    twostate predicate Did(e: Event)
      reads this
    {
      && Enabled(old(State()), e) && State() == Next(old(State()), e)
      && entries == old(entries) + NewEntry(e) && starts == old(starts) + NewStart(e)
    }

    twostate lemma Keeps(e: Event)
      requires old(Valid()) && Did(e)
      ensures Valid()
    {
      hide LaneOk, SessionsOk, LimitOk, WaitsOk, Next, Enabled;
      LaneKeeps(old(State()), e, old(entries), old(starts));
      SessionsKeep(old(State()), e);
      LimitKeeps(old(State()), e);
      WaitsKeep(old(State()), e);
    }

    constructor (concurrency: nat)
      ensures Valid() && State() == Start(concurrency) && this.concurrency == concurrency
    {
      this.concurrency := concurrency;
      stopping, wakeRequested, staleBackoff := false, false, false;
      activeTasks, activeSessions, released, phase := map[], {}, [], Unlocked;
      entries, starts := [], [];
    }

    // ----- waking -----

    method WakeWaiters()
      requires Valid()
      modifies this`wakeRequested, this`phase
      ensures State() == Woken(old(State()))
    {
      wakeRequested := true;
      match phase {
        case WaitingForSlot(_) => phase := WaitingForSlot(true);
        case Sleeping(listening, allowWake, woken) => phase := Sleeping(listening, allowWake, woken || allowWake || stopping);
        case Resting(_) => phase := Resting(true);
        case _ =>
      }
    }

    method WakeUp()
      requires Valid()
      modifies this
      ensures Valid() && Did(Wake)
    {
      WakeWaiters();
      Keeps(Wake);
    }

    method StopWorking()
      requires Valid()
      modifies this
      ensures Valid() && Did(Stop)
    {
      hide LaneOk, SessionsOk, LimitOk;
      stopping := true;
      wakeRequested := true;
      match phase {
        case WaitingForSlot(_) => phase := WaitingForSlot(true);
        case Sleeping(listening, allowWake, _) => phase := Sleeping(listening, allowWake, true);
        case Resting(_) => phase := Resting(true);
        case _ =>
      }
      Keeps(Stop);
    }

    // ----- the loop -----

    method WaitForWork(listening: bool, allowWake: bool, awake: Phase)
      modifies this`wakeRequested, this`phase
      ensures State() == Rest(old(State()), listening, allowWake, awake)
    {
      if stopping {
        phase := awake;
      } else if allowWake && wakeRequested {
        wakeRequested := false;
        phase := awake;
      } else {
        phase := Sleeping(listening, allowWake, false);
      }
    }

    /** One turn of the loop, up to what it waits for next. */
    method WorkLoop()
      requires Valid() && (phase == Turning || phase == Proceeding)
      modifies this
      ensures Valid() && Did(Turn)
    {
      hide LaneOk, SessionsOk, LimitOk, WaitsOk;
      if stopping {
        phase := Draining;
      } else if phase == Turning && staleBackoff {
        staleBackoff := false;
        WaitForWork(false, false, Proceeding);
      } else if |activeTasks| >= concurrency {
        phase := WaitingForSlot(false);
      } else {
        phase := Claiming(activeSessions);
      }
      Keeps(Turn);
    }

    method WaitEnds()
      requires Valid() && Enabled(State(), Resume)
      modifies this
      ensures Valid() && Did(Resume)
    {
      hide LaneOk, SessionsOk, LimitOk, WaitsOk;
      if phase.WaitingForSlot? {
        phase := if stopping then Draining else Turning;
      } else if phase.Resting? {
        wakeRequested := false;
        phase := Unlocked;
      } else {
        wakeRequested := false;
        phase := if phase.allowWake then Turning else Proceeding;
      }
      Keeps(Resume);
    }

    /** The claim is answered with a job of a session that it did not exclude, or none. */
    method ClaimAnswered(job: Option<(TaskId, Session)>)
      requires Valid() && Enabled(State(), Claimed(job))
      modifies this
      ensures Valid() && Did(Claimed(job))
    {
      hide LaneOk, SessionsOk, LimitOk, WaitsOk;
      if job.Some? {
        var (id, session) := job.value;
        activeSessions := activeSessions + {session};
        activeTasks := activeTasks[id := Task(session, Working)];
      }
      if stopping {
        phase := Draining;
      } else if job.None? {
        WaitForWork(|activeTasks| > 0, true, Turning);
      } else {
        phase := Turning;
      }
      Keeps(Claimed(job));
    }

    method ClaimThrows()
      requires Valid() && Enabled(State(), LoopFails)
      modifies this
      ensures Valid() && Did(LoopFails)
    {
      hide LaneOk, SessionsOk, LimitOk, WaitsOk;
      phase := Draining;
      Keeps(LoopFails);
    }

    /** The lock is taken and a new loop starts with nothing. */
    method Lock()
      requires Valid() && Enabled(State(), Relock)
      modifies this
      ensures Valid() && Did(Relock)
    {
      hide LaneOk, SessionsOk, LimitOk, WaitsOk;
      activeTasks, activeSessions, staleBackoff, phase := map[], {}, false, Turning;
      Keeps(Relock);
    }

    /** There is no lock to be had, or the loop has failed: rest before the next try. */
    method RestWithoutLock()
      requires Valid() && Enabled(State(), NoLock)
      modifies this
      ensures Valid() && Did(NoLock)
    {
      hide LaneOk, SessionsOk, LimitOk, WaitsOk;
      if !stopping {
        if wakeRequested {
          wakeRequested := false;
        } else {
          phase := Resting(false);
        }
      }
      Keeps(NoLock);
    }

    /** All tasks have settled, so the lock may go. */
    method Unlock()
      requires Valid() && Enabled(State(), Drained)
      modifies this
      ensures Valid() && Did(Drained) && activeTasks == map[] && activeSessions == {}
    {
      phase := Unlocked;
      Keeps(Drained);
    }

    // ----- a task -----

    /** Take a promise behind all the others. */
    method EnterTheLane(id: TaskId)
      requires Valid() && Enabled(State(), EnterLane(id))
      modifies this
      ensures Valid() && Did(EnterLane(id))
    {
      hide LaneOk, SessionsOk, LimitOk, WaitsOk;
      activeTasks := activeTasks[id := activeTasks[id].(stage := Queued(|released|))];
      released := released + [false];
      entries := entries + [id];
      Keeps(EnterLane(id));
    }

    /** The tail it found has resolved: nobody else is in the lane. */
    method StartInLane(id: TaskId)
      requires Valid() && Enabled(State(), StartResolving(id))
      modifies this
      ensures Valid() && Did(StartResolving(id))
      ensures forall other :: other in activeTasks && other != id ==> !activeTasks[other].stage.Resolving?
    {
      activeTasks := activeTasks[id := activeTasks[id].(stage := Resolving(activeTasks[id].stage.ticket))];
      starts := starts + [id];
      hide LaneOk, SessionsOk, LimitOk, WaitsOk;
      Keeps(StartResolving(id));
      Alone(State(), entries, starts, id);
    }

    /** The operation is over, with a result or with an error. */
    method LeaveTheLane(id: TaskId)
      requires Valid() && Enabled(State(), LeaveLane(id))
      modifies this
      ensures Valid() && Did(LeaveLane(id))
    {
      hide LaneOk, SessionsOk, LimitOk, WaitsOk;
      released := released[activeTasks[id].stage.ticket := true];
      activeTasks := activeTasks[id := activeTasks[id].(stage := Working)];
      Keeps(LeaveLane(id));
    }

    method Processed(id: TaskId, stale: bool)
      requires Valid() && Enabled(State(), Process(id, stale))
      modifies this
      ensures Valid() && Did(Process(id, stale))
    {
      hide LaneOk, SessionsOk, LimitOk, WaitsOk;
      if stale { staleBackoff := true; }
      activeSessions := activeSessions - {activeTasks[id].session};
      activeTasks := activeTasks[id := activeTasks[id].(stage := M.Processed)];
      Keeps(Process(id, stale));
    }

    method Settled(id: TaskId)
      requires Valid() && Enabled(State(), Settle(id))
      modifies this
      ensures Valid() && Did(Settle(id))
    {
      hide LaneOk, SessionsOk, LimitOk, WaitsOk;
      activeTasks := activeTasks - {id};
      match phase {
        case WaitingForSlot(_) => phase := WaitingForSlot(true);
        case Sleeping(true, allowWake, woken) =>
          wakeRequested := true;
          phase := Sleeping(true, allowWake, woken || allowWake || stopping);
        case _ =>
      }
      Keeps(Settle(id));
    }
  }

  lemma Alone(s: M.State, entries: seq<TaskId>, starts: seq<TaskId>, id: TaskId)
    requires LaneOk(s, entries, starts) && id in s.tasks && s.tasks[id].stage.Resolving?
    ensures forall other :: other in s.tasks && other != id ==> !s.tasks[other].stage.Resolving?
  {
    assert TicketOk(s.lane, entries, id, s.tasks[id].stage);
    forall other | other in s.tasks && other != id ensures !s.tasks[other].stage.Resolving? {
      assert TicketOk(s.lane, entries, other, s.tasks[other].stage);
    }
  }
}
