/** What the loop does with its tasks, and not only what it must not do. */
module WorkerProgress {
  import opened Wrappers
  import opened WorkerModel
  import opened WorkerTheorems

  /** A loop that sleeps after an empty answer is woken by the first completion: in
      every reachable state of such a sleep, the completion of any task that is still
      there leaves it woken. */
  lemma CompletionEndsSleep(limit: nat, events: seq<Event>, id: TaskId)
    requires After(limit, events + [Settle(id)]).Some?
    requires var s := After(limit, events);
      s.Some? && s.value.phase.Sleeping? && s.value.phase.allowWake
    ensures var s := After(limit, events + [Settle(id)]).value;
      s.phase.Sleeping? && s.phase.woken
  {
    AfterStep(limit, events, Settle(id));
    RunKeeps(limit, events);
    hide After, LaneOk, SessionsOk, LimitOk;
  }

  lemma AfterStep(limit: nat, events: seq<Event>, e: Event)
    ensures var s := After(limit, events);
      After(limit, events + [e]) == if s.Some? && Enabled(s.value, e) then Some(Next(s.value, e)) else None
  {
    assert (events + [e])[..|events|] == events;
  }

  /** The tasks' own events. */
  predicate OfTask(e: Event) {
    e.EnterLane? || e.StartResolving? || e.LeaveLane? || e.Process? || e.Settle?
  }

  predicate AllOfTasks(events: seq<Event>) {
    forall i :: 0 <= i < |events| ==> OfTask(events[i])
  }

  ghost predicate SettlesIn(events: seq<Event>, id: TaskId) {
    exists i :: 0 <= i < |events| && events[i] == Settle(id)
  }

  /** While only tasks run: they are some of those in flight at the start, nobody stops
      the loop, and it is woken once one of them has settled. */
  ghost predicate SleepsBeside(start: State, s: State, work: seq<Event>) {
    && s.phase.Sleeping? && s.phase.allowWake && s.tasks.Keys <= start.tasks.Keys
    && ((exists id :: SettlesIn(work, id)) ==> s.phase.woken)
  }

  lemma {:induction false} WorkWakes(limit: nat, before: seq<Event>, work: seq<Event>)
    requires After(limit, before).Some? && After(limit, before + work).Some? && AllOfTasks(work)
    requires var start := After(limit, before).value; start.phase.Sleeping? && start.phase.allowWake
    ensures SleepsBeside(After(limit, before).value, After(limit, before + work).value, work)
    decreases |work|
  {
    hide *;
    if work == [] {
      assert before + work == before;
      NothingSettles(After(limit, before).value);
    } else {
      var n := |work| - 1;
      var less, e := work[..n], work[n];
      assert before + work == before + less + [e];
      AfterStep(limit, before + less, e);
      FirstOfTasks(work);
      WorkWakes(limit, before, less);
      var s := After(limit, before + less).value;
      RunKeeps(limit, before + less);
      SleepsOn(After(limit, before).value, s, work, Entries(before + less), Starts(before + less));
    }
  }

  lemma NothingSettles(s: State)
    requires s.phase.Sleeping? && s.phase.allowWake
    ensures SleepsBeside(s, s, [])
  {
  }

  lemma FirstOfTasks(work: seq<Event>)
    requires AllOfTasks(work) && work != []
    ensures AllOfTasks(work[..|work| - 1]) && OfTask(work[|work| - 1])
  {
  }

  /** One event of a task more. */
  lemma SleepsOn(start: State, s: State, work: seq<Event>, entries: seq<TaskId>, starts: seq<TaskId>)
    requires work != [] && Inv(s, entries, starts) && SleepsBeside(start, s, work[..|work| - 1])
    requires OfTask(work[|work| - 1]) && Enabled(s, work[|work| - 1])
    ensures SleepsBeside(start, Next(s, work[|work| - 1]), work)
  {
    var e := work[|work| - 1];
    TaskStepSleeps(s, e);
    hide Next, Enabled, OfTask, LaneOk, SessionsOk, LimitOk, WaitsOk;
    if exists id :: SettlesIn(work, id) {
      var id :| SettlesIn(work, id);
      SettlesSnoc(work, id);
    }
  }

  lemma SettlesSnoc(work: seq<Event>, id: TaskId)
    requires work != [] && SettlesIn(work, id)
    ensures SettlesIn(work[..|work| - 1], id) || work[|work| - 1] == Settle(id)
  {
    var i :| 0 <= i < |work| && work[i] == Settle(id);
    if i < |work| - 1 { assert work[..|work| - 1][i] == Settle(id); }
  }

  lemma TaskStepSleeps(s: State, e: Event)
    requires WaitsOk(s) && Enabled(s, e) && OfTask(e) && s.phase.Sleeping? && s.phase.allowWake
    ensures var after := Next(s, e);
      && after.phase.Sleeping? && after.phase.allowWake && after.tasks.Keys <= s.tasks.Keys
      && (s.phase.woken || e.Settle? ==> after.phase.woken)
  {
    hide TailResolved;
  }

  /** The loop sleeps and has been woken. */
  predicate IsWoken(s: State) {
    s.phase.Sleeping? && s.phase.woken
  }

  /** A claim comes back empty, nobody has asked the loop to wake and it is not
      stopping: it goes to sleep beside the tasks that are in flight, and once one of
      them settles it has been woken, whatever the tasks do in between. */
  lemma EmptyAnswerWaitsForTasks(limit: nat, events: seq<Event>, work: seq<Event>, id: TaskId)
    requires After(limit, events).Some? && Enabled(After(limit, events).value, Claimed(None))
    requires var s := After(limit, events).value; !s.stopping && !s.wakeRequested
    requires After(limit, events + [Claimed(None)] + work).Some? && AllOfTasks(work)
    ensures var asleep := After(limit, events + [Claimed(None)]);
      && asleep.Some? && asleep.value.phase.Sleeping? && !asleep.value.phase.woken
      && asleep.value.tasks == After(limit, events).value.tasks
    ensures SettlesIn(work, id) ==> IsWoken(After(limit, events + [Claimed(None)] + work).value)
  {
    AfterStep(limit, events, Claimed(None));
    hide After;
    WorkWakes(limit, events + [Claimed(None)], work);
  }

  // ----- jobs and slots -----

  /** A claimed job is always taken on, also by a loop that is stopping. */
  lemma ClaimedJobIsTakenOn(limit: nat, events: seq<Event>, id: TaskId, session: Session)
    requires After(limit, events + [Claimed(Some((id, session)))]).Some?
    ensures var s := After(limit, events + [Claimed(Some((id, session)))]).value;
      && id in s.tasks && s.tasks[id] == Task(session, Working) && session in s.sessions
      && forall other :: other in s.tasks && other != id ==>
           other in After(limit, events).value.tasks && s.tasks[other] == After(limit, events).value.tasks[other]
  {
    AfterStep(limit, events, Claimed(Some((id, session))));
  }

  /** A loop at its turn that is not stopping and need not back off claims exactly if a
      slot is free, and leaves out exactly the sessions of the tasks being processed. */
  lemma FreeSlotIsClaimedFor(limit: nat, events: seq<Event>)
    requires After(limit, events).Some?
    requires var s := After(limit, events).value; s.phase == Turning && !s.stopping && !s.staleBackoff
    ensures var s, t := After(limit, events).value, After(limit, events + [Turn]);
      && t.Some?
      && (t.value.phase.Claiming? <==> |s.tasks| < limit)
      && (t.value.phase.Claiming? ==> forall x ::
            x in t.value.phase.excluded <==> exists id :: id in s.tasks && Busy(s.tasks[id]) && s.tasks[id].session == x)
  {
    AfterStep(limit, events, Turn);
    RunKeeps(limit, events);
    hide After, LaneOk, WaitsOk, TailResolved;
  }

  /** A free slot ends the wait for one. */
  lemma CompletionFreesSlot(limit: nat, events: seq<Event>, id: TaskId)
    requires After(limit, events + [Settle(id)]).Some? && After(limit, events).value.phase.WaitingForSlot?
    ensures var s := After(limit, events + [Settle(id)]).value;
      s.phase == WaitingForSlot(true) && |s.tasks| < limit && Enabled(s, Resume)
  {
    AfterStep(limit, events, Settle(id));
    RunKeeps(limit, events);
    SizeWithout(After(limit, events).value.tasks, id);
    hide After, LaneOk, SessionsOk;
  }

  // ----- backing off -----

  /** The loop has to wait before it claims again: a task was stale and no backoff has
      ended since. */
  predicate BacksOff(s: State) {
    || (s.staleBackoff && (s.phase == Turning || s.phase.WaitingForSlot? || (s.phase.Sleeping? && s.phase.allowWake)))
    || (s.phase.Sleeping? && !s.phase.allowWake)
    || s.phase == Draining || s.phase == Unlocked || s.phase.Resting?
  }

  predicate EndsBackoff(s: State, e: Event) {
    (e.Resume? && s.phase.Sleeping? && !s.phase.allowWake) || e.Relock?
  }

  /** After a stale task no claim is sent before a backoff has ended, or the loop itself:
      nothing else ends this state, and in it no claim is out. */
  lemma StaleBacksOff(s: State, e: Event)
    requires BacksOff(s) && Enabled(s, e) && !EndsBackoff(s, e) && !s.stopping
    ensures BacksOff(Next(s, e)) && !Next(s, e).phase.Claiming?
  {
    hide TailResolved;
  }

  /** A stale result puts a loop at its turn or asleep into it. */
  lemma StaleStartsBackoff(s: State, id: TaskId)
    requires Enabled(s, Process(id, true))
    requires s.phase == Turning || s.phase.WaitingForSlot? || s.phase.Sleeping?
    ensures BacksOff(Next(s, Process(id, true)))
  {
  }

  // ----- going on -----

  /** A loop that is not stopping goes on after every wait: to its next turn, or behind a
      backoff to the rest of its turn, which claims if a slot is free. */
  lemma LoopGoesOn(limit: nat, events: seq<Event>)
    requires After(limit, events + [Resume]).Some? && !After(limit, events + [Resume]).value.stopping
    ensures var before, s := After(limit, events).value.phase, After(limit, events + [Resume]).value.phase;
      && (before.WaitingForSlot? ==> s == Turning)
      && (before.Sleeping? ==> s == if before.allowWake then Turning else Proceeding)
      && (before.Resting? ==> s == Unlocked)
  {
    AfterStep(limit, events, Resume);
    hide After;
  }

  lemma BackoffThenClaims(limit: nat, events: seq<Event>)
    requires After(limit, events).Some?
    requires var s := After(limit, events).value; s.phase == Proceeding && !s.stopping && |s.tasks| < limit
    ensures var s := After(limit, events + [Turn]); s.Some? && s.value.phase == Claiming(After(limit, events).value.sessions)
  {
    AfterStep(limit, events, Turn);
    RunKeeps(limit, events);
    hide After, LaneOk, SessionsOk, WaitsOk;
  }

  // ----- stopping -----

  /** A stopping loop claims no more: its next steps lead to draining. */
  lemma StoppingClaimsNoMore(s: State, e: Event)
    requires s.stopping && !s.phase.Claiming? && Enabled(s, e)
    ensures Next(s, e).stopping && !Next(s, e).phase.Claiming? && e != Relock
    ensures (e == Turn ==> Next(s, e).phase == Draining) && (s.phase.WaitingForSlot? && e == Resume ==> Next(s, e).phase == Draining)
  {
    hide TailResolved;
  }
}
