/** What each transaction decides: retries below the budget, the end of the budget,
    recovery, the operator's actions, and what a claim brings along. */
module QueueOutcomes {
  import opened Wrappers
  import opened QueueModel
  import opened QueueInvariant
  import opened QueueRuns
  import opened QueueTheorems

  // ----- failed attempts -----

  /** Only row `id` differs. */
  ghost predicate OnlyRow(s: Store, s': Store, id: nat) {
    && s'.jobs.Keys == s.jobs.Keys && id in s.jobs
    && forall i :: i in s.jobs && i != id ==> s'.jobs[i] == s.jobs[i]
  }

  /** The row waits or has failed, and is otherwise what was claimed. */
  ghost predicate GivenBack(j: Job, c: Claim, before: Job, again: bool) {
    && j.snap == c.snap == before.snap && j.payload == before.payload && j.priority == before.priority
    && j.attempts == c.attempts && j.recoveries == before.recoveries && j.lease == None
    && (j.status == Pending <==> again) && (j.status == Failed <==> !again)
  }

  /** A failed attempt of a current claim goes back to waiting exactly if it is not
      terminal and the claimed attempt is below the budget. */
  lemma FailureDecides(w: World, c: Claim, terminal: bool, budget: nat)
    requires RunOk(w, budget) && c in w.issued && Current(w.store, c)
    ensures var s' := Next(w, FailBy(c, terminal), budget).store;
      && s'.target == w.store.target && s'.segment == w.store.segment
      && OnlyRow(w.store, s', c.job)
      && GivenBack(s'.jobs[c.job], c, w.store.jobs[c.job], !terminal && c.attempts < budget)
  {
    assert ClaimOk(w.store, c);
  }

  /** So below the budget the job is claimed again without anybody's help: the same
      snapshot, one attempt later. */
  lemma FailureIsClaimedAgain(w: World, c: Claim, budget: nat) returns (again: Claim)
    requires RunOk(w, budget) && budget > 0 && c in w.issued && Current(w.store, c) && c.attempts < budget
    ensures var v := Run(w, [FailBy(c, false), ClaimNext(c.job)], budget);
      && again in v.issued && Current(v.store, again)
      && again.job == c.job && again.snap == c.snap && again.attempts == c.attempts + 1
      && again.lease == w.store.nextLease
  {
    var e1, e2 := FailBy(c, false), ClaimNext(c.job);
    var w1 := Next(w, e1, budget);
    FailureDecides(w, c, false, budget);
    NextOk(w, e1, budget);
    OnlyRunning(w.store, c.job);
    assert !AnyRunning(w1.store.jobs);
    hide FinishFailed;
    ClaimsNeverPoison(w1.store, c.job);
    again := ClaimJob(w1.store, c.job).1.value;
    assert [e1, e2][1..] == [e2] && [e2][1..] == [];
    assert Run(w, [e1, e2], budget) == Run(w1, [e2], budget) == Run(Next(w1, e2, budget), [], budget);
  }

  /** A waiting target whose job has had n attempts. */
  ghost predicate Waits(s: Store, n: nat) {
    && s.target.Some? && s.target.value.job in s.jobs
    && s.jobs[s.target.value.job].status == Pending && s.jobs[s.target.value.job].attempts == n
    && !AnyRunning(s.jobs)
  }

  lemma OneAttempt(w: World, n: nat, budget: nat) returns (es: seq<Event>)
    requires RunOk(w, budget) && budget > 0 && Waits(w.store, n)
    ensures |es| == 2
    ensures var v := Run(w, es, budget);
      && v.store.target == w.store.target && !AnyRunning(v.store.jobs)
      && w.store.target.value.job in v.store.jobs
      && var j := v.store.jobs[w.store.target.value.job];
         j.attempts == n + 1 && j.status == (if n + 1 < budget then Pending else Failed)
  {
    var id := w.store.target.value.job;
    ClaimsNeverPoison(w.store, id);
    var c := ClaimJob(w.store, id).1.value;
    var w1 := Next(w, ClaimNext(id), budget);
    NextOk(w, ClaimNext(id), budget);
    assert Current(w1.store, c) && c.attempts == n + 1;
    FailureDecides(w1, c, false, budget);
    OnlyRunning(w1.store, id);
    es := [ClaimNext(id), FailBy(c, false)];
    assert es[1..] == [FailBy(c, false)] && [FailBy(c, false)][1..] == [];
    assert Run(w, es, budget) == Run(w1, es[1..], budget) == Run(Next(w1, FailBy(c, false), budget), [], budget);
    hide FinishFailed, ClaimJob;
  }

  lemma {:induction false} RunJoins(w: World, a: seq<Event>, b: seq<Event>, budget: nat)
    ensures Run(w, a + b, budget) == Run(Run(w, a, budget), b, budget)
    decreases |a|
  {
    hide Next;
    if a == [] {
      assert a + b == b;
    } else {
      assert (a + b)[0] == a[0] && (a + b)[1..] == a[1..] + b;
      RunJoins(Next(w, a[0], budget), a[1..], b, budget);
    }
  }

  /** A job that always fails is tried as often as the budget says, and no more:
      n attempts are left to it, and after them it has failed for good. */
  lemma {:induction false} BudgetRunsOut(w: World, n: nat, budget: nat) returns (es: seq<Event>)
    requires RunOk(w, budget) && n < budget && Waits(w.store, n)
    ensures |es| == 2 * (budget - n)
    ensures var v := Run(w, es, budget);
      && v.store.target == w.store.target
      && w.store.target.value.job in v.store.jobs
      && var j := v.store.jobs[w.store.target.value.job]; j.attempts == budget && j.status == Failed
    decreases budget - n
  {
    es := OneAttempt(w, n, budget);
    if n + 1 < budget {
      var v := Run(w, es, budget);
      RunKeeps(w, es, budget);
      var rest := BudgetRunsOut(v, n + 1, budget);
      RunJoins(w, es, rest, budget);
      es := es + rest;
    }
  }

  // ----- claims -----

  /** A claim of the waiting target brings along the staged result exactly if that may be used. */
  lemma ClaimReusesIff(s: Store)
    requires Inv(s) && s.target.Some? && s.jobs[s.target.value.job].status == Pending && !AnyRunning(s.jobs)
    ensures var t := s.target.value;
      var c := ClaimJob(s, t.job).1;
      && c.Some? && c.value.attempts == s.jobs[t.job].attempts + 1 && c.value.lease == s.nextLease
      && (c.value.extraction.Some? <==> t.staged.Some? && StagedEligible(t.staged.value, t.snap, s.validator))
      && (c.value.extraction.Some? ==> c.value.extraction.value == t.staged.value.extraction)
  {
    ClaimsNeverPoison(s, s.target.value.job);
  }

  // ----- recovery -----

  /** Recovery puts the interrupted target job back to waiting at the target's snapshot.
      It keeps its attempts if it ran at that snapshot and starts anew otherwise. Any
      other interrupted row is done with, and the rest stays. */
  lemma RecoveryDecides(s: Store, id: nat)
    requires Inv(s) && id in s.jobs
    ensures var s', j := Recover(s), s.jobs[id];
      && id in s'.jobs && s'.target == s.target && s'.segment == s.segment
      && (j.status != Running ==> s'.jobs[id] == j)
      && (j.status == Running && s.target.value.job != id ==> s'.jobs[id].status == Superseded && s'.jobs[id].lease == None)
      && (j.status == Running && s.target.value.job == id ==>
            && s'.jobs[id].status == Pending && s'.jobs[id].snap == s.target.value.snap
            && s'.jobs[id].payload == Some(s.target.value.payload) && s'.jobs[id].lease == None
            && s'.jobs[id].attempts == if j.snap == s.target.value.snap then j.attempts else 0)
  {
  }

  // ----- the operator -----

  /** A job can be retried or dismissed exactly if it is the target's and has failed. */
  lemma RetryableIff(s: Store, id: nat)
    requires Inv(s)
    ensures Retryable(s, id) <==> s.target.Some? && s.target.value.job == id && s.jobs[id].status == Failed
    ensures RetryFailed(s, id, true).1 == RetryFailed(s, id, false).1 == SupersedeFailed(s, id).1 == Retryable(s, id)
  {
    if s.target.Some? { TargetJobIsOpen(s); }
  }

  /** A retry leaves the target waiting with a fresh budget; its staged result is
      dropped exactly if the extraction is to start again. */
  lemma RetryDecides(s: Store, id: nat, restart: bool)
    requires Inv(s)
    ensures var s' := RetryFailed(s, id, restart).0;
      if Retryable(s, id) then
        && OnlyRow(s, s', id) && s'.segment == s.segment
        && s'.target == Some(s.target.value.(staged := if restart then None else s.target.value.staged))
        && s'.jobs[id].status == Pending && s'.jobs[id].attempts == 0 && s'.jobs[id].snap == s.target.value.snap
        && s'.jobs[id].payload == Some(s.target.value.payload)
      else s' == s
  {
  }

  /** A dismissal gives up the target and leaves the segment as it was. */
  lemma DismissalDecides(s: Store, id: nat)
    requires Inv(s)
    ensures var s' := SupersedeFailed(s, id).0;
      if Retryable(s, id) then
        && OnlyRow(s, s', id) && s'.segment == s.segment && s'.target == None && s'.jobs[id].status == Superseded
      else s' == s
  {
  }

  // ----- requests that find their content -----

  /** The same snapshot once more: the priority is the higher of the two. A failed job
      starts again exactly if its staged result cannot be used any more; a running
      job is left alone, and nothing else changes. */
  lemma RefreshDecides(s: Store, r: Request)
    requires Inv(s) && !LowerVersion(s, r) && TargetMatchesRequest(s.target, r)
    ensures var s', t := Enqueue(s, r).0, s.target.value;
      var reset := s.jobs[t.job].status == Failed && t.staged.Some? && !StagedEligible(t.staged.value, t.snap, s.validator);
      && OnlyRow(s, s', t.job) && s'.segment == s.segment && s'.target.Some?
      && s'.target.value.job == t.job && s'.target.value.snap == t.snap
      && (s'.target.value.priority == t.priority || s'.target.value.priority == r.priority)
      && t.priority <= s'.target.value.priority && r.priority <= s'.target.value.priority
      && s'.target.value.staged == (if reset then None else t.staged)
      && (s.jobs[t.job].status == Running ==> s'.jobs[t.job] == s.jobs[t.job])
      && (s.jobs[t.job].status != Running ==> s'.jobs[t.job].priority == s'.target.value.priority)
      && s'.jobs[t.job].status == (if reset then Pending else s.jobs[t.job].status)
      && s'.jobs[t.job].attempts == (if reset then 0 else s.jobs[t.job].attempts)
  {
    TargetJobIsOpen(s);
  }

  /** Content that is committed already leaves a row that has succeeded at the
      segment's snapshot, and changes neither target nor segment nor another row. */
  lemma SettleDecides(s: Store, r: Request, id: nat)
    requires Inv(s) && !LowerVersion(s, r) && AlreadyCommitted(s, r) && Enqueue(s, r).1 == Settled(id)
    ensures var s' := Enqueue(s, r).0;
      && s'.target == s.target == None && s'.segment == s.segment && id in s'.jobs
      && s'.jobs[id].status == Succeeded && s'.jobs[id].snap == s.segment.value.snap && s'.jobs[id].lease == None
      && forall i :: i in s.jobs && i != id ==> i in s'.jobs && s'.jobs[i] == s.jobs[i]
  {
    assert !AnyRunning(s.jobs);
  }
}
