/** What a key does, and not only what it must not do: when it posts, when it counts
    a retry as confirmed, and when it gives up. */
module RetryProgress {
  import opened Wrappers
  import opened RetryModel
  import opened RetryTheorems

  // ----- the log says what the state knows -----

  /** A retry was confirmed, and the key has not been cleared since. */
  ghost predicate ConfirmedSince(log: seq<Event>) {
    exists i :: 0 <= i < |log| && log[i].Confirmed? && !ClearedBetween(log, i, |log|)
  }

  lemma {:induction false} ConfirmedIff(log: seq<Event>)
    ensures Summarize(log).confirmed <==> ConfirmedSince(log)
  {
    if log != [] {
      var n := |log| - 1;
      var before := log[..n];
      ConfirmedIff(before);
      if log[n].Confirmed? {
        assert !ClearedBetween(log, n, |log|);
      } else if log[n].Cleared? {
        forall i | 0 <= i < |log| && log[i].Confirmed? ensures ClearedBetween(log, i, |log|) { assert i < n < |log|; }
      } else {
        ConfirmedBefore(log);
      }
    }
  }

  lemma ConfirmedBefore(log: seq<Event>)
    requires log != [] && !log[|log| - 1].Confirmed? && !log[|log| - 1].Cleared?
    ensures ConfirmedSince(log) <==> ConfirmedSince(log[..|log| - 1])
  {
    var n := |log| - 1;
    var before := log[..n];
    forall i | 0 <= i < n ensures ClearedBetween(log, i, |log|) <==> ClearedBetween(before, i, n) {
      if ClearedBetween(log, i, |log|) {
        var c :| i < c < |log| && log[c].Cleared?;
        assert c < n && before[c].Cleared?;
      }
      if ClearedBetween(before, i, n) {
        var c :| i < c < n && before[c].Cleared?;
        assert log[c].Cleared?;
      }
    }
    if ConfirmedSince(log) {
      var i :| 0 <= i < |log| && log[i].Confirmed? && !ClearedBetween(log, i, |log|);
      assert before[i].Confirmed?;
    }
    if ConfirmedSince(before) {
      var i :| 0 <= i < n && before[i].Confirmed? && !ClearedBetween(before, i, n);
      assert log[i].Confirmed?;
    }
  }

  /** The key and the log after a run. */
  lemma RunIs(inputs: seq<Input>)
    ensures var (k, log) := Run(inputs); Inv(k, Summarize(log)) && (k.retried <==> ConfirmedSince(log))
  {
    RunsAreAllowed(inputs);
    ConfirmedIff(Run(inputs).1);
  }

  lemma RunStep(inputs: seq<Input>, i: Input)
    ensures var (k, log) := Run(inputs); Run(inputs + [i]) == (Next(k, i).state, log + Next(k, i).events)
  {
    assert (inputs + [i])[..|inputs|] == inputs;
  }

  // ----- giving up -----

  lemma GivesUpConfirmed(k: KeyState, s: Summary, i: Input)
    requires Inv(k, s) && Next(k, i).outcome == Done(Err(StillFailed))
    ensures Next(k, i).state.retried
  {
  }

  /** A call ends with "remained failed after one retry" only if a retry has been
      confirmed since the key was last cleared. */
  lemma GivesUpOnlyWhenConfirmed(inputs: seq<Input>, i: Input)
    requires Next(Run(inputs).0, i).outcome == Done(Err(StillFailed))
    ensures ConfirmedSince(Run(inputs + [i]).1)
  {
    RunIs(inputs);
    GivesUpConfirmed(Run(inputs).0, Summarize(Run(inputs).1), i);
    RunStep(inputs, i);
    RunIs(inputs + [i]);
  }

  // ----- posting -----

  /** A failed job on a key at rest, without a pending attempt and without a confirmed
      retry, is posted at once. */
  lemma FailedJobIsPosted(inputs: seq<Input>, job: Job)
    requires job.status == Failed
    requires var (k, log) := Run(inputs); k.call.None? && k.pending.None? && !ConfirmedSince(log)
    ensures var (k, log) := Run(inputs + [Call(job)]);
      && log == Run(inputs).1 + [Posted(job)]
      && k.call == Some(Posting(Pending.Pending(job, false))) && k.pending == Some(Pending.Pending(job, false))
    ensures Next(Run(inputs).0, Call(job)).outcome == Waiting
  {
    RunIs(inputs);
    RunStep(inputs, Call(job));
  }

  /** A new or cleared key is at rest: the first failed job is posted. */
  lemma FirstFailedJobIsPosted(job: Job)
    requires job.status == Failed
    ensures Run([Call(job)]).1 == [Posted(job)]
  {
    assert [Call(job)][..0] == [];
  }

  /** After a post that was rejected over HTTP and a read that shows the failed job
      unchanged, the next failed job is posted again. */
  lemma RejectedPostIsRepeated(inputs: seq<Input>, attempt: Pending, rejection: Reply, seen: Job, job: Job)
    requires Run(inputs).0.call == Some(Posting(attempt))
    requires rejection.Rejected? || (rejection.Unavailable? && rejection.httpStatus.Some?)
    requires seen.exact == attempt.original.exact && Unchanged(seen, attempt.original) && job.status == Failed
    ensures Run(inputs + [Answer(rejection, false)] + [Answer(Value(seen), false)] + [Call(job)]).1
         == Run(inputs).1 + [RejectedPost] + [SawFailed(seen)] + [Posted(job)]
  {
    RunIs(inputs);
    var rejected := inputs + [Answer(rejection, false)];
    RunStep(inputs, Answer(rejection, false));
    RunStep(rejected, Answer(Value(seen), false));
    RunStep(rejected + [Answer(Value(seen), false)], Call(job));
    hide Run;
  }

  /** A later call that reads the rejected job unchanged posts it again itself. */
  lemma ReconciledRejectionIsRepeated(inputs: seq<Input>, pending: Pending, seen: Job, aborted: bool)
    requires Run(inputs).0.call == Some(Reconciling(pending)) && pending.httpFailure
    requires seen.exact == pending.original.exact && Unchanged(seen, pending.original)
    ensures var (k, log) := Run(inputs + [Answer(Value(seen), aborted)]);
      log == Run(inputs).1 + [SawFailed(seen), Posted(seen)] && k.call == Some(Posting(Pending.Pending(seen, false)))
  {
    RunIs(inputs);
    RunStep(inputs, Answer(Value(seen), aborted));
  }

  /** The job that a phase is about. */
  function Original(phase: Phase): Job {
    match phase
    case Reconciling(p) => p.original
    case Posting(p) => p.original
    case AfterError(p, _) => p.original
    case AfterValue(p) => p.original
  }

  /** A reply about another job proves nothing: the call fails and the key stays as it was. */
  lemma OtherJobIsRefused(inputs: seq<Input>, job: Job, aborted: bool)
    requires Run(inputs).0.call.Some? && job.exact != Original(Run(inputs).0.call.value).exact
    ensures Next(Run(inputs).0, Answer(Value(job), aborted))
         == Step(Run(inputs).0.(call := None), Done(Err(Mismatch)), [])
  {
  }

  // ----- confirming -----

  /** The read or the post that a call waits for shows that the retry was taken up. */
  predicate ShowsProof(phase: Phase, job: Job) {
    var original := Original(phase);
    job.exact == original.exact
    && (job.status == Status.Pending || job.status == Running || job.status == Succeeded
        || (job.status == Failed && job.signature != original.signature))
  }

  /** Such a reply confirms the retry, whatever the call waits for. */
  lemma ProofConfirms(inputs: seq<Input>, job: Job, aborted: bool)
    requires Run(inputs).0.call.Some? && ShowsProof(Run(inputs).0.call.value, job)
    ensures var (k, log) := Run(inputs + [Answer(Value(job), aborted)]);
      && log == Run(inputs).1 + [Confirmed]
      && k.call.None? && k.pending.None? && ConfirmedSince(log)
    ensures var outcome := Next(Run(inputs).0, Answer(Value(job), aborted)).outcome;
      outcome == Done(if job.status == Failed then Err(StillFailed) else Ok(job))
  {
    RunIs(inputs);
    ProofStep(Run(inputs).0, Summarize(Run(inputs).1), job, aborted);
    RunStep(inputs, Answer(Value(job), aborted));
    hide Next, Inv, Run, ShowsProof;
    var log := Run(inputs).1 + [Confirmed];
    assert log[|log| - 1].Confirmed? && !ClearedBetween(log, |log| - 1, |log|);
  }

  lemma ProofStep(k: KeyState, s: Summary, job: Job, aborted: bool)
    requires Inv(k, s) && k.call.Some? && ShowsProof(k.call.value, job)
    ensures Next(k, Answer(Value(job), aborted))
         == Step(KeyState(true, None, None), Done(if job.status == Failed then Err(StillFailed) else Ok(job)), [Confirmed])
  {
  }

  /** Without an answer the attempt stays pending, and the next call only reads. */
  lemma LostPostIsReconciled(inputs: seq<Input>, attempt: Pending, lost: Reply, read: Reply, job: Job)
    requires Run(inputs).0.call == Some(Posting(attempt)) && Run(inputs).0.pending.Some?
    requires lost.Broken? || lost == Unavailable(None)
    requires !read.Value?
    ensures var (k, log) := Run(inputs + [Answer(lost, false)] + [Answer(read, false)] + [Call(job)]);
      && k.call == Some(Reconciling(attempt)) && k.pending == Some(attempt)
      && log == Run(inputs).1
  {
    RunIs(inputs);
    RunStep(inputs, Answer(lost, false));
    RunStep(inputs + [Answer(lost, false)], Answer(read, false));
    RunStep(inputs + [Answer(lost, false)] + [Answer(read, false)], Call(job));
    hide Run;
  }
}
