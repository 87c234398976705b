/** Over every sequence of calls, replies and clearings: a confirmed retry is never
    repeated, and a post is repeated only after a rejection and a read. */
module RetryTheorems {
  import opened Wrappers
  import opened RetryModel

  /** What happened since the last clearing. */
  datatype Summary = Summary(confirmed: bool, posted: Option<Job>, rejected: bool, sawUnchanged: bool)

  const NOTHING: Summary := Summary(false, None, false, false)

  function After(s: Summary, e: Event): Summary {
    match e
    case Cleared => NOTHING
    case Confirmed => s.(confirmed := true)
    case Posted(job) => s.(posted := Some(job), rejected := false, sawUnchanged := false)
    case RejectedPost => s.(rejected := s.posted.Some?)
    case SawFailed(job) =>
      s.(sawUnchanged := s.sawUnchanged || (s.rejected && s.posted.Some? && Unchanged(job, s.posted.value)))
  }

  function Summarize(log: seq<Event>): Summary {
    if log == [] then NOTHING else After(Summarize(log[..|log| - 1]), log[|log| - 1])
  }

  /** What the client may do next. */
  predicate Allowed(s: Summary, e: Event) {
    && (e.Posted? ==> !s.confirmed && (s.posted.Some? ==> s.rejected && s.sawUnchanged))
    && (e.Confirmed? ==> !s.confirmed)
  }

  predicate AllAllowed(log: seq<Event>) {
    forall j :: 0 <= j < |log| ==> Allowed(Summarize(log[..j]), log[j])
  }

  // ----- the invariant of a key -----

  predicate Attempts(k: KeyState, p: Pending) {
    p.original.status == Failed && (k.pending.Some? ==> k.pending.value == p)
  }

  predicate PhaseOk(k: KeyState, phase: Phase) {
    match phase
    case Reconciling(p) => Attempts(k, p)
    case Posting(p) => Attempts(k, p) && !p.httpFailure
    case AfterError(p, error) => Attempts(k, p)
    case AfterValue(p) => Attempts(k, p) && !p.httpFailure
  }

  predicate Inv(k: KeyState, s: Summary) {
    && k.retried == s.confirmed
    && (k.call.Some? ==> !k.retried && PhaseOk(k, k.call.value))
    && (k.pending.Some? ==>
          && !k.retried && k.pending.value.original.status == Failed
          && s.posted == Some(k.pending.value.original) && (k.pending.value.httpFailure ==> s.rejected))
    && (k.pending.None? && s.posted.Some? && !k.retried ==> s.rejected && s.sawUnchanged)
  }

  lemma SummarizeSnoc(log: seq<Event>, e: Event)
    ensures Summarize(log + [e]) == After(Summarize(log), e)
  {
    assert (log + [e])[..|log|] == log;
  }

  lemma AllowedSnoc(log: seq<Event>, e: Event)
    requires AllAllowed(log) && Allowed(Summarize(log), e)
    ensures AllAllowed(log + [e])
  {
    hide Allowed, Summarize;
    var more := log + [e];
    forall j | 0 <= j < |more| ensures Allowed(Summarize(more[..j]), more[j]) {
      assert more[..j] == log[..j];
      assert j == |log| ==> more[..j] == log;
    }
  }

  /** One step, at the level of summaries. */
  predicate StepOk(s: Summary, step: Step) {
    match |step.events|
    case 0 => Inv(step.state, s)
    case 1 => Allowed(s, step.events[0]) && Inv(step.state, After(s, step.events[0]))
    case 2 =>
      && Allowed(s, step.events[0]) && Allowed(After(s, step.events[0]), step.events[1])
      && Inv(step.state, After(After(s, step.events[0]), step.events[1]))
    case _ => false
  }

  lemma AnsweredKeeps(k: KeyState, s: Summary, phase: Phase, reply: Reply, aborted: bool)
    requires Inv(k, s) && k.call == Some(phase)
    ensures StepOk(s, Answered(k, phase, reply, aborted))
  {
  }

  lemma NextKeeps(k: KeyState, s: Summary, i: Input)
    requires Inv(k, s)
    ensures StepOk(s, Next(k, i))
  {
    hide Answered;
    match i
    case Answer(reply, aborted) =>
      if k.call.Some? { AnsweredKeeps(k, s, k.call.value, reply, aborted); }
    case _ =>
  }

  lemma Extends(log: seq<Event>, step: Step)
    requires AllAllowed(log) && StepOk(Summarize(log), step)
    ensures AllAllowed(log + step.events) && Inv(step.state, Summarize(log + step.events))
  {
    hide Inv, Allowed, AllAllowed, Summarize, After;
    var events := step.events;
    if |events| == 0 {
      assert log + events == log;
    } else {
      SummarizeSnoc(log, events[0]);
      AllowedSnoc(log, events[0]);
      if |events| == 1 {
        assert events == [events[0]];
      } else {
        SummarizeSnoc(log + [events[0]], events[1]);
        AllowedSnoc(log + [events[0]], events[1]);
        assert log + events == log + [events[0]] + [events[1]];
      }
    }
  }

  lemma {:induction false} RunsAreAllowed(inputs: seq<Input>)
    ensures var (k, log) := Run(inputs); AllAllowed(log) && Inv(k, Summarize(log))
  {
    if inputs != [] {
      var n := |inputs| - 1;
      RunsAreAllowed(inputs[..n]);
      var (k, log) := Run(inputs[..n]);
      hide Next, Inv, Allowed, AllAllowed, Summarize, StepOk;
      NextKeeps(k, Summarize(log), inputs[n]);
      Extends(log, Next(k, inputs[n]));
    }
  }

  // ----- what the summaries say of the log -----

  ghost predicate ClearedBetween(log: seq<Event>, i: nat, j: nat) {
    exists c :: i < c < j && c < |log| && log[c].Cleared?
  }

  ghost predicate PostedBetween(log: seq<Event>, i: nat, j: nat) {
    exists c :: i < c < j && c < |log| && log[c].Posted?
  }

  /** Post i was rejected, and then a read showed the job just as it was. */
  ghost predicate RejectedAndUnchanged(log: seq<Event>, i: nat, j: nat)
    requires i < |log| && log[i].Posted?
  {
    exists r, s :: i < r < s < j && s < |log| && log[r].RejectedPost?
      && log[s].SawFailed? && Unchanged(log[s].job, log[i].original)
  }

  lemma {:induction false} ConfirmedStays(log: seq<Event>, i: nat, j: nat)
    requires i < j <= |log| && log[i].Confirmed? && !ClearedBetween(log, i, j)
    ensures Summarize(log[..j]).confirmed
    decreases j
  {
    assert log[..j][..j - 1] == log[..j - 1];
    if i < j - 1 {
      assert !log[j - 1].Cleared?;
      ConfirmedStays(log, i, j - 1);
    }
  }

  lemma {:induction false} PostStays(log: seq<Event>, i: nat, j: nat)
    requires i < j <= |log| && log[i].Posted?
    requires !ClearedBetween(log, i, j) && !PostedBetween(log, i, j)
    ensures var s := Summarize(log[..j]);
      && s.posted == Some(log[i].original)
      && (s.rejected ==> exists r :: i < r < j && log[r].RejectedPost?)
      && (s.sawUnchanged ==> RejectedAndUnchanged(log, i, j))
    decreases j
  {
    var e := log[j - 1];
    assert log[..j][..j - 1] == log[..j - 1];
    if i < j - 1 {
      assert !e.Cleared? && !e.Posted?;
      PostStays(log, i, j - 1);
      var before := Summarize(log[..j - 1]);
      if before.sawUnchanged {
        var r, s :| i < r < s < j - 1 && log[r].RejectedPost? && log[s].SawFailed? && Unchanged(log[s].job, log[i].original);
        assert r < s < j;
      } else if e.SawFailed? && before.rejected && Unchanged(e.job, log[i].original) {
        var r :| i < r < j - 1 && log[r].RejectedPost?;
        assert r < j - 1 < j && log[j - 1].SawFailed?;
      }
    }
  }

  /** Once a retry is confirmed, none is posted and none is confirmed again until
      the key is cleared. */
  lemma ConfirmedOnce(inputs: seq<Input>, i: nat, j: nat)
    requires var log := Run(inputs).1;
      i < j < |log| && log[i].Confirmed? && (log[j].Posted? || log[j].Confirmed?)
    ensures ClearedBetween(Run(inputs).1, i, j)
  {
    var log := Run(inputs).1;
    RunsAreAllowed(inputs);
    if !ClearedBetween(log, i, j) { ConfirmedStays(log, i, j); }
  }

  /** Between two posts of an uncleared key, the first was rejected over HTTP and
      a later read showed the failed job unchanged. */
  lemma RepostNeedsRejection(inputs: seq<Input>, i: nat, j: nat)
    requires var log := Run(inputs).1;
      && i < j < |log| && log[i].Posted? && log[j].Posted?
      && !ClearedBetween(log, i, j) && !PostedBetween(log, i, j)
    ensures RejectedAndUnchanged(Run(inputs).1, i, j)
  {
    var log := Run(inputs).1;
    RunsAreAllowed(inputs);
    PostStays(log, i, j);
  }

  /** A key is never asked to retry twice at once: a call that comes while another
      waits ends at once and changes nothing. */
  lemma SecondCallIsTurnedAway(k: KeyState, job: Job)
    requires k.call.Some?
    ensures Next(k, Call(job)) == Step(k, Done(Err(NotNow(None))), [])
  {
  }

  /** A call that returns a job does not return a failed one. */
  lemma CallsEndWell(inputs: seq<Input>, i: Input)
    ensures var step := Next(Run(inputs).0, i);
      step.outcome.Done? && step.outcome.result.Ok? ==> step.outcome.result.value.status != Failed
  {
    RunsAreAllowed(inputs);
  }
}
