/** One retry key of the plugin: which network replies it has to see before it may
    ask for a retry again. A call runs until it waits for a reply. */
module RetryModel {
  import opened Wrappers

  datatype Status = Pending | Running | Succeeded | Failed | Superseded

  /** The `exact` number stands for the identity that every reply has to repeat:
      job, segment, fingerprint, projection version and boundary messages. */
  datatype Job = Job(exact: nat, status: Status, signature: Signature)

  /** What tells two failures of one job apart, beside the status. */
  datatype Signature = Signature(attempts: nat, startedAt: Option<nat>, finishedAt: Option<nat>)

  datatype Pending = Pending(original: Job, httpFailure: bool)

  /** What a request comes back with. */
  datatype Reply =
    | Value(job: Job)
    | Malformed
    | Rejected(status: nat)
    | Unavailable(httpStatus: Option<nat>)
    | Broken

  datatype Failure =
    | NotNow(httpStatus: Option<nat>)
    | Mismatch
    | BadReply
    | StillFailed
    | Network(reply: Reply)
    | Aborted

  /** Where a call waits. */
  datatype Phase =
    | Reconciling(pending: Pending)
    | Posting(attempt: Pending)
    | AfterError(attempt: Pending, error: Reply)
    | AfterValue(attempt: Pending)

  datatype KeyState = KeyState(retried: bool, pending: Option<Pending>, call: Option<Phase>)

  /** What happens to a key. */
  datatype Input =
    | Call(job: Job)
    | Answer(reply: Reply, aborted: bool)
    | Clear

  /** What the network and the plugin did, in order. */
  datatype Event =
    | Posted(original: Job)
    | RejectedPost
    | SawFailed(job: Job)
    | Confirmed
    | Cleared

  /** A finished call, or one that still waits. */
  datatype Outcome = Waiting | Done(result: Result<Job, Failure>)

  datatype Step = Step(state: KeyState, outcome: Outcome, events: seq<Event>)

  const NEW: KeyState := KeyState(false, None, None)

  predicate Unchanged(job: Job, original: Job) {
    job.status == Failed && job.signature == original.signature
  }

  /** A reply that proves that the retry was taken up. */
  predicate Proves(job: Job, original: Job) {
    job.status == Status.Pending || job.status == Running || job.status == Succeeded
    || (job.status == Failed && job.signature != original.signature)
  }

  predicate HttpFailure(reply: Reply) {
    reply.Rejected? || (reply.Unavailable? && reply.httpStatus.Some?)
  }

  /** The reply checked against the job it is about. */
  function Validated(reply: Reply, original: Job): Result<Job, Failure> {
    match reply
    case Value(job) => if job.exact == original.exact then Ok(job) else Err(Mismatch)
    case Malformed => Err(BadReply)
    case Rejected(status) => Err(NotNow(Some(status)))
    case _ => Err(Network(reply))
  }

  function Observe(k: KeyState, job: Job, pending: Pending): (KeyState, Result<Job, Failure>, seq<Event>) {
    if Proves(job, pending.original) then (k.(retried := true, pending := None), Ok(job), [Confirmed])
    else if job.status == Failed && pending.httpFailure then (k.(pending := None), Ok(job), [SawFailed(job)])
    else (k, Err(NotNow(None)), [])
  }

  function Reconcile(k: KeyState, reply: Reply, pending: Pending): (KeyState, Result<Job, Failure>, seq<Event>) {
    match Validated(reply, pending.original)
    case Err(e) => (k, Err(e), [])
    case Ok(job) => Observe(k, job, pending)
  }

  function Finish(k: KeyState, result: Result<Job, Failure>, events: seq<Event>): Step {
    Step(k.(call := None), Done(result), events)
  }

  /** A call with a job it may have to retry. */
  function Decide(k: KeyState, job: Job, events: seq<Event>): Step {
    if job.status != Failed then Finish(k, Ok(job), events)
    else if k.retried then Finish(k, Err(StillFailed), events)
    else
      var attempt := Pending.Pending(job, false);
      Step(k.(pending := Some(attempt), call := Some(Posting(attempt))), Waiting, events + [Posted(job)])
  }

  function NotFailed(result: Result<Job, Failure>): Result<Job, Failure> {
    if result.Ok? && result.value.status == Failed then Err(StillFailed) else result
  }

  function Answered(k: KeyState, phase: Phase, reply: Reply, aborted: bool): Step {
    match phase
    case Reconciling(pending) =>
      var (after, result, events) := Reconcile(k, reply, pending);
      if result.Err? then Finish(after, result, events) else Decide(after, result.value, events)
    case Posting(attempt) =>
      if reply.Value? || reply.Malformed? then
        match Validated(reply, attempt.original)
        case Err(e) => Finish(k, Err(e), [])
        case Ok(job) =>
          if Unchanged(job, attempt.original) then Step(k.(call := Some(AfterValue(attempt))), Waiting, [])
          else
            var (after, result, events) := Observe(k, job, attempt);
            Finish(after, NotFailed(result), events)
      else
        var failed := attempt.(httpFailure := HttpFailure(reply));
        var after := k.(pending := if k.pending.Some? then Some(failed) else None);
        var events := if failed.httpFailure then [RejectedPost] else [];
        if aborted then Finish(after, Err(Aborted), events)
        else Step(after.(call := Some(AfterError(failed, reply))), Waiting, events)
    case AfterError(attempt, error) =>
      var (after, result, events) := Reconcile(k, reply, attempt);
      if result.Err? then Finish(after, result, events)
      else if !after.retried then Finish(after, Err(Network(error)), events)
      else Finish(after, NotFailed(result), events)
    case AfterValue(attempt) =>
      var (after, result, events) := Reconcile(k, reply, attempt);
      Finish(after, NotFailed(result), events)
  }

  function Next(k: KeyState, i: Input): Step {
    match i
    case Clear => Step(k.(retried := false, pending := None), Waiting, [Cleared])
    case Call(job) =>
      if k.call.Some? then Step(k, Done(Err(NotNow(None))), [])
      else if k.pending.Some? then Step(k.(call := Some(Reconciling(k.pending.value))), Waiting, [])
      else Decide(k, job, [])
    case Answer(reply, aborted) =>
      if k.call.None? then Step(k, Waiting, []) else Answered(k, k.call.value, reply, aborted)
  }

  /** A key after any sequence of inputs, and everything that was done. */
  function Run(inputs: seq<Input>): (KeyState, seq<Event>) {
    if inputs == [] then (NEW, [])
    else
      var (k, log) := Run(inputs[..|inputs| - 1]);
      var step := Next(k, inputs[|inputs| - 1]);
      (step.state, log + step.events)
  }
}
