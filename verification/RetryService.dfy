/** The retry fields of the plugin and the code that updates them between waits;
    each key runs as RetryModel says and leaves the other keys alone. */
module RetryService {
  import opened Wrappers
  import opened RetryModel

  datatype Key = Key(session: string, segment: string, fingerprint: string)

  class Ingestion {
    var retried: set<Key>
    var retrying: set<Key>
    var pendingRetries: map<Key, Pending>
    /** The calls that wait for a reply. */
    var waiting: map<Key, Phase>

    ghost predicate Valid()
      reads this
    {
      retrying == waiting.Keys
    }

    /** One key, as RetryModel has it. */
    ghost function At(key: Key): KeyState
      reads this
    {
      KeyState(key in retried,
               if key in pendingRetries then Some(pendingRetries[key]) else None,
               if key in waiting then Some(waiting[key]) else None)
    }

    twostate predicate OthersKept(key: Key)
      reads this
    {
      forall other: Key :: other != key ==> At(other) == old(At(other))
    }

    constructor ()
      ensures Valid() && forall key: Key :: At(key) == NEW
    {
      retried, retrying, pendingRetries, waiting := {}, {}, map[], map[];
    }

    /** Start a call. */
    method RetryJob(job: Job, key: Key) returns (outcome: Outcome)
      requires Valid()
      modifies this
      ensures Valid() && OthersKept(key)
      ensures var step := Next(old(At(key)), Call(job)); At(key) == step.state && outcome == step.outcome
    {
      if key in retrying { return Done(Err(NotNow(None))); }
      retrying := retrying + {key};
      if key in pendingRetries {
        waiting := waiting[key := Reconciling(pendingRetries[key])];
        return Waiting;
      }
      outcome := DecideOn(job, key);
    }

    /** The reply to the request that the call of this key waits for. */
    method Reply(reply: RetryModel.Reply, aborted: bool, key: Key) returns (outcome: Outcome)
      requires Valid() && key in waiting
      modifies this
      ensures Valid() && OthersKept(key)
      ensures var step := Next(old(At(key)), Answer(reply, aborted)); At(key) == step.state && outcome == step.outcome
    {
      var result;
      match waiting[key] {
        case Reconciling(pending) =>
          result := ReconcileWith(reply, pending, key);
          if result.Ok? {
            outcome := DecideOn(result.value, key);
            return;
          }
        case Posting(attempt) =>
          if !reply.Value? && !reply.Malformed? {
            var failed := attempt.(httpFailure := HttpFailure(reply));
            if key in pendingRetries { pendingRetries := pendingRetries[key := failed]; }
            if !aborted {
              waiting := waiting[key := AfterError(failed, reply)];
              return Waiting;
            }
            result := Err(Aborted);
          } else {
            result := Validated(reply, attempt.original);
            if result.Ok? && Unchanged(result.value, attempt.original) {
              waiting := waiting[key := AfterValue(attempt)];
              return Waiting;
            }
            if result.Ok? { result := ObserveAs(result.value, attempt, key); }
            result := NotFailed(result);
          }
        case AfterError(attempt, error) =>
          result := ReconcileWith(reply, attempt, key);
          result := if result.Ok? && key !in retried then Err(Network(error)) else NotFailed(result);
        case AfterValue(attempt) =>
          result := ReconcileWith(reply, attempt, key);
          result := NotFailed(result);
      }
      End(key);
      outcome := Done(result);
    }

    /** Forget a session. */
    method Clear(session: string)
      requires Valid()
      modifies this
      ensures Valid()
      ensures forall key: Key :: At(key) == if key.session == session then Next(old(At(key)), RetryModel.Clear).state else old(At(key))
    {
      retried := set key | key in retried && key.session != session;
      pendingRetries := map key | key in pendingRetries && key.session != session :: pendingRetries[key];
    }

    // ----- the parts of a call -----

    method End(key: Key)
      requires Valid()
      modifies this`retrying, this`waiting
      ensures Valid() && OthersKept(key) && At(key) == old(At(key)).(call := None)
    {
      retrying := retrying - {key};
      waiting := waiting - {key};
    }

    method ObserveAs(job: Job, pending: Pending, key: Key) returns (result: Result<Job, Failure>)
      requires Valid()
      modifies this`retried, this`pendingRetries
      ensures Valid() && OthersKept(key)
      ensures var (after, r, _) := Observe(old(At(key)), job, pending); At(key) == after && result == r
    {
      if Proves(job, pending.original) {
        retried := retried + {key};
        pendingRetries := pendingRetries - {key};
        return Ok(job);
      }
      if job.status == Failed && pending.httpFailure {
        pendingRetries := pendingRetries - {key};
        return Ok(job);
      }
      result := Err(NotNow(None));
    }

    method ReconcileWith(reply: RetryModel.Reply, pending: Pending, key: Key) returns (result: Result<Job, Failure>)
      requires Valid()
      modifies this`retried, this`pendingRetries
      ensures Valid() && OthersKept(key)
      ensures var (after, r, _) := Reconcile(old(At(key)), reply, pending); At(key) == after && result == r
    {
      result := Validated(reply, pending.original);
      if result.Ok? { result := ObserveAs(result.value, pending, key); }
    }

    method DecideOn(job: Job, key: Key) returns (outcome: Outcome)
      requires retrying == waiting.Keys + {key}
      modifies this
      ensures Valid() && OthersKept(key)
      ensures var step := Decide(old(At(key)), job, []); At(key) == step.state && outcome == step.outcome
    {
      if job.status != Failed || key in retried {
        retrying := retrying - {key};
        waiting := waiting - {key};
        return Done(if job.status != Failed then Ok(job) else Err(StillFailed));
      }
      var attempt := Pending.Pending(job, false);
      pendingRetries := pendingRetries[key := attempt];
      waiting := waiting[key := Posting(attempt)];
      outcome := Waiting;
    }
  }
}
