/** The transactions as the server runs them: one statement after another on the
    tables of a segment, while it holds the lock of that segment. Each is proved
    to be its function in QueueModel and to keep the invariant. */
module QueueService {
  import opened Wrappers
  import M = QueueModel
  import opened QueueModel
  import opened QueueInvariant
  import opened QueueTheorems

  class SegmentQueue {
    var jobs: map<nat, Job>
    var target: Option<Target>
    var segment: Option<Segment>
    var nextJob: nat
    var nextLease: nat
    var validator: nat

    ghost function Tables(): Store
      reads this
    {
      Store(jobs, target, segment, nextJob, nextLease, validator)
    }

    ghost predicate Valid()
      reads this
    {
      Inv(Tables())
    }

    constructor (validator: nat)
      ensures Valid() && Tables() == Empty(validator)
    {
      jobs, target, segment := map[], None, None;
      nextJob, nextLease, this.validator := 0, 0, validator;
    }

    // ----- reads -----

    method FindJob(b: Boundary) returns (r: Option<nat>)
      requires Valid()
      ensures r == JobAt(jobs, b)
    {
      r := None;
      var rest := jobs.Keys;
      while rest != {}
        invariant rest <= jobs.Keys
        invariant r.Some? ==> r.value in jobs && jobs[r.value].snap.boundary == b
        invariant r.None? ==> forall i :: i in jobs && i !in rest ==> jobs[i].snap.boundary != b
        decreases |rest|
      {
        var i :| i in rest;
        rest := rest - {i};
        if jobs[i].snap.boundary == b { r := Some(i); }
      }
      if r.Some? { assert SameKey(jobs, r.value, JobAt(jobs, b).value); }
    }

    /** The row the unique index names. */
    method FindKey(key: string) returns (r: Option<nat>)
      requires Valid()
      ensures r == JobWithKey(jobs, key)
    {
      r := None;
      var rest := jobs.Keys;
      while rest != {}
        invariant rest <= jobs.Keys
        invariant r.Some? ==> r.value in jobs && jobs[r.value].snap.boundary.key == key
        invariant r.None? ==> forall i :: i in jobs && i !in rest ==> jobs[i].snap.boundary.key != key
        decreases |rest|
      {
        var i :| i in rest;
        rest := rest - {i};
        if jobs[i].snap.boundary.key == key { r := Some(i); }
      }
      if r.Some? { assert SameKey(jobs, r.value, JobWithKey(jobs, key).value); }
    }

    method HighestGeneration() returns (g: nat)
      requires Valid()
      ensures g + 1 == NextGeneration(Tables())
    {
      hide Inv;
      g := 0;
      if segment.Some? { g := segment.value.snap.generation; }
      if target.Some? && target.value.snap.generation > g { g := target.value.snap.generation; }
      ghost var base := g;
      var rest := jobs.Keys;
      while rest != {}
        invariant rest <= jobs.Keys
        invariant IsMaxGeneration(jobs, jobs.Keys - rest, base, g)
        decreases |rest|
      {
        var i :| i in rest;
        rest := rest - {i};
        if jobs[i].snap.generation > g { g := jobs[i].snap.generation; }
      }
    }

    method IsAnyRunning() returns (r: bool)
      ensures r == AnyRunning(jobs)
    {
      r := false;
      var rest := jobs.Keys;
      while rest != {}
        invariant rest <= jobs.Keys
        invariant r == exists i :: i in jobs && i !in rest && jobs[i].status == Running
        decreases |rest|
      {
        var i :| i in rest;
        rest := rest - {i};
        if jobs[i].status == Running { r := true; }
      }
    }

    // ----- writes -----

    method InsertRow(row: Job) returns (id: nat)
      modifies this`jobs, this`nextJob
      ensures id == old(nextJob) && nextJob == id + 1
      ensures jobs == old(jobs)[id := row]
    {
      id := nextJob;
      jobs, nextJob := jobs[id := row], nextJob + 1;
    }

    method Enqueue(r: Request) returns (result: EnqueueResult)
      requires Valid()
      modifies this
      ensures Valid()
      ensures (Tables(), result) == M.Enqueue(old(Tables()), r)
    {
      EnqueueKeeps(Tables(), r);
      var at := FindJob(r.fingerprint.boundary);
      var lower :=
        || (segment.Some? && r.version < segment.value.snap.version)
        || (target.Some? && r.version < target.value.snap.version)
        || (at.Some? && r.version < jobs[at.value].snap.version);
      if lower {
        result := EnqueueIgnored(r, at);
        return;
      }
      if TargetMatchesRequest(target, r) {
        result := EnqueueExact(r);
        return;
      }
      if AlreadyCommitted(Store(jobs, target, segment, nextJob, nextLease, validator), r) {
        result := EnqueueSettled(r, at);
        return;
      }
      result := EnqueueTarget(r, at);
    }

    method EnqueueIgnored(r: Request, at: Option<nat>) returns (result: EnqueueResult)
      requires Valid() && at == JobAt(jobs, r.fingerprint.boundary)
      modifies this
      ensures (Tables(), result) == Ignore(old(Tables()), r)
    {
      if at.Some? { return Ignored(at.value); }
      var taken := FindKey(r.fingerprint.boundary.key);
      if taken.Some? { return UniqueViolation; }
      var id := InsertRow(Job(Superseded, None, 0, 0, SnapshotOf(r, 0), None, r.priority));
      result := Ignored(id);
    }

    method EnqueueExact(r: Request) returns (result: EnqueueResult)
      requires Valid() && TargetMatchesRequest(target, r)
      modifies this
      ensures (Tables(), result) == Refresh(old(Tables()), r)
    {
      var t := target.value;
      var reset := false;
      if t.staged.Some? && jobs[t.job].status == Failed {
        reset := !StagedEligible(t.staged.value, t.snap, validator);
      }
      var priority := t.priority;
      if r.priority > priority { priority := r.priority; }
      var payload := r.(priority := priority);
      target := Some(t.(payload := payload, priority := priority));
      if reset { target := Some(target.value.(staged := None)); }
      var j := jobs[t.job];
      if j.status != Running { j := j.(payload := Some(payload), priority := priority); }
      if reset { j := j.(status := Pending, attempts := 0, recoveries := 0, lease := None); }
      jobs := jobs[t.job := j];
      result := Refreshed(t.job);
    }

    method EnqueueSettled(r: Request, at: Option<nat>) returns (result: EnqueueResult)
      requires Valid() && at == JobAt(jobs, r.fingerprint.boundary) && segment.Some?
      modifies this
      ensures (Tables(), result) == Settle(old(Tables()), r)
    {
      var snap := SnapshotOf(r, segment.value.snap.generation);
      if at.None? {
        var taken := FindKey(r.fingerprint.boundary.key);
        if taken.Some? { return UniqueViolation; }
        var id := InsertRow(Job(Succeeded, None, 0, 0, snap, None, r.priority));
        return Settled(id);
      }
      var j := jobs[at.value];
      if j.status != Running {
        var priority := j.priority;
        if r.priority > priority { priority := r.priority; }
        jobs := jobs[at.value := j.(status := Succeeded, lease := None, payload := None, snap := snap, priority := priority)];
      }
      result := Settled(at.value);
    }

    method EnqueueTarget(r: Request, at: Option<nat>) returns (result: EnqueueResult)
      requires Valid() && at == JobAt(jobs, r.fingerprint.boundary)
      modifies this
      ensures (Tables(), result) == Retarget(old(Tables()), r)
    {
      var highest := HighestGeneration();
      var snap := SnapshotOf(r, highest + 1);
      var row := Job(Pending, None, 0, 0, snap, Some(r), r.priority);
      var conflict := FindKey(r.fingerprint.boundary.key);
      var id: nat;
      if conflict.None? {
        id := InsertRow(row);
      } else if jobs[conflict.value].status != Running {
        id := conflict.value;
        jobs := jobs[id := row];
      } else if at.Some? {
        id := at.value;
      } else {
        return LostBoundaryJob;
      }
      target := Some(Target(id, snap, r, r.priority, None));
      jobs := SupersedeOthers(jobs, id);
      result := Targeted(id);
    }

    method ClaimJob(id: nat) returns (claim: Option<Claim>)
      requires Valid()
      modifies this
      ensures Valid()
      ensures (Tables(), claim) == M.ClaimJob(old(Tables()), id)
    {
      ClaimKeeps(Tables(), id);
      ClaimsNeverPoison(Tables(), id);
      hide Inv, AnyRunning, IsMaxGeneration, StagedEligible;
      claim := None;
      var busy := IsAnyRunning();
      if busy || id !in jobs || jobs[id].status != Pending { return; }
      var j := jobs[id];
      if target.None? || target.value.job != id || target.value.snap != j.snap { return; }
      if !PayloadMatchesRow(j) {
        // The server would fail the row as corrupt; a valid queue has no such row.
        assert false;
      }
      var reuse := None;
      if target.value.staged.Some? && StagedEligible(target.value.staged.value, target.value.snap, validator) {
        reuse := Some(target.value.staged.value.extraction);
      }
      var lease := nextLease;
      nextLease := nextLease + 1;
      jobs := jobs[id := j.(status := Running, attempts := j.attempts + 1, lease := Some(lease))];
      claim := Some(Claim(id, lease, j.attempts + 1, j.snap, reuse));
    }

    method HoldsLease(c: Claim) returns (r: bool)
      ensures r == LeaseCurrent(Tables(), c)
    {
      if c.job !in jobs { return false; }
      r := jobs[c.job].status == Running && jobs[c.job].lease == Some(c.lease);
    }

    method RequeueLatestTarget(c: Claim)
      requires c.job in jobs && jobs[c.job].status == Running
      modifies this`jobs
      ensures Tables() == Requeue(old(Tables()), c)
    {
      if target.None? {
        jobs := jobs[c.job := SupersededRow(jobs[c.job])];
        return;
      }
      var t := target.value;
      if t.job == c.job {
        jobs := jobs[c.job := Waiting(t)];
        return;
      }
      jobs := jobs[c.job := SupersededRow(jobs[c.job])];
      if t.job in jobs && jobs[t.job].status != Running {
        jobs := jobs[t.job := Waiting(t)];
      }
    }

    method PublishExtraction(c: Claim, e: Extraction) returns (result: PublishResult)
      requires Valid() && e.origin == c.snap.fingerprint
      modifies this
      ensures Valid()
      ensures (Tables(), result) == Publish(old(Tables()), c, e)
    {
      PublishKeeps(Tables(), c, e);
      if Blank(e.summary) { return Refused; }
      var commit := ProjectionOf(c.snap, e.summary);
      var held := HoldsLease(c);
      if !held { return NotPublished; }
      if jobs[c.job].snap != c.snap { return NotPublished; }
      if !TargetMatchesClaim(Store(jobs, target, segment, nextJob, nextLease, validator), c) {
        RequeueLatestTarget(c);
        return NotPublished;
      }
      target := Some(target.value.(staged := Some(Staged(e, validator, commit))));
      result := Published;
    }

    method CommitResolution(c: Claim, e: Extraction, p: Prepared) returns (result: CommitResult)
      requires Valid()
      modifies this
      ensures Valid()
      ensures (Tables(), result) == Commit(old(Tables()), c, e, p)
    {
      CommitKeeps(Tables(), c, e, p);
      if Blank(e.summary) { return Thrown; }
      if p.boundary != c.snap.boundary || p.version != c.snap.version || p.summary != e.summary { return Thrown; }
      var commit := Projection(p.boundary, e.summary, p.version);
      var held := HoldsLease(c);
      if !held { return Thrown; }
      if jobs[c.job].snap != c.snap { return Stale; }
      if !TargetMatchesClaim(Store(jobs, target, segment, nextJob, nextLease, validator), c) {
        RequeueLatestTarget(c);
        return Stale;
      }
      var staged := target.value.staged;
      if staged.None? || !StagedEligible(staged.value, target.value.snap, validator) { return Thrown; }
      if staged.value.commit != commit { return Thrown; }
      if !SameContents(staged.value.extraction, e) { return Thrown; }
      if segment.None? || segment.value.snap.version <= p.version {
        segment := Some(Segment(c.snap, staged.value.extraction, p.facts, commit));
      }
      jobs := jobs[c.job := jobs[c.job].(status := Succeeded, lease := None, payload := None)];
      target := None;
      result := Committed;
    }

    method FinishFailedAttempt(c: Claim, retry: bool) returns (updated: bool)
      requires Valid()
      modifies this
      ensures Valid()
      ensures (Tables(), updated) == FinishFailed(old(Tables()), c, retry)
    {
      FinishKeeps(Tables(), c, retry);
      var held := HoldsLease(c);
      if !held || jobs[c.job].snap != c.snap { return false; }
      if !TargetMatchesClaim(Store(jobs, target, segment, nextJob, nextLease, validator), c) {
        RequeueLatestTarget(c);
        return true;
      }
      jobs := jobs[c.job := jobs[c.job].(status := if retry then Pending else Failed, lease := None)];
      if !retry && SegmentCoversTarget(Store(jobs, target, segment, nextJob, nextLease, validator)) {
        target := None;
      }
      updated := true;
    }

    method RecoverRunningJobs()
      requires Valid()
      modifies this
      ensures Valid()
      ensures Tables() == Recover(old(Tables()))
    {
      RecoverKeeps(Tables());
      hide Inv, AnyRunning;
      var t := target;
      jobs := map i | i in jobs ::
        var j := jobs[i];
        if j.status != Running then j
        else if t.None? || t.value.job != i then j.(status := Superseded, lease := None, payload := None)
        else j.(
          status := Pending, lease := None,
          snap := t.value.snap, payload := Some(t.value.payload), priority := t.value.priority,
          attempts := if t.value.snap != j.snap then 0 else j.attempts,
          recoveries := if t.value.snap != j.snap then 0 else j.recoveries + 1);
      assert jobs == Recover(old(Tables())).jobs;
    }

    method RetryFailedJob(id: nat, restart: bool) returns (retried: bool)
      requires Valid()
      modifies this
      ensures Valid()
      ensures (Tables(), retried) == RetryFailed(old(Tables()), id, restart)
    {
      RetryKeeps(Tables(), id, restart);
      if !Retryable(Store(jobs, target, segment, nextJob, nextLease, validator), id) { return false; }
      if restart { target := Some(target.value.(staged := None)); }
      var t := target.value;
      jobs := jobs[id := Job(Pending, None, 0, 0, t.snap, Some(t.payload), t.priority)];
      retried := true;
    }

    method SupersedeFailedJob(id: nat) returns (superseded: bool)
      requires Valid()
      modifies this
      ensures Valid()
      ensures (Tables(), superseded) == SupersedeFailed(old(Tables()), id)
    {
      SupersedeKeeps(Tables(), id);
      if !Retryable(Store(jobs, target, segment, nextJob, nextLease, validator), id) { return false; }
      jobs := jobs[id := jobs[id].(status := Superseded, lease := None, payload := None)];
      target := None;
      superseded := true;
    }
  }
}
