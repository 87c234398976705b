/** What every transaction of the snapshot queue keeps. */
module QueueInvariant {
  import opened Wrappers
  import opened QueueModel

  // ----- the invariant -----

  /** A lease is present exactly on a running row, and is one that was handed out. */
  ghost predicate LeasesOk(s: Store) {
    && (forall i :: i in s.jobs ==> i < s.nextJob)
    && (forall i :: i in s.jobs ==> (s.jobs[i].status == Running <==> s.jobs[i].lease.Some?))
    && (forall i :: i in s.jobs && s.jobs[i].lease.Some? ==> s.jobs[i].lease.value < s.nextLease)
  }

  ghost predicate BothRunning(jobs: map<nat, Job>, i: nat, k: nat) {
    i in jobs && k in jobs && jobs[i].status == Running && jobs[k].status == Running
  }

  ghost predicate OneRunning(s: Store) {
    forall i, k :: BothRunning(s.jobs, i, k) ==> i == k
  }

  ghost predicate SameKey(jobs: map<nat, Job>, i: nat, k: nat) {
    i in jobs && k in jobs && jobs[i].snap.boundary.key == jobs[k].snap.boundary.key
  }

  /** What the unique index of `extraction_jobs` enforces. */
  ghost predicate UniqueKeys(s: Store) {
    forall i, k :: SameKey(s.jobs, i, k) ==> i == k
  }

  ghost predicate RowOk(j: Job) {
    && j.snap.fingerprint.boundary == j.snap.boundary
    && (j.status == Running || j.status == Pending || j.status == Failed ==> PayloadMatchesRow(j))
  }

  ghost predicate RowsOk(s: Store) {
    forall i :: i in s.jobs ==> RowOk(s.jobs[i])
  }

  /** Unfinished work always belongs to the target; a running job always has one. */
  ghost predicate WorkHasTarget(s: Store) {
    && (forall i :: i in s.jobs && (s.jobs[i].status == Pending || s.jobs[i].status == Failed)
          ==> s.target.Some? && s.target.value.job == i)
    && (AnyRunning(s.jobs) ==> s.target.Some?)
  }

  ghost predicate TargetOk(s: Store, t: Target) {
    && t.job in s.jobs
    && t.payload == Request(t.snap.fingerprint, t.snap.version, t.priority)
    && t.snap.fingerprint.boundary == t.snap.boundary
    && (t.staged.Some? ==> t.staged.value.extraction.origin == t.snap.fingerprint)
    && TargetJobOk(s, t, s.jobs[t.job])
    && GenerationsBelow(s, t)
  }

  /** The target's job waits for, runs towards or failed at the target. */
  ghost predicate TargetJobOk(s: Store, t: Target, j: Job) {
    && j.snap.boundary == t.snap.boundary
    && (j.status == Pending || j.status == Running || j.status == Failed)
    && (j.status != Running ==> j.snap == t.snap)
    && (j.status == Running && j.snap.generation == t.snap.generation ==> j.snap == t.snap)
    && (j.status == Failed ==> !AnyRunning(s.jobs))
  }

  /** The target is newer than the segment and than any other running job. */
  ghost predicate GenerationsBelow(s: Store, t: Target) {
    && (forall i :: i in s.jobs && s.jobs[i].status == Running ==> s.jobs[i].snap.generation <= t.snap.generation)
    && (forall i :: i in s.jobs && s.jobs[i].status == Running && i != t.job ==>
          s.jobs[i].snap.generation < t.snap.generation)
    && (s.segment.Some? ==>
          && s.segment.value.snap.generation < t.snap.generation
          && s.segment.value.snap.version <= t.snap.version)
  }

  /** A committed summary was extracted from the very source stored beside it. */
  ghost predicate SegmentOk(s: Store) {
    s.segment.Some? ==>
      && s.segment.value.extraction.origin == s.segment.value.snap.fingerprint
      && s.segment.value.snap.fingerprint.boundary == s.segment.value.snap.boundary
      && !Blank(s.segment.value.extraction.summary)
      && ProjectionSafe(s.segment.value)
  }

  /** The rows on their own. */
  ghost predicate Shape(s: Store) {
    LeasesOk(s) && OneRunning(s) && UniqueKeys(s) && RowsOk(s)
  }

  /** The rows against the target and the segment. */
  ghost predicate Aligned(s: Store) {
    && WorkHasTarget(s)
    && (s.target.Some? ==> TargetOk(s, s.target.value))
    && SegmentOk(s)
  }

  ghost predicate Inv(s: Store) {
    Shape(s) && Aligned(s)
  }

  lemma EmptyKeeps(validator: nat)
    ensures Inv(Empty(validator))
  {
  }

  // ----- lookups agree because the index is unique -----

  lemma JobAtIsKeyed(s: Store, b: Boundary)
    requires UniqueKeys(s)
    ensures JobAt(s.jobs, b).Some? ==> JobWithKey(s.jobs, b.key) == JobAt(s.jobs, b)
  {
    if JobAt(s.jobs, b).Some? {
      assert SameKey(s.jobs, JobAt(s.jobs, b).value, JobWithKey(s.jobs, b.key).value);
    }
  }

  lemma OnlyRunning(s: Store, i: nat)
    requires OneRunning(s) && i in s.jobs && s.jobs[i].status == Running
    ensures forall k :: k in s.jobs && s.jobs[k].status == Running ==> k == i
  {
    forall k | k in s.jobs && s.jobs[k].status == Running ensures k == i {
      assert BothRunning(s.jobs, i, k);
    }
  }

  /** Row `j'` may replace row `j`: it does not run, stays on its key and is well formed. */
  ghost predicate Parks(j: Job, j': Job) {
    && j'.status != Running
    && j'.lease.None?
    && j'.snap.boundary.key == j.snap.boundary.key
    && RowOk(j')
  }

  /** Parking any number of rows keeps the rows well formed. */
  lemma ParkingKeepsShape(s: Store, s': Store)
    requires Shape(s)
    requires s'.jobs.Keys == s.jobs.Keys && s'.nextJob == s.nextJob && s'.nextLease == s.nextLease
    requires forall i :: i in s.jobs ==> s'.jobs[i] == s.jobs[i] || Parks(s.jobs[i], s'.jobs[i])
    ensures Shape(s')
  {
    forall i | i in s'.jobs ensures RowOk(s'.jobs[i]) { assert RowOk(s.jobs[i]); }
    forall i, k | BothRunning(s'.jobs, i, k) ensures i == k { assert BothRunning(s.jobs, i, k); }
    forall i, k | SameKey(s'.jobs, i, k) ensures i == k { assert SameKey(s.jobs, i, k); }
  }

  /** So does inserting a parked row whose key no row had. */
  lemma InsertKeepsShape(s: Store, s': Store, row: Job)
    requires Shape(s) && Parks(row, row)
    requires s' == s.(jobs := s.jobs[s.nextJob := row], nextJob := s.nextJob + 1)
    requires JobWithKey(s.jobs, row.snap.boundary.key).None?
    ensures Shape(s')
  {
    forall i | i in s'.jobs ensures RowOk(s'.jobs[i]) { if i != s.nextJob { assert RowOk(s.jobs[i]); } }
    forall i, k | BothRunning(s'.jobs, i, k) ensures i == k { assert BothRunning(s.jobs, i, k); }
    forall i, k | SameKey(s'.jobs, i, k) ensures i == k {
      if i != s.nextJob && k != s.nextJob { assert SameKey(s.jobs, i, k); }
    }
  }

  // ----- each transaction keeps it -----

  lemma IgnoreKeeps(s: Store, r: Request)
    requires Inv(s)
    ensures Inv(Ignore(s, r).0)
  {
    var s' := Ignore(s, r).0;
    if s' != s {
      InsertKeepsShape(s, s', s'.jobs[s.nextJob]);
      assert AnyRunning(s'.jobs) ==> AnyRunning(s.jobs);
    }
  }

  lemma RefreshKeeps(s: Store, r: Request)
    requires Inv(s) && TargetMatchesRequest(s.target, r)
    ensures Inv(Refresh(s, r).0)
  {
    ParkingKeepsShape(s, Refresh(s, r).0);
  }

  lemma SettleKeepsShape(s: Store, r: Request)
    requires Inv(s) && AlreadyCommitted(s, r)
    ensures Shape(Settle(s, r).0)
  {
    var s' := Settle(s, r).0;
    if s'.nextJob != s.nextJob {
      InsertKeepsShape(s, s', s'.jobs[s.nextJob]);
    } else {
      ParkingKeepsShape(s, s');
    }
  }

  lemma SettleKeeps(s: Store, r: Request)
    requires Inv(s) && AlreadyCommitted(s, r)
    ensures Inv(Settle(s, r).0)
  {
    SettleKeepsShape(s, r);
    assert !AnyRunning(s.jobs);
    assert !AnyRunning(Settle(s, r).0.jobs);
  }

  /** What makes row `id` fit to carry a new snapshot. */
  ghost predicate Hosts(s: Store, id: nat, snap: Snapshot) {
    && id in s.jobs
    && s.jobs[id].snap.boundary == snap.boundary
    && (s.jobs[id].status == Running || (s.jobs[id].status == Pending && s.jobs[id].snap == snap))
    && (forall i :: i in s.jobs && s.jobs[i].status == Running ==> s.jobs[i].snap.generation < snap.generation)
    && (s.segment.Some? ==>
          s.segment.value.snap.generation < snap.generation && s.segment.value.snap.version <= snap.version)
  }

  lemma PointAtKeepsShape(s: Store, id: nat, r: Request, snap: Snapshot)
    requires Shape(s)
    ensures Shape(PointAt(s, id, r, snap))
  {
    ParkingKeepsShape(s, PointAt(s, id, r, snap));
  }

  lemma PointAtKeeps(s: Store, id: nat, r: Request, snap: Snapshot)
    requires Shape(s) && SegmentOk(s) && Hosts(s, id, snap) && snap == SnapshotOf(r, snap.generation)
    ensures Inv(PointAt(s, id, r, snap))
  {
    PointAtKeepsShape(s, id, r, snap);
    var s' := PointAt(s, id, r, snap);
    assert s'.jobs[id] == s.jobs[id];
    assert WorkHasTarget(s');
  }

  lemma RetargetInsertKeeps(s: Store, r: Request)
    requires Inv(s) && !LowerVersion(s, r) && JobWithKey(s.jobs, r.fingerprint.boundary.key).None?
    ensures Inv(Retarget(s, r).0)
  {
    var snap := SnapshotOf(r, NextGeneration(s));
    var row := Job(Pending, None, 0, 0, snap, Some(r), r.priority);
    var s' := s.(jobs := s.jobs[s.nextJob := row], nextJob := s.nextJob + 1);
    InsertKeepsShape(s, s', row);
    PointAtKeeps(s', s.nextJob, r, snap);
  }

  lemma RetargetReuseKeeps(s: Store, r: Request, id: nat)
    requires Inv(s) && !LowerVersion(s, r) && JobWithKey(s.jobs, r.fingerprint.boundary.key) == Some(id)
    requires s.jobs[id].status != Running
    ensures Inv(Retarget(s, r).0)
  {
    var snap := SnapshotOf(r, NextGeneration(s));
    var row := Job(Pending, None, 0, 0, snap, Some(r), r.priority);
    var s' := s.(jobs := s.jobs[id := row]);
    ReuseHosts(s, id, row, r);
    assert SegmentOk(s');
    hide *;
    PointAtKeeps(s', id, r, snap);
    RetargetIsPointAt(s, r, id);
  }

  lemma ReuseHosts(s: Store, id: nat, row: Job, r: Request)
    requires Inv(s) && !LowerVersion(s, r) && id in s.jobs && s.jobs[id].status != Running
    requires s.jobs[id].snap.boundary.key == r.fingerprint.boundary.key
    requires row == Job(Pending, None, 0, 0, SnapshotOf(r, NextGeneration(s)), Some(r), r.priority)
    ensures var s' := s.(jobs := s.jobs[id := row]); Shape(s') && Hosts(s', id, row.snap)
  {
    ParkingKeepsShape(s, s.(jobs := s.jobs[id := row]));
  }

  lemma RetargetIsPointAt(s: Store, r: Request, id: nat)
    requires JobWithKey(s.jobs, r.fingerprint.boundary.key) == Some(id) && s.jobs[id].status != Running
    ensures var snap := SnapshotOf(r, NextGeneration(s));
      Retarget(s, r).0
      == PointAt(s.(jobs := s.jobs[id := Job(Pending, None, 0, 0, snap, Some(r), r.priority)]), id, r, snap)
  {
    hide NextGeneration, PointAt;
  }

  lemma RetargetKeeps(s: Store, r: Request)
    requires Inv(s) && !LowerVersion(s, r)
    ensures Inv(Retarget(s, r).0)
  {
    var hit := JobWithKey(s.jobs, r.fingerprint.boundary.key);
    if hit.None? {
      RetargetInsertKeeps(s, r);
    } else if s.jobs[hit.value].status != Running {
      RetargetReuseKeeps(s, r, hit.value);
    } else if JobAt(s.jobs, r.fingerprint.boundary).Some? {
      JobAtIsKeyed(s, r.fingerprint.boundary);
      PointAtKeeps(s, hit.value, r, SnapshotOf(r, NextGeneration(s)));
    }
  }

  lemma EnqueueKeeps(s: Store, r: Request)
    requires Inv(s)
    ensures Inv(Enqueue(s, r).0)
  {
    if LowerVersion(s, r) {
      IgnoreKeeps(s, r);
    } else if TargetMatchesRequest(s.target, r) {
      RefreshKeeps(s, r);
    } else if AlreadyCommitted(s, r) {
      SettleKeeps(s, r);
    } else {
      RetargetKeeps(s, r);
    }
  }

  lemma ClaimKeeps(s: Store, id: nat)
    requires Inv(s)
    ensures Inv(ClaimJob(s, id).0)
  {
    var s' := ClaimJob(s, id).0;
    if s' != s {
      forall i, k | BothRunning(s'.jobs, i, k) ensures i == k {
        assert i != id ==> BothRunning(s.jobs, i, i);
        assert k != id ==> BothRunning(s.jobs, k, k);
      }
      forall i, k | SameKey(s'.jobs, i, k) ensures i == k { assert SameKey(s.jobs, i, k); }
    }
  }

  lemma WaitingRowFits(s: Store)
    requires Inv(s) && s.target.Some?
    ensures Parks(s.jobs[s.target.value.job], Waiting(s.target.value))
  {
  }

  lemma RequeueKeepsShape(s: Store, c: Claim)
    requires Inv(s) && LeaseCurrent(s, c)
    ensures Shape(Requeue(s, c)) && !AnyRunning(Requeue(s, c).jobs)
  {
    OnlyRunning(s, c.job);
    if s.target.Some? { WaitingRowFits(s); }
    assert Parks(s.jobs[c.job], SupersededRow(s.jobs[c.job])) by { assert RowOk(s.jobs[c.job]); }
    ParkingKeepsShape(s, Requeue(s, c));
  }

  /** After a requeue nothing runs, and the target's job waits for exactly the target. */
  lemma RequeueKeeps(s: Store, c: Claim)
    requires Inv(s) && LeaseCurrent(s, c)
    ensures Inv(Requeue(s, c))
    ensures !AnyRunning(Requeue(s, c).jobs)
    ensures s.target.Some? ==> Requeue(s, c).jobs[s.target.value.job] == Waiting(s.target.value)
  {
    RequeueKeepsShape(s, c);
    OnlyRunning(s, c.job);
    assert WorkHasTarget(Requeue(s, c));
  }

  lemma PublishKeeps(s: Store, c: Claim, e: Extraction)
    requires Inv(s) && e.origin == c.snap.fingerprint
    ensures Inv(Publish(s, c, e).0)
  {
    if LeaseCurrent(s, c) && s.jobs[c.job].snap == c.snap && !TargetMatchesClaim(s, c) {
      RequeueKeeps(s, c);
    }
  }

  lemma CommitKeeps(s: Store, c: Claim, e: Extraction, p: Prepared)
    requires Inv(s)
    ensures Inv(Commit(s, c, e, p).0)
  {
    if LeaseCurrent(s, c) && s.jobs[c.job].snap == c.snap && !TargetMatchesClaim(s, c) {
      RequeueKeeps(s, c);
    } else if LeaseCurrent(s, c) {
      OnlyRunning(s, c.job);
      ParkingKeepsShape(s, Commit(s, c, e, p).0);
      hide Shape, Requeue;
    }
  }

  lemma FinishKeeps(s: Store, c: Claim, retry: bool)
    requires Inv(s)
    ensures Inv(FinishFailed(s, c, retry).0)
  {
    if LeaseCurrent(s, c) && s.jobs[c.job].snap == c.snap && !TargetMatchesClaim(s, c) {
      RequeueKeeps(s, c);
    } else if LeaseCurrent(s, c) {
      OnlyRunning(s, c.job);
      ParkingKeepsShape(s, FinishFailed(s, c, retry).0);
    }
  }

  lemma RecoverKeepsShape(s: Store)
    requires Inv(s)
    ensures Shape(Recover(s)) && !AnyRunning(Recover(s).jobs)
  {
    if s.target.Some? { WaitingRowFits(s); }
    forall i | i in s.jobs && s.jobs[i].status == Running
      ensures Parks(s.jobs[i], RecoveredRow(s.target, i, s.jobs[i]))
    {
      assert RowOk(s.jobs[i]);
    }
    ParkingKeepsShape(s, Recover(s));
  }

  lemma RecoverKeeps(s: Store)
    requires Inv(s)
    ensures Inv(Recover(s)) && !AnyRunning(Recover(s).jobs)
  {
    RecoverKeepsShape(s);
    assert WorkHasTarget(Recover(s));
  }

  lemma RetryKeeps(s: Store, id: nat, restart: bool)
    requires Inv(s)
    ensures Inv(RetryFailed(s, id, restart).0)
  {
    ParkingKeepsShape(s, RetryFailed(s, id, restart).0);
  }

  lemma SupersedeKeeps(s: Store, id: nat)
    requires Inv(s)
    ensures Inv(SupersedeFailed(s, id).0)
  {
    ParkingKeepsShape(s, SupersedeFailed(s, id).0);
  }
}
