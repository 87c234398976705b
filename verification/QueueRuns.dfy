/** Whole runs of the queue: any interleaving of requests, slow workers, crashes,
    operator actions and deployments. A worker keeps its claim for ever, so every
    transaction of a stale, crashed or superseded worker is part of every run. */
module QueueRuns {
  import opened Wrappers
  import opened QueueModel
  import opened QueueInvariant

  /** The tables and every claim ever handed out. */
  datatype World = World(store: Store, issued: set<Claim>)

  datatype Event =
    | Submit(request: Request)
    | ClaimNext(job: nat)
    | PublishBy(claim: Claim, summary: string, facts: seq<string>)
    | CommitBy(claim: Claim, extraction: Extraction, prepared: Prepared)
    | FailBy(claim: Claim, terminal: bool)
    | Restart
    | Retry(job: nat, restart: bool)
    | Supersede(job: nat)
    | Deploy(validator: nat)

  /** One event. A worker extracts from the source in its claim, and retries a
      failure while the attempt it claimed is below the budget. */
  ghost function Next(w: World, e: Event, budget: nat): World {
    match e
    case Submit(r) => w.(store := Enqueue(w.store, r).0)
    case ClaimNext(id) =>
      var (s, c) := ClaimJob(w.store, id);
      World(s, if c.Some? then w.issued + {c.value} else w.issued)
    case PublishBy(c, summary, facts) =>
      if c in w.issued then w.(store := Publish(w.store, c, Extraction(c.snap.fingerprint, summary, facts)).0) else w
    case CommitBy(c, x, p) =>
      if c in w.issued then w.(store := Commit(w.store, c, x, p).0) else w
    case FailBy(c, terminal) =>
      if c in w.issued then w.(store := FinishFailed(w.store, c, !terminal && c.attempts < budget).0) else w
    case Restart => w.(store := Recover(w.store))
    case Retry(id, restart) => w.(store := RetryFailed(w.store, id, restart).0)
    case Supersede(id) => w.(store := SupersedeFailed(w.store, id).0)
    case Deploy(v) => w.(store := Redeploy(w.store, v))
  }

  ghost function Run(w: World, es: seq<Event>, budget: nat): World
    decreases |es|
  {
    if es == [] then w else Run(Next(w, es[0], budget), es[1..], budget)
  }

  function Start(validator: nat): World {
    World(Empty(validator), {})
  }

  // ----- the invariant of runs -----

  /** A claim whose lease is still on its row sees the row it claimed. */
  ghost predicate ClaimOk(s: Store, c: Claim) {
    && c.lease < s.nextLease
    && (LeaseCurrent(s, c) ==> s.jobs[c.job].snap == c.snap && s.jobs[c.job].attempts == c.attempts)
  }

  ghost predicate ClaimsOk(w: World) {
    && (forall c :: c in w.issued ==> ClaimOk(w.store, c))
    && (forall c, d :: c in w.issued && d in w.issued && c.lease == d.lease ==> c == d)
  }

  /** Attempts stay within the budget plus the crashes they survived; a waiting job has one left. */
  ghost predicate AttemptsOk(s: Store, budget: nat) {
    forall i :: i in s.jobs ==>
      && s.jobs[i].attempts <= budget + s.jobs[i].recoveries
      && (s.jobs[i].status == Pending ==> s.jobs[i].attempts < budget + s.jobs[i].recoveries)
  }

  ghost predicate RunOk(w: World, budget: nat) {
    Inv(w.store) && ClaimsOk(w) && AttemptsOk(w.store, budget)
  }

  lemma StoreKeeps(w: World, e: Event, budget: nat)
    requires Inv(w.store)
    ensures Inv(Next(w, e, budget).store)
  {
    match e
    case Submit(r) => EnqueueKeeps(w.store, r);
    case ClaimNext(id) => ClaimKeeps(w.store, id);
    case PublishBy(c, summary, facts) => PublishKeeps(w.store, c, Extraction(c.snap.fingerprint, summary, facts));
    case CommitBy(c, x, p) => CommitKeeps(w.store, c, x, p);
    case FailBy(c, terminal) => FinishKeeps(w.store, c, !terminal && c.attempts < budget);
    case Restart => RecoverKeeps(w.store);
    case Retry(id, restart) => RetryKeeps(w.store, id, restart);
    case Supersede(id) => SupersedeKeeps(w.store, id);
    case Deploy(v) =>
  }

  /** What one transaction may do to a row that does not start running. */
  ghost predicate RowMoves(j: Job, j': Job) {
    || j' == j
    || (j'.status != Running && j'.attempts == 0)
    || (j'.status != Running && j'.attempts == j.attempts && j'.recoveries == j.recoveries
        && (j'.status == Pending ==> j.status == Pending))
  }

  ghost predicate RowsMove(s: Store, s': Store) {
    && s.nextLease == s'.nextLease
    && forall i :: i in s'.jobs ==>
         if i in s.jobs then RowMoves(s.jobs[i], s'.jobs[i])
         else s'.jobs[i].status != Running && s'.jobs[i].attempts == 0
  }

  lemma PointAtMovesRows(s: Store, id: nat, r: Request, snap: Snapshot)
    ensures RowsMove(s, PointAt(s, id, r, snap))
  {
  }

  lemma RetargetMovesRows(s: Store, r: Request)
    requires LeasesOk(s)
    ensures RowsMove(s, Retarget(s, r).0)
  {
    var snap := SnapshotOf(r, NextGeneration(s));
    var row := Job(Pending, None, 0, 0, snap, Some(r), r.priority);
    var hit := JobWithKey(s.jobs, r.fingerprint.boundary.key);
    var at := JobAt(s.jobs, r.fingerprint.boundary);
    if hit.None? {
      PointAtMovesRows(s.(jobs := s.jobs[s.nextJob := row], nextJob := s.nextJob + 1), s.nextJob, r, snap);
    } else if s.jobs[hit.value].status != Running {
      PointAtMovesRows(s.(jobs := s.jobs[hit.value := row]), hit.value, r, snap);
    } else if at.Some? {
      PointAtMovesRows(s, at.value, r, snap);
    }
  }

  lemma EnqueueMovesRows(s: Store, r: Request)
    requires Inv(s)
    ensures RowsMove(s, Enqueue(s, r).0)
  {
    if !LowerVersion(s, r) && !TargetMatchesRequest(s.target, r) && !AlreadyCommitted(s, r) {
      RetargetMovesRows(s, r);
    }
  }

  lemma RequeueMovesRows(s: Store, c: Claim)
    requires LeaseCurrent(s, c)
    ensures RowsMove(s, Requeue(s, c))
  {
  }

  /** A transaction leaves every row that still runs under an old lease as it was. */
  ghost predicate LeasedRowsKept(s: Store, s': Store) {
    && s.nextLease <= s'.nextLease
    && forall i :: i in s'.jobs && s'.jobs[i].status == Running && s'.jobs[i].lease != Some(s.nextLease)
         ==> (i in s.jobs && s'.jobs[i] == s.jobs[i])
  }

  lemma PublishMovesRows(s: Store, c: Claim, e: Extraction)
    ensures RowsMove(s, Publish(s, c, e).0)
  {
    if LeaseCurrent(s, c) { RequeueMovesRows(s, c); }
  }

  lemma CommitMovesRows(s: Store, c: Claim, e: Extraction, p: Prepared)
    ensures RowsMove(s, Commit(s, c, e, p).0)
  {
    if LeaseCurrent(s, c) { RequeueMovesRows(s, c); }
  }

  lemma FinishKeepsLeasedRows(s: Store, c: Claim, retry: bool)
    ensures LeasedRowsKept(s, FinishFailed(s, c, retry).0)
  {
    if LeaseCurrent(s, c) { RequeueMovesRows(s, c); }
  }

  lemma ClaimKeepsLeasedRows(s: Store, id: nat)
    ensures LeasedRowsKept(s, ClaimJob(s, id).0)
  {
  }

  lemma NextKeepsLeasedRows(w: World, e: Event, budget: nat)
    requires Inv(w.store)
    ensures LeasedRowsKept(w.store, Next(w, e, budget).store)
  {
    hide Enqueue, Publish, Commit, FinishFailed, ClaimJob, Inv;
    match e
    case Submit(r) => EnqueueMovesRows(w.store, r);
    case ClaimNext(id) => ClaimKeepsLeasedRows(w.store, id);
    case PublishBy(c, summary, facts) => PublishMovesRows(w.store, c, Extraction(c.snap.fingerprint, summary, facts));
    case CommitBy(c, x, p) => CommitMovesRows(w.store, c, x, p);
    case FailBy(c, terminal) => FinishKeepsLeasedRows(w.store, c, !terminal && c.attempts < budget);
    case Restart =>
    case Retry(_, _) =>
    case Supersede(_) =>
    case Deploy(_) =>
  }

  lemma ClaimsKeep(w: World, e: Event, budget: nat)
    requires Inv(w.store) && ClaimsOk(w)
    ensures ClaimsOk(Next(w, e, budget))
  {
    NextKeepsLeasedRows(w, e, budget);
    var w' := Next(w, e, budget);
    forall c | c in w.issued ensures ClaimOk(w'.store, c) {
      assert ClaimOk(w.store, c);
    }
  }

  lemma MovedRowsKeepAttempts(s: Store, s': Store, budget: nat)
    requires AttemptsOk(s, budget) && RowsMove(s, s') && budget > 0
    ensures AttemptsOk(s', budget)
  {
  }

  lemma FinishKeepsAttempts(s: Store, c: Claim, terminal: bool, budget: nat)
    requires AttemptsOk(s, budget) && ClaimOk(s, c) && budget > 0
    ensures AttemptsOk(FinishFailed(s, c, !terminal && c.attempts < budget).0, budget)
  {
    if LeaseCurrent(s, c) {
      RequeueMovesRows(s, c);
      MovedRowsKeepAttempts(s, Requeue(s, c), budget);
    }
  }

  lemma AttemptsKeep(w: World, e: Event, budget: nat)
    requires RunOk(w, budget) && budget > 0
    ensures AttemptsOk(Next(w, e, budget).store, budget)
  {
    var s, s' := w.store, Next(w, e, budget).store;
    match e
    case Submit(r) => EnqueueMovesRows(s, r); MovedRowsKeepAttempts(s, s', budget);
    case ClaimNext(id) =>
    case PublishBy(c, summary, facts) =>
      PublishMovesRows(s, c, Extraction(c.snap.fingerprint, summary, facts));
      if c in w.issued { MovedRowsKeepAttempts(s, s', budget); }
    case CommitBy(c, x, p) =>
      CommitMovesRows(s, c, x, p);
      if c in w.issued { MovedRowsKeepAttempts(s, s', budget); }
    case FailBy(c, terminal) => if c in w.issued { FinishKeepsAttempts(s, c, terminal, budget); }
    case Restart =>
    case Retry(_, _) =>
    case Supersede(_) =>
    case Deploy(_) =>
  }

  lemma NextOk(w: World, e: Event, budget: nat)
    requires RunOk(w, budget) && budget > 0
    ensures RunOk(Next(w, e, budget), budget)
  {
    StoreKeeps(w, e, budget);
    ClaimsKeep(w, e, budget);
    AttemptsKeep(w, e, budget);
  }

  /** Every run keeps the invariant. */
  lemma {:induction false} RunKeeps(w: World, es: seq<Event>, budget: nat)
    requires RunOk(w, budget) && budget > 0
    ensures RunOk(Run(w, es, budget), budget)
    decreases |es|
  {
    if es != [] {
      NextOk(w, es[0], budget);
      RunKeeps(Next(w, es[0], budget), es[1..], budget);
    }
  }

  /** Every state reachable from an empty store satisfies it. */
  lemma Reachable(validator: nat, es: seq<Event>, budget: nat)
    requires budget > 0
    ensures RunOk(Run(Start(validator), es, budget), budget)
  {
    EmptyKeeps(validator);
    RunKeeps(Start(validator), es, budget);
  }
}
