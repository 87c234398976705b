/** The snapshot queue of one segment: its tables, and every transaction as a
    function from the tables before to the tables after.

    The segment ID is a hash of the session and of the start of the range: of the
    start user message on boundary version 1, and of the start source message on
    versions 2 and 3. Those columns are constant here and are left out. On version
    2 the start and end user messages are forced to be equal, so `Boundary.user`
    stands for both; on version 3 there are none. SHA-256 fingerprints are
    injective, so a fingerprint is what it hashes: the boundary and the messages. */
module QueueModel {
  import opened Wrappers

  /** The columns that identify a range inside a segment. The unique index of
      `extraction_jobs` covers `key` only; the code compares `user` as well. */
  datatype Boundary = Boundary(key: string, user: string)

  datatype Fingerprint = Fingerprint(boundary: Boundary, messages: seq<string>)

  /** What a row or a claim says about the source it stands for. */
  datatype Snapshot = Snapshot(boundary: Boundary, version: nat, generation: nat, fingerprint: Fingerprint)

  /** A persisted ingest request. Its boundary and fingerprint are computed from its content. */
  datatype Request = Request(fingerprint: Fingerprint, version: nat, priority: nat)

  datatype Status = Pending | Running | Succeeded | Failed | Superseded

  /** A row of `extraction_jobs`. `recoveries` is a history variable: crash
      recoveries that kept `attempts` since `attempts` was last reset. */
  datatype Job = Job(
    status: Status,
    lease: Option<nat>,
    attempts: nat,
    recoveries: nat,
    snap: Snapshot,
    payload: Option<Request>,
    priority: nat)

  /** A model answer. `origin` is a history variable: the source it was extracted from. */
  datatype Extraction = Extraction(origin: Fingerprint, summary: string, facts: seq<string>)

  /** The fingerprint of a summary at the end of a range; injective like the others. */
  datatype Projection = Projection(boundary: Boundary, summary: string, version: nat)

  /** A published extraction, the validator version that accepted it and the
      fingerprint of its summary. */
  datatype Staged = Staged(extraction: Extraction, validator: nat, commit: Projection)

  /** A row of `segment_targets`: the snapshot the segment should reach next. */
  datatype Target = Target(job: nat, snap: Snapshot, payload: Request, priority: nat, staged: Option<Staged>)

  /** A row of `segments` with the rows of `claims` that belong to it. */
  datatype Segment = Segment(snap: Snapshot, extraction: Extraction, facts: seq<string>, commit: Projection)

  /** What a worker holds after claiming a job. */
  datatype Claim = Claim(job: nat, lease: nat, attempts: nat, snap: Snapshot, extraction: Option<Extraction>)

  /** Entity resolution of an extraction, ready to commit. */
  datatype Prepared = Prepared(boundary: Boundary, version: nat, summary: string, facts: seq<string>)

  /** The tables, the two identity sources (row IDs and lease IDs), and the
      extraction validator version of the running server. */
  datatype Store = Store(
    jobs: map<nat, Job>,
    target: Option<Target>,
    segment: Option<Segment>,
    nextJob: nat,
    nextLease: nat,
    validator: nat)

  const PROJECTION_SAFE_VERSION := 1

  function Empty(validator: nat): Store {
    Store(map[], None, None, 0, 0, validator)
  }

  // ----- guards -----

  function SnapshotOf(r: Request, generation: nat): Snapshot {
    Snapshot(r.fingerprint.boundary, r.version, generation, r.fingerprint)
  }

  /** White space as the SQL pattern for blank summaries lists it. */
  predicate Space(c: char) {
    || '\t' <= c <= '\r' || c == ' ' || c == '\U{00A0}' || c == '\U{1680}'
    || '\U{2000}' <= c <= '\U{200A}' || '\U{2028}' <= c <= '\U{2029}'
    || c == '\U{202F}' || c == '\U{205F}' || c == '\U{3000}' || c == '\U{FEFF}'
  }

  predicate Blank(s: string) {
    forall i :: 0 <= i < |s| ==> Space(s[i])
  }

  function ProjectionOf(snap: Snapshot, summary: string): Projection {
    Projection(snap.boundary, summary, snap.version)
  }

  /** The staged result of a target may be used: it was accepted by this validator,
      its summary has content, and its fingerprint is that of the target. */
  predicate StagedEligible(staged: Staged, t: Snapshot, validator: nat) {
    && staged.validator == validator && !Blank(staged.extraction.summary)
    && staged.commit == ProjectionOf(t, staged.extraction.summary)
  }

  /** The stored fingerprint of a segment is that of its columns. */
  predicate ProjectionSafe(g: Segment) {
    g.commit == ProjectionOf(g.snap, g.extraction.summary)
  }

  predicate SameContents(a: Extraction, b: Extraction) {
    a.summary == b.summary && a.facts == b.facts
  }

  ghost predicate AnyRunning(jobs: map<nat, Job>) {
    exists i :: i in jobs && jobs[i].status == Running
  }

  /** The job whose row matches a boundary in full. */
  ghost function JobAt(jobs: map<nat, Job>, b: Boundary): (r: Option<nat>)
    ensures r.Some? ==> r.value in jobs && jobs[r.value].snap.boundary == b
    ensures r.None? ==> forall i :: i in jobs ==> jobs[i].snap.boundary != b
  {
    if exists i :: i in jobs && jobs[i].snap.boundary == b then
      var i :| i in jobs && jobs[i].snap.boundary == b;
      Some(i)
    else None
  }

  /** The job that the unique index would collide with. */
  ghost function JobWithKey(jobs: map<nat, Job>, key: string): (r: Option<nat>)
    ensures r.Some? ==> r.value in jobs && jobs[r.value].snap.boundary.key == key
    ensures r.None? ==> forall i :: i in jobs ==> jobs[i].snap.boundary.key != key
  {
    if exists i :: i in jobs && jobs[i].snap.boundary.key == key then
      var i :| i in jobs && jobs[i].snap.boundary.key == key;
      Some(i)
    else None
  }

  ghost predicate IsMaxGeneration(jobs: map<nat, Job>, ids: set<nat>, base: nat, m: nat)
    requires ids <= jobs.Keys
  {
    && base <= m
    && (forall i :: i in ids ==> jobs[i].snap.generation <= m)
    && (m == base || exists i :: i in ids && jobs[i].snap.generation == m)
  }

  ghost function MaxGeneration(jobs: map<nat, Job>, ids: set<nat>, base: nat): (m: nat)
    requires ids <= jobs.Keys
    ensures IsMaxGeneration(jobs, ids, base, m)
  {
    if ids == {} then base else
      var i :| i in ids;
      var rest := MaxGeneration(jobs, ids - {i}, base);
      if jobs[i].snap.generation > rest then jobs[i].snap.generation else rest
  }

  /** One above every generation the segment, the target and the jobs carry. */
  ghost function NextGeneration(s: Store): nat {
    var a := if s.segment.Some? then s.segment.value.snap.generation else 0;
    var b := if s.target.Some? && s.target.value.snap.generation > a then s.target.value.snap.generation else a;
    MaxGeneration(s.jobs, s.jobs.Keys, b) + 1
  }

  ghost predicate LowerVersion(s: Store, r: Request) {
    || (s.segment.Some? && r.version < s.segment.value.snap.version)
    || (s.target.Some? && r.version < s.target.value.snap.version)
    || (var j := JobAt(s.jobs, r.fingerprint.boundary); j.Some? && r.version < s.jobs[j.value].snap.version)
  }

  predicate TargetMatchesRequest(t: Option<Target>, r: Request) {
    && t.Some?
    && t.value.snap.version == r.version
    && t.value.snap.fingerprint == r.fingerprint
    && t.value.snap.boundary == r.fingerprint.boundary
    && t.value.payload.fingerprint == r.fingerprint
    && t.value.payload.version == r.version
  }

  predicate AlreadyCommitted(s: Store, r: Request) {
    && s.segment.Some?
    && s.target.None?
    && s.segment.value.snap.boundary == r.fingerprint.boundary
    && s.segment.value.snap.fingerprint == r.fingerprint
    && s.segment.value.snap.version == r.version
    && (r.version < PROJECTION_SAFE_VERSION || ProjectionSafe(s.segment.value))
    && !Blank(s.segment.value.extraction.summary)
  }

  predicate LeaseCurrent(s: Store, c: Claim) {
    && c.job in s.jobs
    && s.jobs[c.job].status == Running
    && s.jobs[c.job].lease == Some(c.lease)
  }

  predicate TargetMatchesClaim(s: Store, c: Claim) {
    && s.target.Some?
    && s.target.value.job == c.job
    && s.target.value.snap == c.snap
    && s.target.value.payload.fingerprint == c.snap.fingerprint
    && s.target.value.payload.version == c.snap.version
  }

  // ----- rows -----

  function SupersededRow(j: Job): Job {
    j.(status := Superseded, lease := None, payload := None)
  }

  /** The row a target prescribes for its job, waiting and with a fresh budget. */
  function Waiting(t: Target): Job {
    Job(Pending, None, 0, 0, t.snap, Some(t.payload), t.priority)
  }

  function SupersedeOthers(jobs: map<nat, Job>, id: nat): map<nat, Job> {
    map i | i in jobs ::
      if i != id && (jobs[i].status == Pending || jobs[i].status == Failed) then SupersededRow(jobs[i]) else jobs[i]
  }

  // ----- enqueue -----

  datatype EnqueueResult =
    | Ignored(job: nat)
    | Refreshed(job: nat)
    | Settled(job: nat)
    | Targeted(job: nat)
    | UniqueViolation
    | LostBoundaryJob

  ghost function Enqueue(s: Store, r: Request): (Store, EnqueueResult) {
    if LowerVersion(s, r) then Ignore(s, r)
    else if TargetMatchesRequest(s.target, r) && s.target.value.job in s.jobs then Refresh(s, r)
    else if AlreadyCommitted(s, r) then Settle(s, r)
    else Retarget(s, r)
  }

  /** A request below a version already seen leaves no trace but a superseded row. */
  ghost function Ignore(s: Store, r: Request): (Store, EnqueueResult) {
    var at := JobAt(s.jobs, r.fingerprint.boundary);
    if at.Some? then (s, Ignored(at.value))
    else if JobWithKey(s.jobs, r.fingerprint.boundary.key).Some? then (s, UniqueViolation)
    else
      var row := Job(Superseded, None, 0, 0, SnapshotOf(r, 0), None, r.priority);
      (s.(jobs := s.jobs[s.nextJob := row], nextJob := s.nextJob + 1), Ignored(s.nextJob))
  }

  /** The same snapshot again: raise the priority, and restart a failed job
      whose staged extraction is no longer acceptable. */
  function Refresh(s: Store, r: Request): (Store, EnqueueResult)
    requires s.target.Some? && s.target.value.job in s.jobs
  {
    var t := s.target.value;
    var j := s.jobs[t.job];
    var reset := t.staged.Some? && !StagedEligible(t.staged.value, t.snap, s.validator) && j.status == Failed;
    var priority := if t.priority > r.priority then t.priority else r.priority;
    var payload := r.(priority := priority);
    var t' := t.(payload := payload, priority := priority, staged := if reset then None else t.staged);
    var j' :=
      if reset then Job(Pending, None, 0, 0, j.snap, Some(payload), priority)
      else if j.status == Running then j
      else j.(payload := Some(payload), priority := priority);
    (s.(target := Some(t'), jobs := s.jobs[t.job := j']), Refreshed(t.job))
  }

  /** The committed segment already is this snapshot. */
  ghost function Settle(s: Store, r: Request): (Store, EnqueueResult)
    requires s.segment.Some?
  {
    var at := JobAt(s.jobs, r.fingerprint.boundary);
    var snap := SnapshotOf(r, s.segment.value.snap.generation);
    if at.Some? then
      var j := s.jobs[at.value];
      var priority := if j.priority > r.priority then j.priority else r.priority;
      var j' := j.(status := Succeeded, lease := None, payload := None, snap := snap, priority := priority);
      (if j.status == Running then s else s.(jobs := s.jobs[at.value := j']), Settled(at.value))
    else if JobWithKey(s.jobs, r.fingerprint.boundary.key).Some? then (s, UniqueViolation)
    else
      var row := Job(Succeeded, None, 0, 0, snap, None, r.priority);
      (s.(jobs := s.jobs[s.nextJob := row], nextJob := s.nextJob + 1), Settled(s.nextJob))
  }

  /** A new snapshot becomes the target. Its job is the row the unique index
      selects; a running row is left alone and only pointed at. */
  ghost function Retarget(s: Store, r: Request): (Store, EnqueueResult) {
    var generation := NextGeneration(s);
    var snap := SnapshotOf(r, generation);
    var row := Job(Pending, None, 0, 0, snap, Some(r), r.priority);
    var hit := JobWithKey(s.jobs, r.fingerprint.boundary.key);
    var at := JobAt(s.jobs, r.fingerprint.boundary);
    if hit.None? then
      (PointAt(s.(jobs := s.jobs[s.nextJob := row], nextJob := s.nextJob + 1), s.nextJob, r, snap), Targeted(s.nextJob))
    else if s.jobs[hit.value].status != Running then
      (PointAt(s.(jobs := s.jobs[hit.value := row]), hit.value, r, snap), Targeted(hit.value))
    else if at.Some? then
      (PointAt(s, at.value, r, snap), Targeted(at.value))
    else (s, LostBoundaryJob)
  }

  function PointAt(s: Store, id: nat, r: Request, snap: Snapshot): Store {
    s.(target := Some(Target(id, snap, r, r.priority, None)), jobs := SupersedeOthers(s.jobs, id))
  }

  // ----- claim -----

  /** The rows `claimOldestJob` may select. Which of them is oldest, and whether
      its retry time has come, is left open. */
  ghost predicate Claimable(s: Store, id: nat) {
    && id in s.jobs
    && s.jobs[id].status == Pending
    && s.target.Some? && s.target.value.job == id && s.target.value.snap == s.jobs[id].snap
    && !AnyRunning(s.jobs)
  }

  predicate PayloadMatchesRow(j: Job) {
    && j.payload.Some?
    && j.payload.value.fingerprint.boundary == j.snap.boundary
    && j.payload.value.version == j.snap.version
    && j.payload.value.priority == j.priority
    && j.payload.value.fingerprint == j.snap.fingerprint
  }

  ghost function ClaimJob(s: Store, id: nat): (Store, Option<Claim>) {
    if !Claimable(s, id) then (s, None)
    else
      var j := s.jobs[id];
      if !PayloadMatchesRow(j) then
        (s.(jobs := s.jobs[id := j.(status := Failed, attempts := j.attempts + 1, lease := None)]), None)
      else
        var staged := s.target.value.staged;
        var reuse :=
          if staged.Some? && StagedEligible(staged.value, s.target.value.snap, s.validator) then Some(staged.value.extraction) else None;
        (s.(jobs := s.jobs[id := j.(status := Running, attempts := j.attempts + 1, lease := Some(s.nextLease))],
            nextLease := s.nextLease + 1),
         Some(Claim(id, s.nextLease, j.attempts + 1, j.snap, reuse)))
  }

  // ----- transactions by a claim -----

  /** Give up a running job whose snapshot is out of date, and put the latest target to work. */
  function Requeue(s: Store, c: Claim): Store
    requires c.job in s.jobs
  {
    if s.target.None? then s.(jobs := s.jobs[c.job := SupersededRow(s.jobs[c.job])])
    else
      var t := s.target.value;
      if t.job == c.job then s.(jobs := s.jobs[c.job := Waiting(t)])
      else
        var jobs := s.jobs[c.job := SupersededRow(s.jobs[c.job])];
        s.(jobs := if t.job in jobs && jobs[t.job].status != Running then jobs[t.job := Waiting(t)] else jobs)
  }

  datatype PublishResult = Published | NotPublished | Refused

  /** What a publication stages. */
  function StagedBy(s: Store, c: Claim, e: Extraction): Staged {
    Staged(e, s.validator, ProjectionOf(c.snap, e.summary))
  }

  function Publish(s: Store, c: Claim, e: Extraction): (Store, PublishResult) {
    if Blank(e.summary) then (s, Refused)
    else if !LeaseCurrent(s, c) || s.jobs[c.job].snap != c.snap then (s, NotPublished)
    else if !TargetMatchesClaim(s, c) then (Requeue(s, c), NotPublished)
    else (s.(target := Some(s.target.value.(staged := Some(StagedBy(s, c, e))))), Published)
  }

  datatype CommitResult = Committed | Stale | Thrown

  function Commit(s: Store, c: Claim, e: Extraction, p: Prepared): (Store, CommitResult) {
    if Blank(e.summary) then (s, Thrown)
    else if p.boundary != c.snap.boundary || p.version != c.snap.version || p.summary != e.summary then (s, Thrown)
    else if !LeaseCurrent(s, c) then (s, Thrown)
    else if s.jobs[c.job].snap != c.snap then (s, Stale)
    else if !TargetMatchesClaim(s, c) then (Requeue(s, c), Stale)
    else
      var staged := s.target.value.staged;
      var commit := Projection(p.boundary, e.summary, p.version);
      if staged.None? || !StagedEligible(staged.value, s.target.value.snap, s.validator) then (s, Thrown)
      else if staged.value.commit != commit || !SameContents(staged.value.extraction, e) then (s, Thrown)
      else
        var done := s.jobs[c.job].(status := Succeeded, lease := None, payload := None);
        var closed := s.(jobs := s.jobs[c.job := done], target := None);
        if s.segment.Some? && s.segment.value.snap.version > p.version then (closed, Committed)
        else (closed.(segment := Some(Segment(c.snap, staged.value.extraction, p.facts, commit))), Committed)
  }

  /** Whether the committed segment already is what a failing target asks for. */
  predicate SegmentCoversTarget(s: Store) {
    && s.target.Some? && s.segment.Some?
    && s.target.value.staged.None?
    && s.segment.value.snap.generation == s.target.value.snap.generation
    && s.segment.value.snap.fingerprint == s.target.value.snap.fingerprint
    && s.segment.value.snap.boundary == s.target.value.snap.boundary
    && s.segment.value.snap.version >= s.target.value.snap.version
  }

  function FinishFailed(s: Store, c: Claim, retry: bool): (Store, bool) {
    if !LeaseCurrent(s, c) || s.jobs[c.job].snap != c.snap then (s, false)
    else if !TargetMatchesClaim(s, c) then (Requeue(s, c), true)
    else
      var row := s.jobs[c.job].(status := if retry then Pending else Failed, lease := None);
      var s' := s.(jobs := s.jobs[c.job := row]);
      (if !retry && SegmentCoversTarget(s') then s'.(target := None) else s', true)
  }

  // ----- recovery and operator actions -----

  function RecoveredRow(t: Option<Target>, id: nat, j: Job): Job {
    if t.Some? && t.value.job == id then
      if t.value.snap != j.snap then Waiting(t.value)
      else Waiting(t.value).(attempts := j.attempts, recoveries := j.recoveries + 1)
    else SupersededRow(j)
  }

  /** The worker restarts: every running job lost its worker. */
  function Recover(s: Store): Store {
    s.(jobs := map i | i in s.jobs ::
      if s.jobs[i].status == Running then RecoveredRow(s.target, i, s.jobs[i]) else s.jobs[i])
  }

  /** A failed job with no lease whose target still carries its snapshot. */
  predicate Retryable(s: Store, id: nat) {
    && id in s.jobs
    && s.jobs[id].status == Failed && s.jobs[id].lease.None?
    && s.target.Some?
    && s.target.value.job == id
    && s.target.value.snap == s.jobs[id].snap
    && s.target.value.payload.fingerprint == s.jobs[id].snap.fingerprint
    && s.target.value.payload.fingerprint.boundary == s.target.value.snap.boundary
    && s.target.value.payload.version == s.jobs[id].snap.version
  }

  function RetryFailed(s: Store, id: nat, restart: bool): (Store, bool) {
    if !Retryable(s, id) then (s, false)
    else
      var t := if restart then s.target.value.(staged := None) else s.target.value;
      (s.(target := Some(t), jobs := s.jobs[id := Waiting(t)]), true)
  }

  function SupersedeFailed(s: Store, id: nat): (Store, bool) {
    if !Retryable(s, id) then (s, false)
    else (s.(target := None, jobs := s.jobs[id := SupersededRow(s.jobs[id])]), true)
  }

  /** The server restarts with another extraction validator. */
  function Redeploy(s: Store, validator: nat): Store {
    s.(validator := validator)
  }

  /** The rows that search and recall may use. */
  predicate CommittedEligible(s: Store) {
    && s.segment.Some?
    && !Blank(s.segment.value.extraction.summary)
    && ProjectionSafe(s.segment.value)
    && (s.target.None? || s.target.value.snap == s.segment.value.snap)
  }
}
