/** What the queue promises, over every reachable state and every run. */
module QueueTheorems {
  import opened Wrappers
  import opened QueueModel
  import opened QueueInvariant
  import opened QueueRuns

  lemma RetargetReaches(s: Store, r: Request)
    requires Inv(s)
    ensures var (s', result) := Retarget(s, r);
      && s'.segment == s.segment
      && (result.Targeted? ==>
            s'.target == Some(Target(result.job, SnapshotOf(r, NextGeneration(s)), r, r.priority, None)))
      && (!result.Targeted? ==> s' == s)
  {
  }

  // ----- no stale write -----

  /** A claim is current while it holds the lease and the target still carries its snapshot. */
  ghost predicate Current(s: Store, c: Claim) {
    && LeaseCurrent(s, c)
    && s.target.Some? && s.target.value.job == c.job && s.target.value.snap == c.snap
  }

  predicate ByClaim(e: Event, c: Claim) {
    || (e.PublishBy? && e.claim == c)
    || (e.CommitBy? && e.claim == c)
    || (e.FailBy? && e.claim == c)
  }

  ghost function StagedResult(s: Store): Option<Staged> {
    if s.target.Some? then s.target.value.staged else None
  }

  /** A segment whose summary fingerprint is its own. */
  function SegmentBy(snap: Snapshot, extraction: Extraction, facts: seq<string>): Segment {
    Segment(snap, extraction, facts, ProjectionOf(snap, extraction.summary))
  }

  /** Only a commit by a current claim touches the segment. It stores the staged
      extraction of exactly the claimed source, at a higher generation and not at
      a lower projection version. */
  lemma CommitsAreCurrent(w: World, e: Event, budget: nat)
    requires RunOk(w, budget)
    requires Next(w, e, budget).store.segment != w.store.segment
    ensures e.CommitBy? && e.claim in w.issued && Current(w.store, e.claim)
    ensures var staged := StagedResult(w.store);
      && staged.Some? && staged.value.validator == w.store.validator
      && SameContents(staged.value.extraction, e.extraction)
      && staged.value.extraction.origin == e.claim.snap.fingerprint
      && Next(w, e, budget).store.segment
         == Some(SegmentBy(e.claim.snap, staged.value.extraction, e.prepared.facts))
    ensures Next(w, e, budget).store.target == None
    ensures w.store.segment.Some? ==>
              && w.store.segment.value.snap.generation < e.claim.snap.generation
              && w.store.segment.value.snap.version <= e.claim.snap.version
  {
    if !e.CommitBy? { OthersKeepSegment(w, e, budget); }
    hide Enqueue, ClaimJob, Publish, FinishFailed, Recover, Requeue, ClaimsOk, AttemptsOk, Shape;
  }

  lemma OthersKeepSegment(w: World, e: Event, budget: nat)
    requires Inv(w.store) && !e.CommitBy?
    ensures Next(w, e, budget).store.segment == w.store.segment
  {
    hide Inv;
  }

  /** Only a publication by a current claim stages a result, and it is the claimed source's. */
  lemma PublicationsAreCurrent(w: World, e: Event, budget: nat)
    requires RunOk(w, budget)
    requires StagedResult(Next(w, e, budget).store).Some?
    requires StagedResult(Next(w, e, budget).store) != StagedResult(w.store)
    ensures e.PublishBy? && e.claim in w.issued && Current(w.store, e.claim)
    ensures StagedResult(Next(w, e, budget).store).value
         == StagedBy(w.store, e.claim, Extraction(e.claim.snap.fingerprint, e.summary, e.facts))
    ensures !Blank(e.summary)
    ensures Next(w, e, budget).store.target.value.snap == e.claim.snap
  {
    if e.Submit? && !LowerVersion(w.store, e.request) && !TargetMatchesRequest(w.store.target, e.request)
       && !AlreadyCommitted(w.store, e.request) {
      RetargetReaches(w.store, e.request);
    }
  }

  /** A claim that is not current changes neither the staged result nor the segment. */
  lemma StaleClaimWritesNothing(w: World, e: Event, c: Claim, budget: nat)
    requires RunOk(w, budget) && ByClaim(e, c) && !Current(w.store, c)
    ensures Next(w, e, budget).store.segment == w.store.segment
    ensures StagedResult(Next(w, e, budget).store) == StagedResult(w.store)
    ensures w.store.target == Next(w, e, budget).store.target
  {
    if Next(w, e, budget).store.segment != w.store.segment { CommitsAreCurrent(w, e, budget); }
    if c in w.issued { assert ClaimOk(w.store, c); }
  }

  /** The claim still holds its lease, but the target has moved on. */
  ghost predicate Outdated(s: Store, c: Claim) {
    && LeaseCurrent(s, c)
    && s.target.Some?
    && c.snap.generation < s.target.value.snap.generation
  }

  lemma StaleIsOutdated(w: World, c: Claim, budget: nat)
    requires RunOk(w, budget) && c in w.issued
    requires LeaseCurrent(w.store, c) && !Current(w.store, c)
    ensures Outdated(w.store, c)
  {
    assert ClaimOk(w.store, c);
  }

  lemma EnqueueKeepsOutdated(s: Store, r: Request, c: Claim)
    requires Inv(s) && Outdated(s, c)
    ensures !Current(Enqueue(s, r).0, c)
  {
    assert LowerVersion(s, r) || TargetMatchesRequest(s.target, r) || s.target.value.snap.generation < NextGeneration(s);
  }

  lemma NextKeepsOutdated(w: World, e: Event, c: Claim, budget: nat)
    requires RunOk(w, budget) && c in w.issued && Outdated(w.store, c)
    ensures !Current(Next(w, e, budget).store, c)
  {
    assert ClaimOk(w.store, c);
    OnlyRunning(w.store, c.job);
    if e.Submit? { EnqueueKeepsOutdated(w.store, e.request, c); }
  }

  lemma NextKeepsStale(w: World, e: Event, c: Claim, budget: nat)
    requires RunOk(w, budget) && c in w.issued && !Current(w.store, c)
    ensures !Current(Next(w, e, budget).store, c)
    ensures c in Next(w, e, budget).issued
  {
    assert ClaimOk(w.store, c);
    if LeaseCurrent(w.store, c) {
      StaleIsOutdated(w, c, budget);
      NextKeepsOutdated(w, e, c, budget);
    } else {
      NextKeepsLeasedRows(w, e, budget);
    }
  }

  /** Staleness is for ever, whatever content comes back later. */
  lemma {:induction false} StaleForEver(w: World, es: seq<Event>, c: Claim, budget: nat)
    requires RunOk(w, budget) && budget > 0 && c in w.issued && !Current(w.store, c)
    ensures RunOk(Run(w, es, budget), budget)
    ensures !Current(Run(w, es, budget).store, c)
    decreases |es|
  {
    if es != [] {
      NextKeepsStale(w, es[0], c, budget);
      NextOk(w, es[0], budget);
      StaleForEver(Next(w, es[0], budget), es[1..], c, budget);
    }
  }

  /** Once a claim is stale, nothing it does after any further run changes the
      target, the staged result or the segment. */
  lemma StaleClaimNeverWrites(w: World, es: seq<Event>, e: Event, c: Claim, budget: nat)
    requires RunOk(w, budget) && budget > 0 && c in w.issued && !Current(w.store, c) && ByClaim(e, c)
    ensures var v := Run(w, es, budget);
            && Next(v, e, budget).store.segment == v.store.segment
            && Next(v, e, budget).store.target == v.store.target
  {
    StaleForEver(w, es, c, budget);
    StaleClaimWritesNothing(Run(w, es, budget), e, c, budget);
  }

  /** A new snapshot makes every outstanding claim stale, even a claim of equal content. */
  lemma RetargetOutdatesClaims(w: World, r: Request, c: Claim, budget: nat)
    requires RunOk(w, budget) && c in w.issued
    requires Enqueue(w.store, r).1.Targeted?
    ensures !Current(Next(w, Submit(r), budget).store, c)
  {
    assert ClaimOk(w.store, c);
    EnqueueMovesRows(w.store, r);
    OutdatedByTarget(w.store, r);
    hide Enqueue, NextGeneration, Shape, ClaimsOk, AttemptsOk;
  }

  lemma OutdatedByTarget(s: Store, r: Request)
    requires Inv(s) && Enqueue(s, r).1.Targeted?
    ensures var s' := Enqueue(s, r).0;
      && s'.target.Some? && s'.target.value.snap.generation == NextGeneration(s)
      && forall i :: i in s.jobs ==> s.jobs[i].snap.generation < NextGeneration(s)
  {
    RetargetReaches(s, r);
    hide Retarget;
  }

  /** Content going from A to B and back to A while a worker holds the first
      claim: the worker's answer about the first A is never stored. */
  lemma ReturningContentIsNotTheClaim(
    w: World, a: Request, b: Request, between: seq<Event>, after: seq<Event>, e: Event, c: Claim, budget: nat)
    requires RunOk(w, budget) && budget > 0 && c in w.issued && ByClaim(e, c)
    requires Current(w.store, c) && c.snap.fingerprint == a.fingerprint
    requires Enqueue(w.store, b).1.Targeted?
    ensures var v := Run(Next(Run(Next(w, Submit(b), budget), between, budget), Submit(a), budget), after, budget);
            && Next(v, e, budget).store.segment == v.store.segment
            && Next(v, e, budget).store.target == v.store.target
  {
    var w1 := Next(w, Submit(b), budget);
    RetargetOutdatesClaims(w, b, c, budget);
    NextOk(w, Submit(b), budget);
    IssuedStays(w1, between, c, budget);
    StaleForEver(w1, between, c, budget);
    var w2 := Run(w1, between, budget);
    NextKeepsStale(w2, Submit(a), c, budget);
    NextOk(w2, Submit(a), budget);
    StaleClaimNeverWrites(Next(w2, Submit(a), budget), after, e, c, budget);
  }

  lemma {:induction false} IssuedStays(w: World, es: seq<Event>, c: Claim, budget: nat)
    requires c in w.issued
    ensures c in Run(w, es, budget).issued
    decreases |es|
  {
    if es != [] { IssuedStays(Next(w, es[0], budget), es[1..], c, budget); }
  }

  // ----- the segment only rises -----

  ghost predicate Rises(a: Option<Segment>, b: Option<Segment>) {
    a.Some? ==>
      && b.Some?
      && a.value.snap.generation <= b.value.snap.generation
      && a.value.snap.version <= b.value.snap.version
      && (a.value.snap.generation == b.value.snap.generation ==> a == b)
  }

  /** Over any run the committed generation and version never fall, and a
      generation is written at most once. */
  lemma {:induction false} SegmentRises(w: World, es: seq<Event>, budget: nat)
    requires RunOk(w, budget) && budget > 0
    ensures Rises(w.store.segment, Run(w, es, budget).store.segment)
    decreases |es|
  {
    if es != [] {
      var w' := Next(w, es[0], budget);
      if w'.store.segment != w.store.segment { CommitsAreCurrent(w, es[0], budget); }
      NextOk(w, es[0], budget);
      SegmentRises(w', es[1..], budget);
    }
  }

  /** A committed summary is served exactly when no newer target is outstanding. */
  lemma EligibleIffSettled(s: Store)
    requires Inv(s)
    ensures CommittedEligible(s) <==> s.segment.Some? && s.target.None?
  {
  }

  // ----- what a request achieves -----

  /** A request ends as the target, as the committed segment, or is below a version already accepted. */
  lemma EnqueueReaches(s: Store, r: Request)
    requires Inv(s)
    ensures var (s', result) := Enqueue(s, r);
      match result
      case Ignored(_) =>
        LowerVersion(s, r) && s'.target == s.target && s'.segment == s.segment
      case Refreshed(id) =>
        && s'.target.Some? && s'.target.value.job == id && s'.target.value.snap == s.target.value.snap
        && s'.target.value.snap == SnapshotOf(r, s.target.value.snap.generation)
        && s.target.value.priority <= s'.target.value.priority && r.priority <= s'.target.value.priority
      case Settled(_) =>
        s'.target.None? && s'.segment == s.segment && s'.segment.Some?
        && s'.segment.value.snap == SnapshotOf(r, s.segment.value.snap.generation)
      case Targeted(id) =>
        && s'.target == Some(Target(id, SnapshotOf(r, NextGeneration(s)), r, r.priority, None))
        && s'.segment == s.segment
      case _ => s' == s
  {
    if !LowerVersion(s, r) && !TargetMatchesRequest(s.target, r) && !AlreadyCommitted(s, r) {
      RetargetReaches(s, r);
    }
  }

  /** The only request that fails is one whose row key belongs to a row of another
      user boundary that it may not overwrite. */
  lemma EnqueueFailsIff(s: Store, r: Request)
    requires Inv(s)
    ensures Enqueue(s, r).1.UniqueViolation? || Enqueue(s, r).1.LostBoundaryJob?
      <==> exists i :: && i in s.jobs
                       && s.jobs[i].snap.boundary.key == r.fingerprint.boundary.key
                       && s.jobs[i].snap.boundary.user != r.fingerprint.boundary.user
                       && (LowerVersion(s, r) || AlreadyCommitted(s, r) || s.jobs[i].status == Running)
  {
    var b := r.fingerprint.boundary;
    JobAtIsKeyed(s, b);
    var hit := JobWithKey(s.jobs, b.key);
    forall i | i in s.jobs && s.jobs[i].snap.boundary.key == b.key ensures hit == Some(i) {
      assert SameKey(s.jobs, i, hit.value);
    }
    if hit.Some? && s.jobs[hit.value].snap.boundary.user != b.user {
      assert JobAt(s.jobs, b).None?;
    }
  }

  // ----- no lost work -----

  /** The target's job is waiting, running or failed, never succeeded or superseded. */
  lemma TargetJobIsOpen(s: Store)
    requires Inv(s) && s.target.Some?
    ensures s.target.value.job in s.jobs
    ensures var j := s.jobs[s.target.value.job];
      || (j.status == Pending && j.snap == s.target.value.snap)
      || j.status == Running
      || (j.status == Failed && Retryable(s, s.target.value.job))
  {
    assert RowOk(s.jobs[s.target.value.job]);
  }

  /** A waiting target can be claimed as soon as nothing runs, and is claimed whole. */
  lemma WaitingTargetIsClaimed(s: Store)
    requires Inv(s) && s.target.Some? && s.jobs[s.target.value.job].status == Pending && !AnyRunning(s.jobs)
    ensures var c := ClaimJob(s, s.target.value.job).1;
      && c.Some?
      && c.value.snap == s.target.value.snap
      && Current(ClaimJob(s, s.target.value.job).0, c.value)
      && (c.value.extraction.Some? ==> c.value.extraction.value.origin == c.value.snap.fingerprint)
  {
    assert RowOk(s.jobs[s.target.value.job]);
  }

  /** No claim is ever turned into a failed row by the payload checks. */
  lemma ClaimsNeverPoison(s: Store, id: nat)
    requires Inv(s)
    ensures Claimable(s, id) ==> ClaimJob(s, id).1.Some?
    ensures !Claimable(s, id) ==> ClaimJob(s, id) == (s, None)
  {
    if Claimable(s, id) { assert RowOk(s.jobs[id]); }
  }

  /** A call that is refused before it looks at the tables: the worker then fails the attempt. */
  predicate Throws(e: Event, c: Claim) {
    || (e.PublishBy? && Blank(e.summary))
    || (e.CommitBy? && (|| Blank(e.extraction.summary)
                        || e.prepared.boundary != c.snap.boundary || e.prepared.version != c.snap.version
                        || e.prepared.summary != e.extraction.summary))
  }

  /** Every way an out-of-date worker can end puts the latest target to work; a
      call that throws changes nothing. */
  lemma OutdatedWorkRequeues(w: World, e: Event, c: Claim, budget: nat)
    requires RunOk(w, budget) && c in w.issued && Outdated(w.store, c) && ByClaim(e, c)
    ensures Throws(e, c) ==> Next(w, e, budget) == w
    ensures !Throws(e, c) ==>
      var s' := Next(w, e, budget).store;
      && s'.target == w.store.target
      && !AnyRunning(s'.jobs)
      && s'.jobs[s'.target.value.job] == Waiting(s'.target.value)
  {
    assert ClaimOk(w.store, c);
    RequeueKeeps(w.store, c);
  }

  /** Crash recovery leaves nothing running and the target's job waiting or failed. */
  lemma RecoveryRequeues(s: Store)
    requires Inv(s)
    ensures Recover(s).target == s.target && !AnyRunning(Recover(s).jobs)
    ensures s.target.Some? ==>
      var j := Recover(s).jobs[s.target.value.job];
      (j.status == Pending || j.status == Failed) && j.snap == s.target.value.snap
  {
    RecoverKeeps(s);
  }

  /** The branch that drops a target the segment already covers is never taken. */
  lemma FailureKeepsTarget(s: Store, c: Claim, retry: bool)
    requires Inv(s)
    ensures FinishFailed(s, c, retry).0.target == s.target
  {
  }

  /** Nor is the commit branch that keeps an older summary of a higher version. */
  lemma CommitWritesItsSnapshot(s: Store, c: Claim, e: Extraction, p: Prepared)
    requires Inv(s) && Commit(s, c, e, p).1 == Committed
    ensures s.target.Some? && s.target.value.staged.Some?
    ensures Commit(s, c, e, p).0.segment == Some(SegmentBy(c.snap, s.target.value.staged.value.extraction, p.facts))
  {
  }

  // ----- every target can still be reached -----

  /** The claim the next worker would get for the target. */
  ghost function NextClaim(s: Store): Claim
    requires s.target.Some? && s.target.value.job in s.jobs
  {
    var t := s.target.value;
    var staged := t.staged;
    Claim(t.job, s.nextLease, s.jobs[t.job].attempts + 1, s.jobs[t.job].snap,
          if staged.Some? && StagedEligible(staged.value, t.snap, s.validator) then Some(staged.value.extraction) else None)
  }

  /** One worker pass over a waiting target. */
  ghost function WorkerPass(s: Store, summary: string, facts: seq<string>): seq<Event>
    requires s.target.Some? && s.target.value.job in s.jobs
  {
    var c := NextClaim(s);
    [ClaimNext(c.job),
     PublishBy(c, summary, facts),
     CommitBy(c, Extraction(c.snap.fingerprint, summary, facts), Prepared(c.snap.boundary, c.snap.version, summary, facts))]
  }

  lemma WorkerPassCommits(w: World, summary: string, facts: seq<string>, budget: nat)
    requires Inv(w.store) && w.store.target.Some? && !Blank(summary)
    requires w.store.jobs[w.store.target.value.job].status == Pending && !AnyRunning(w.store.jobs)
    ensures var s' := Run(w, WorkerPass(w.store, summary, facts), budget).store;
      && s'.target.None?
      && s'.segment == Some(SegmentBy(w.store.target.value.snap,
                                      Extraction(w.store.target.value.snap.fingerprint, summary, facts), facts))
  {
    var t := w.store.target.value;
    assert RowOk(w.store.jobs[t.job]);
    var es := WorkerPass(w.store, summary, facts);
    var c := NextClaim(w.store);
    var w1 := Next(w, es[0], budget);
    assert w1.store.target == Some(t) && c in w1.issued;
    assert w1.store.jobs[t.job].status == Running && w1.store.jobs[t.job].lease == Some(c.lease);
    var w2 := Next(w1, es[1], budget);
    assert w2.store.target == Some(t.(staged := Some(StagedBy(w.store, c, Extraction(t.snap.fingerprint, summary, facts)))));
    var w3 := Next(w2, es[2], budget);
    assert es[1..][0] == es[1] && es[1..][1..] == es[2..] && es[2..][0] == es[2] && es[2..][1..] == [];
    assert Run(w, es, budget) == Run(w1, es[1..], budget) == Run(w2, es[2..], budget) == Run(w3, [], budget);
  }

  /** The target was committed with the given answer. */
  ghost predicate CommittedAs(s: Store, t: Target, summary: string, facts: seq<string>) {
    && s.target.None?
    && s.segment == Some(SegmentBy(t.snap, Extraction(t.snap.fingerprint, summary, facts), facts))
  }

  lemma RestedTargetIsReachable(w: World, summary: string, facts: seq<string>, budget: nat) returns (es: seq<Event>)
    requires Inv(w.store) && w.store.target.Some? && !Blank(summary) && !AnyRunning(w.store.jobs)
    ensures |es| <= 4
    ensures CommittedAs(Run(w, es, budget).store, w.store.target.value, summary, facts)
  {
    var id := w.store.target.value.job;
    TargetJobIsOpen(w.store);
    if w.store.jobs[id].status == Failed {
      RetryKeeps(w.store, id, true);
      var w' := Next(w, Retry(id, true), budget);
      var pass := WorkerPass(w'.store, summary, facts);
      WorkerPassCommits(w', summary, facts, budget);
      es := [Retry(id, true)] + pass;
      assert es[1..] == pass;
    } else {
      es := WorkerPass(w.store, summary, facts);
      WorkerPassCommits(w, summary, facts, budget);
    }
  }

  /** Whatever has happened, a restart, a retry if the job had failed, and one
      successful worker pass commit the target that is outstanding. */
  lemma TargetIsReachable(w: World, summary: string, facts: seq<string>, budget: nat) returns (es: seq<Event>)
    requires RunOk(w, budget) && budget > 0 && w.store.target.Some? && !Blank(summary)
    ensures |es| <= 5
    ensures CommittedAs(Run(w, es, budget).store, w.store.target.value, summary, facts)
  {
    RecoverKeeps(w.store);
    var rest := RestedTargetIsReachable(Next(w, Restart, budget), summary, facts, budget);
    es := [Restart] + rest;
    assert es[1..] == rest;
  }
}
