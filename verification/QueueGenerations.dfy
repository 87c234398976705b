/** When a generation can be handed out a second time. Claims stay fenced by their
    leases all the same; see QueueTheorems. */
module QueueGenerations {
  import opened Wrappers
  import opened QueueModel
  import opened QueueInvariant
  import opened QueueRuns

  // ----- the highest generation -----

  /** Every generation in the tables is below m. */
  ghost predicate AllBelow(s: Store, m: nat) {
    && (forall i :: i in s.jobs ==> s.jobs[i].snap.generation < m)
    && (s.target.Some? ==> s.target.value.snap.generation < m)
    && (s.segment.Some? ==> s.segment.value.snap.generation < m)
  }

  /** It is the least number above all generations. */
  lemma NextGenerationIsLeast(s: Store, m: nat)
    requires m > 0
    ensures NextGeneration(s) > 0 && AllBelow(s, NextGeneration(s))
    ensures AllBelow(s, m) <==> NextGeneration(s) <= m
  {
    var a := if s.segment.Some? then s.segment.value.snap.generation else 0;
    var b := if s.target.Some? && s.target.value.snap.generation > a then s.target.value.snap.generation else a;
    assert IsMaxGeneration(s.jobs, s.jobs.Keys, b, MaxGeneration(s.jobs, s.jobs.Keys, b));
  }

  /** What is enough for it not to fall: nothing is lost without something as high. */
  ghost predicate GenerationsKept(s: Store, s': Store) {
    && (s.segment.Some? ==> s'.segment.Some? && s.segment.value.snap.generation <= s'.segment.value.snap.generation)
    && (s.target.Some? ==> AtLeast(s', s.target.value.snap.generation))
    && (forall i :: i in s.jobs ==> i in s'.jobs && (s.jobs[i].snap.generation <= s'.jobs[i].snap.generation
                                                     || AtLeast(s', s.jobs[i].snap.generation)))
  }

  ghost predicate AtLeast(s: Store, g: nat) {
    || (s.target.Some? && g <= s.target.value.snap.generation)
    || (s.segment.Some? && g <= s.segment.value.snap.generation)
    || exists i :: i in s.jobs && g <= s.jobs[i].snap.generation
  }

  lemma KeptDoesNotFall(s: Store, s': Store)
    requires GenerationsKept(s, s')
    ensures NextGeneration(s) <= NextGeneration(s')
  {
    hide NextGeneration;
    NextGenerationIsLeast(s', 1);
    NextGenerationIsLeast(s, NextGeneration(s'));
    assert AllBelow(s, NextGeneration(s'));
  }

  // ----- transactions -----

  lemma RetargetKeepsGenerations(s: Store, r: Request)
    requires Inv(s)
    ensures GenerationsKept(s, Retarget(s, r).0)
  {
    hide MaxGeneration, NextGeneration;
    NextGenerationIsLeast(s, 1);
    var s' := Retarget(s, r).0;
    if s' != s { assert s'.target.value.snap.generation == NextGeneration(s); }
  }

  /** The settled path falls back on the segment's generation, and the highest falls
      exactly if the row it rewrites carried it alone. */
  ghost predicate CarriesAlone(s: Store, id: nat) {
    && id in s.jobs
    && (s.segment.Some? ==> s.segment.value.snap.generation < s.jobs[id].snap.generation)
    && forall i :: i in s.jobs && i != id ==> s.jobs[i].snap.generation < s.jobs[id].snap.generation
  }

  /** The request settles on a row that carries the highest generation alone. */
  ghost predicate SettlesBack(s: Store, r: Request) {
    && !LowerVersion(s, r) && AlreadyCommitted(s, r)
    && JobAt(s.jobs, r.fingerprint.boundary).Some?
    && CarriesAlone(s, JobAt(s.jobs, r.fingerprint.boundary).value)
  }

  lemma SettleFallsIff(s: Store, r: Request)
    requires Inv(s) && AlreadyCommitted(s, r)
    ensures var at := JobAt(s.jobs, r.fingerprint.boundary);
      NextGeneration(Settle(s, r).0) < NextGeneration(s) <==> at.Some? && CarriesAlone(s, at.value)
  {
    hide NextGeneration;
    var s' := Settle(s, r).0;
    var at := JobAt(s.jobs, r.fingerprint.boundary);
    if at.None? {
      KeptDoesNotFall(s, s');
    } else {
      var g := s.jobs[at.value].snap.generation;
      assert !AnyRunning(s.jobs);
      SettledRows(s, r);
      NextGenerationIsLeast(s, 1);
      if CarriesAlone(s, at.value) {
        NextGenerationIsLeast(s', g);
      } else {
        SharedDoesNotFall(s, s', at.value);
      }
    }
  }

  lemma SettledRows(s: Store, r: Request)
    requires AlreadyCommitted(s, r) && JobAt(s.jobs, r.fingerprint.boundary).Some? && !AnyRunning(s.jobs)
    ensures var s', id := Settle(s, r).0, JobAt(s.jobs, r.fingerprint.boundary).value;
      && s'.segment == s.segment && s'.target == s.target == None && s'.jobs.Keys == s.jobs.Keys
      && s'.jobs[id].snap.generation == s.segment.value.snap.generation
      && forall i :: i in s.jobs && i != id ==> s'.jobs[i] == s.jobs[i]
  {
  }

  lemma SharedDoesNotFall(s: Store, s': Store, id: nat)
    requires id in s.jobs && s.segment.Some? && !CarriesAlone(s, id)
    requires s'.segment == s.segment && s'.target == s.target && s'.jobs.Keys == s.jobs.Keys
    requires forall i :: i in s.jobs && i != id ==> s'.jobs[i] == s.jobs[i]
    ensures NextGeneration(s) <= NextGeneration(s')
  {
    assert AtLeast(s', s.jobs[id].snap.generation);
    if s.target.Some? { assert AtLeast(s', s.target.value.snap.generation); }
    hide AtLeast, NextGeneration;
    SharedKept(s, s', id);
    KeptDoesNotFall(s, s');
  }

  lemma SharedKept(s: Store, s': Store, id: nat)
    requires s'.segment == s.segment && s'.target == s.target && s'.jobs.Keys == s.jobs.Keys
    requires forall i :: i in s.jobs && i != id ==> s'.jobs[i] == s.jobs[i]
    requires id in s.jobs && AtLeast(s', s.jobs[id].snap.generation)
    ensures GenerationsKept(s, s')
  {
  }

  lemma EnqueueFallsIff(s: Store, r: Request)
    requires Inv(s)
    ensures NextGeneration(Enqueue(s, r).0) < NextGeneration(s) <==> SettlesBack(s, r)
  {
    hide NextGeneration, CarriesAlone;
    if LowerVersion(s, r) {
      KeptDoesNotFall(s, Ignore(s, r).0);
    } else if TargetMatchesRequest(s.target, r) {
      KeptDoesNotFall(s, Refresh(s, r).0);
    } else if AlreadyCommitted(s, r) {
      SettleFallsIff(s, r);
    } else {
      RetargetKeepsGenerations(s, r);
      KeptDoesNotFall(s, Retarget(s, r).0);
    }
  }

  lemma RequeueKeepsGenerations(s: Store, c: Claim)
    requires Inv(s) && LeaseCurrent(s, c)
    ensures GenerationsKept(s, Requeue(s, c))
  {
  }

  lemma CommitKeepsGenerations(s: Store, c: Claim, e: Extraction, p: Prepared)
    requires Inv(s)
    ensures GenerationsKept(s, Commit(s, c, e, p).0)
  {
    if LeaseCurrent(s, c) { RequeueKeepsGenerations(s, c); }
  }

  lemma PublishKeepsGenerations(s: Store, c: Claim, e: Extraction)
    requires Inv(s)
    ensures GenerationsKept(s, Publish(s, c, e).0)
  {
    if LeaseCurrent(s, c) { RequeueKeepsGenerations(s, c); }
  }

  lemma FinishKeepsGenerations(s: Store, c: Claim, retry: bool)
    requires Inv(s)
    ensures GenerationsKept(s, FinishFailed(s, c, retry).0)
  {
    if LeaseCurrent(s, c) { RequeueKeepsGenerations(s, c); }
  }

  lemma RecoverKeepsGenerations(s: Store)
    requires Inv(s)
    ensures GenerationsKept(s, Recover(s))
  {
  }

  lemma OperatorsKeepGenerations(s: Store, id: nat, restart: bool)
    requires Inv(s)
    ensures GenerationsKept(s, RetryFailed(s, id, restart).0)
    ensures GenerationsKept(s, SupersedeFailed(s, id).0)
  {
    if Retryable(s, id) {
      assert id in SupersedeFailed(s, id).0.jobs && SupersedeFailed(s, id).0.jobs[id].snap == s.target.value.snap;
    }
  }

  lemma ClaimKeepsGenerations(s: Store, id: nat)
    ensures GenerationsKept(s, ClaimJob(s, id).0)
  {
  }

  /** In every reachable state: the generation that is handed out next falls on an
      event exactly if the event is a request that settles on a row which alone
      carries the highest generation, above the segment's. */
  lemma GenerationFallsIff(w: World, e: Event, budget: nat)
    requires RunOk(w, budget)
    ensures NextGeneration(Next(w, e, budget).store) < NextGeneration(w.store)
      <==> e.Submit? && SettlesBack(w.store, e.request)
  {
    hide NextGeneration, SettlesBack, GenerationsKept, ClaimsOk, AttemptsOk, Inv;
    var s, s' := w.store, Next(w, e, budget).store;
    if e.Submit? {
      EnqueueFallsIff(s, e.request);
    } else {
      NotSubmitted(w, e, budget);
      KeptDoesNotFall(s, s');
    }
  }

  lemma NotSubmitted(w: World, e: Event, budget: nat)
    requires Inv(w.store) && !e.Submit?
    ensures GenerationsKept(w.store, Next(w, e, budget).store)
  {
    hide Inv, Publish, Commit, FinishFailed, Recover, RetryFailed, SupersedeFailed, ClaimJob;
    var s := w.store;
    assert GenerationsKept(s, s);
    match e
    case ClaimNext(id) => ClaimKeepsGenerations(s, id);
    case PublishBy(c, summary, facts) => PublishKeepsGenerations(s, c, Extraction(c.snap.fingerprint, summary, facts));
    case CommitBy(c, x, p) => CommitKeepsGenerations(s, c, x, p);
    case FailBy(c, terminal) => FinishKeepsGenerations(s, c, !terminal && c.attempts < budget);
    case Restart => RecoverKeepsGenerations(s);
    case Retry(id, restart) => OperatorsKeepGenerations(s, id, restart);
    case Supersede(id) => OperatorsKeepGenerations(s, id, false);
    case Deploy(v) =>
  }
}
