/** Runs from an empty store in which requests fail, and one in which a generation
    is handed out twice. */
module QueueHistories {
  import opened Wrappers
  import opened QueueModel
  import opened QueueInvariant
  import opened QueueRuns
  import opened QueueGenerations

  lemma {:induction false} RunSnoc(w: World, es: seq<Event>, e: Event, budget: nat)
    ensures Run(w, es + [e], budget) == Next(Run(w, es, budget), e, budget)
    decreases |es|
  {
    hide Next;
    if es == [] {
      assert [] + [e] == [e] && [e][1..] == [];
      assert Run(w, [e], budget) == Run(Next(w, e, budget), [], budget);
    } else {
      assert (es + [e])[0] == es[0] && (es + [e])[1..] == es[1..] + [e];
      RunSnoc(Next(w, es[0], budget), es[1..], e, budget);
    }
  }

  // ----- one row -----

  /** The tables of a segment with one row. */
  function OneRow(j: Job, target: Option<Target>, segment: Option<Segment>, leases: nat, validator: nat): Store {
    Store(map[0 := j], target, segment, 1, leases, validator)
  }

  lemma Lookups(j: Job, b: Boundary)
    ensures JobAt(map[0 := j], b) == if j.snap.boundary == b then Some(0) else None
    ensures JobWithKey(map[0 := j], b.key) == if j.snap.boundary.key == b.key then Some(0) else None
  {
    assert 0 in map[0 := j];
  }

  lemma NextGenerationIs(s: Store, m: nat)
    requires m > 0 && AllBelow(s, m) && (m > 1 ==> !AllBelow(s, m - 1))
    ensures NextGeneration(s) == m
  {
    NextGenerationIsLeast(s, m);
    if m > 1 { NextGenerationIsLeast(s, m - 1); }
    hide NextGeneration;
  }

  function TargetOf(r: Request, generation: nat): Target {
    Target(0, SnapshotOf(r, generation), r, r.priority, None)
  }

  function RowOf(r: Request, generation: nat): Job {
    Job(Pending, None, 0, 0, SnapshotOf(r, generation), Some(r), r.priority)
  }

  /** After the first request. */
  function Submitted(r: Request, validator: nat): Store {
    OneRow(RowOf(r, 1), Some(TargetOf(r, 1)), None, 0, validator)
  }

  lemma FirstRequest(r: Request, validator: nat)
    ensures Enqueue(Empty(validator), r) == (Submitted(r, validator), Targeted(0))
  {
    var s := Empty(validator);
    assert JobAt(s.jobs, r.fingerprint.boundary).None?;
    assert JobWithKey(s.jobs, r.fingerprint.boundary.key).None?;
    NextGenerationIs(s, 1);
    hide NextGeneration;
    assert SupersedeOthers(map[0 := RowOf(r, 1)], 0) == map[0 := RowOf(r, 1)];
    assert Enqueue(s, r) == Retarget(s, r);
  }

  function FirstClaim(r: Request): Claim {
    Claim(0, 0, 1, SnapshotOf(r, 1), None)
  }

  function Started(j: Job, lease: nat): Job {
    j.(status := Running, attempts := j.attempts + 1, lease := Some(lease))
  }

  /** A waiting row is claimed. */
  lemma RowIsClaimed(r: Request, generation: nat, segment: Option<Segment>, leases: nat, validator: nat)
    ensures ClaimJob(OneRow(RowOf(r, generation), Some(TargetOf(r, generation)), segment, leases, validator), 0)
         == (OneRow(Started(RowOf(r, generation), leases), Some(TargetOf(r, generation)), segment, leases + 1, validator),
             Some(Claim(0, leases, 1, SnapshotOf(r, generation), None)))
  {
    var s := OneRow(RowOf(r, generation), Some(TargetOf(r, generation)), segment, leases, validator);
    assert Claimable(s, 0);
    assert PayloadMatchesRow(s.jobs[0]);
    Overwritten(s.jobs[0], Started(s.jobs[0], leases));
  }

  lemma Overwritten(j: Job, k: Job)
    ensures map[0 := j][0 := k] == map[0 := k]
  {
  }

  // ----- requests that fail -----

  /** A row that runs keeps its key from another user boundary. */
  lemma LostBoundaryJobOccurs(r: Request, other: Request, validator: nat, budget: nat)
    requires other.fingerprint.boundary.key == r.fingerprint.boundary.key
    requires other.fingerprint.boundary.user != r.fingerprint.boundary.user && other.version >= r.version
    ensures var s := Run(Start(validator), [Submit(r), ClaimNext(0)], budget).store;
      Enqueue(s, other) == (s, LostBoundaryJob)
  {
    FirstRequest(r, validator);
    RowIsClaimed(r, 1, None, 0, validator);
    var w := Start(validator);
    var w1 := Next(w, Submit(r), budget);
    var w2 := Next(w1, ClaimNext(0), budget);
    assert [Submit(r), ClaimNext(0)][1..] == [ClaimNext(0)] && [ClaimNext(0)][1..] == [];
    assert Run(w, [Submit(r), ClaimNext(0)], budget) == Run(w1, [ClaimNext(0)], budget) == Run(w2, [], budget);
    Lookups(Started(RowOf(r, 1), 0), other.fingerprint.boundary);
    var s := w2.store;
    assert s == OneRow(Started(RowOf(r, 1), 0), Some(TargetOf(r, 1)), None, 1, validator);
    hide NextGeneration, ClaimJob, Run;
    assert Enqueue(s, other) == Retarget(s, other);
  }

  /** A request of a lower version is refused while its key belongs to another user boundary. */
  lemma UniqueViolationOccurs(r: Request, other: Request, validator: nat, budget: nat)
    requires other.fingerprint.boundary.key == r.fingerprint.boundary.key
    requires other.fingerprint.boundary.user != r.fingerprint.boundary.user && other.version < r.version
    ensures var s := Run(Start(validator), [Submit(r)], budget).store;
      Enqueue(s, other) == (s, UniqueViolation)
  {
    FirstRequest(r, validator);
    var w := Start(validator);
    var w1 := Next(w, Submit(r), budget);
    assert [Submit(r)][1..] == [];
    assert Run(w, [Submit(r)], budget) == Run(w1, [], budget);
    Lookups(RowOf(r, 1), other.fingerprint.boundary);
  }

  // ----- a generation that is handed out twice -----

  /** Three contents of one range. */
  datatype Contents = Contents(boundary: Boundary, first: seq<string>, second: seq<string>, third: seq<string>)

  function RequestOf(b: Boundary, messages: seq<string>): Request {
    Request(Fingerprint(b, messages), PROJECTION_SAFE_VERSION, 0)
  }

  const SUMMARY := "summary"

  /** The first content is committed; the second fails and is dismissed; the first
      comes back; the third is submitted. */
  function ReuseRun(c: Contents): seq<Event> {
    var a, b, d := RequestOf(c.boundary, c.first), RequestOf(c.boundary, c.second), RequestOf(c.boundary, c.third);
    [Submit(a), ClaimNext(0), PublishBy(FirstClaim(a), SUMMARY, []),
     CommitBy(FirstClaim(a), Answer(a), Prepared(c.boundary, a.version, SUMMARY, [])),
     Submit(b), ClaimNext(0), FailBy(SecondClaim(b), true), Supersede(0), Submit(a), Submit(d)]
  }

  function Answer(r: Request): Extraction {
    Extraction(r.fingerprint, SUMMARY, [])
  }

  function SecondClaim(r: Request): Claim {
    Claim(0, 1, 1, SnapshotOf(r, 2), None)
  }

  function CommittedAt1(r: Request): Segment {
    Segment(SnapshotOf(r, 1), Answer(r), [], ProjectionOf(SnapshotOf(r, 1), SUMMARY))
  }

  lemma SummaryIsNotBlank()
    ensures !Blank(SUMMARY)
  {
    assert !Space(SUMMARY[0]);
  }

  /** The segment is at generation 1 and its row is done. */
  function Done(r: Request, generation: nat, status: Status, leases: nat, validator: nat, a: Request): Store {
    OneRow(RowOf(r, generation).(status := status, attempts := if leases == 0 then 0 else 1, payload := None),
           None, Some(CommittedAt1(a)), leases, validator)
  }

  lemma FirstIsCommitted(a: Request, validator: nat)
    ensures var running := OneRow(Started(RowOf(a, 1), 0), Some(TargetOf(a, 1)), None, 1, validator);
      var published := Publish(running, FirstClaim(a), Answer(a)).0;
      Commit(published, FirstClaim(a), Answer(a), Prepared(a.fingerprint.boundary, a.version, SUMMARY, []))
      == (Done(a, 1, Succeeded, 1, validator, a), Committed)
  {
    SummaryIsNotBlank();
    hide Blank;
    var running := OneRow(Started(RowOf(a, 1), 0), Some(TargetOf(a, 1)), None, 1, validator);
    var published := Publish(running, FirstClaim(a), Answer(a)).0;
    assert published == running.(target := Some(TargetOf(a, 1).(staged := Some(StagedBy(running, FirstClaim(a), Answer(a))))));
    Overwritten(Started(RowOf(a, 1), 0), Done(a, 1, Succeeded, 1, validator, a).jobs[0]);
  }

  /** Other content of the committed range becomes the target of generation m. */
  lemma OtherContent(a: Request, b: Request, j: Job, leases: nat, validator: nat, m: nat)
    requires a.fingerprint.boundary == b.fingerprint.boundary && a.fingerprint != b.fingerprint && a.version == b.version
    requires j.status != Running && j.snap.boundary == a.fingerprint.boundary && j.snap.version == a.version
    requires 1 <= j.snap.generation == m - 1
    ensures Enqueue(OneRow(j, None, Some(CommittedAt1(a)), leases, validator), b)
         == (OneRow(RowOf(b, m), Some(TargetOf(b, m)), Some(CommittedAt1(a)), leases, validator), Targeted(0))
  {
    var s := OneRow(j, None, Some(CommittedAt1(a)), leases, validator);
    Lookups(j, b.fingerprint.boundary);
    NextGenerationIs(s, m);
    hide NextGeneration;
    assert SupersedeOthers(map[0 := RowOf(b, m)], 0) == map[0 := RowOf(b, m)];
    assert map[0 := j][0 := RowOf(b, m)] == map[0 := RowOf(b, m)];
    assert Enqueue(s, b) == Retarget(s, b);
  }

  lemma SecondIsDismissed(a: Request, b: Request, validator: nat)
    ensures var running := OneRow(Started(RowOf(b, 2), 1), Some(TargetOf(b, 2)), Some(CommittedAt1(a)), 2, validator);
      var failed := FinishFailed(running, SecondClaim(b), false).0;
      SupersedeFailed(failed, 0) == (Done(b, 2, Superseded, 2, validator, a), true)
  {
    var running := OneRow(Started(RowOf(b, 2), 1), Some(TargetOf(b, 2)), Some(CommittedAt1(a)), 2, validator);
    var failed := FinishFailed(running, SecondClaim(b), false).0;
    var row := Started(RowOf(b, 2), 1).(status := Failed, lease := None);
    Overwritten(Started(RowOf(b, 2), 1), row);
    assert failed == running.(jobs := map[0 := row]);
    Overwritten(row, Done(b, 2, Superseded, 2, validator, a).jobs[0]);
  }

  lemma FirstComesBack(a: Request, b: Request, validator: nat)
    requires a.fingerprint.boundary == b.fingerprint.boundary && a.version == b.version && a.priority == b.priority
    ensures Enqueue(Done(b, 2, Superseded, 2, validator, a), a) == (Done(a, 1, Succeeded, 2, validator, a), Settled(0))
  {
    SummaryIsNotBlank();
    hide Blank;
    var s := Done(b, 2, Superseded, 2, validator, a);
    Lookups(s.jobs[0], a.fingerprint.boundary);
    assert AlreadyCommitted(s, a);
    Overwritten(s.jobs[0], Done(a, 1, Succeeded, 2, validator, a).jobs[0]);
    assert Enqueue(s, a) == Settle(s, a);
  }

  /** Two different contents are the target under the same generation: after five
      events the second, and at the end the third. */
  lemma GenerationIsHandedOutTwice(c: Contents, validator: nat, budget: nat)
    requires c.first != c.second && c.first != c.third
    ensures var b, d := RequestOf(c.boundary, c.second), RequestOf(c.boundary, c.third);
      && Run(Start(validator), ReuseRun(c)[..5], budget).store.target == Some(TargetOf(b, 2))
      && Run(Start(validator), ReuseRun(c), budget).store.target == Some(TargetOf(d, 2))
  {
    var a, b, d := RequestOf(c.boundary, c.first), RequestOf(c.boundary, c.second), RequestOf(c.boundary, c.third);
    var es := ReuseRun(c);
    hide Run, Next;
    var w5 := UpToSecond(c, validator, budget);
    var w8 := UpToDismissal(c, w5, validator, budget);
    var w9 := Then(Start(validator), es, 8, w8, budget);
    var w10 := Then(Start(validator), es, 9, w9, budget);
    assert es[..10] == es;
    FirstComesBack(a, b, validator);
    OtherContent(a, d, Done(a, 1, Succeeded, 2, validator, a).jobs[0], 2, validator, 2);
    assert w9.store == Enqueue(w8.store, a).0 by { SubmitStep(w8, a, budget); }
    assert w10.store == Enqueue(w9.store, d).0 by { SubmitStep(w9, d, budget); }
  }

  lemma SubmitStep(w: World, r: Request, budget: nat)
    ensures Next(w, Submit(r), budget).store == Enqueue(w.store, r).0
  {
  }

  lemma Then(w: World, es: seq<Event>, n: nat, before: World, budget: nat) returns (after: World)
    requires n < |es| && Run(w, es[..n], budget) == before
    ensures Run(w, es[..n + 1], budget) == after == Next(before, es[n], budget)
  {
    hide Next;
    assert es[..n + 1] == es[..n] + [es[n]];
    RunSnoc(w, es[..n], es[n], budget);
    after := Next(before, es[n], budget);
  }

  lemma UpToCommit(c: Contents, validator: nat, budget: nat) returns (w: World)
    ensures w == Run(Start(validator), ReuseRun(c)[..4], budget)
    ensures w.store == Done(RequestOf(c.boundary, c.first), 1, Succeeded, 1, validator, RequestOf(c.boundary, c.first))
  {
    var a := RequestOf(c.boundary, c.first);
    var es := ReuseRun(c);
    var w0 := Start(validator);
    assert Run(w0, es[..0], budget) == w0;
    hide Run;
    var w1 := Then(w0, es, 0, w0, budget);
    var w2 := Then(w0, es, 1, w1, budget);
    var w3 := Then(w0, es, 2, w2, budget);
    w := Then(w0, es, 3, w3, budget);
    FirstRequest(a, validator);
    RowIsClaimed(a, 1, None, 0, validator);
    FirstIsCommitted(a, validator);
    hide Enqueue, ClaimJob, Publish, Commit;
    assert w2.issued == {FirstClaim(a)};
  }

  lemma UpToSecond(c: Contents, validator: nat, budget: nat) returns (w: World)
    requires c.first != c.second
    ensures w == Run(Start(validator), ReuseRun(c)[..5], budget)
    ensures var a, b := RequestOf(c.boundary, c.first), RequestOf(c.boundary, c.second);
      w.store == OneRow(RowOf(b, 2), Some(TargetOf(b, 2)), Some(CommittedAt1(a)), 1, validator)
  {
    var a, b := RequestOf(c.boundary, c.first), RequestOf(c.boundary, c.second);
    hide Run;
    var w4 := UpToCommit(c, validator, budget);
    w := Then(Start(validator), ReuseRun(c), 4, w4, budget);
    OtherContent(a, b, Done(a, 1, Succeeded, 1, validator, a).jobs[0], 1, validator, 2);
    hide Enqueue;
  }

  lemma UpToDismissal(c: Contents, w5: World, validator: nat, budget: nat) returns (w: World)
    requires w5 == Run(Start(validator), ReuseRun(c)[..5], budget)
    requires var a, b := RequestOf(c.boundary, c.first), RequestOf(c.boundary, c.second);
      w5.store == OneRow(RowOf(b, 2), Some(TargetOf(b, 2)), Some(CommittedAt1(a)), 1, validator)
    ensures w == Run(Start(validator), ReuseRun(c)[..8], budget)
    ensures w.store == Done(RequestOf(c.boundary, c.second), 2, Superseded, 2, validator, RequestOf(c.boundary, c.first))
  {
    var a, b := RequestOf(c.boundary, c.first), RequestOf(c.boundary, c.second);
    var es := ReuseRun(c);
    hide Run;
    var w6 := Then(Start(validator), es, 5, w5, budget);
    var w7 := Then(Start(validator), es, 6, w6, budget);
    w := Then(Start(validator), es, 7, w7, budget);
    RowIsClaimed(b, 2, Some(CommittedAt1(a)), 1, validator);
    SecondIsDismissed(a, b, validator);
    hide ClaimJob, FinishFailed, SupersedeFailed;
    assert SecondClaim(b) in w6.issued;
  }
}
