/** A session that plans only its fresh records: what it has submitted is always the
    beginning of the plan of the whole transcript. */
module SegmentSession {
  import opened Wrappers
  import opened SegmentPlan
  import opened SegmentTheorems

  /** What was submitted, and the last message of it. */
  datatype Submission = Submission(segments: seq<Planned>, through: Option<string>)

  /** The records behind the last submitted message. */
  function Fresh(rs: seq<Record>, through: Option<string>): seq<Record> {
    if through.Some? && through.value in Positions(rs) then rs[Positions(rs)[through.value] + 1..] else rs
  }

  function ClosedOf(ps: seq<Planned>): seq<Planned> {
    if ps == [] then []
    else ClosedOf(ps[..|ps| - 1]) + if ps[|ps| - 1].closed then [ps[|ps| - 1]] else []
  }

  /** One turn: plan the fresh records and submit the closed segments one by one;
      the submission after `accepted` of them may fail and ends the turn. */
  function Turn(s: Submission, rs: seq<Record>, accepted: nat, soft: nat): Submission {
    var plan := Plan(Fresh(rs, s.through), [], soft, false);
    if plan.Err? then s
    else
      var closed := ClosedOf(plan.value);
      var m := if accepted < |closed| then accepted else |closed|;
      if m == 0 then s else Submission(s.segments + closed[..m], Some(closed[m - 1].request.end))
  }

  /** The transcript a turn sees, and how many submissions go through. */
  datatype Step = Step(records: seq<Record>, accepted: nat)

  function Session(steps: seq<Step>, soft: nat): Submission {
    if steps == [] then Submission([], None)
    else
      var last := steps[|steps| - 1];
      Turn(Session(steps[..|steps| - 1], soft), last.records, last.accepted, soft)
  }

  predicate UniqueIds(rs: seq<Record>) {
    forall i, k :: 0 <= i < k < |rs| ==> rs[i].source.id != rs[k].source.id
  }

  /** Complete records are final; an incomplete one may still change. */
  predicate Grows(steps: seq<Step>) {
    && (forall i :: 0 <= i < |steps| ==> UniqueIds(steps[i].records))
    && (forall i :: 0 <= i < |steps| - 1 ==> CompletePrefix(steps[i].records) <= steps[i + 1].records)
  }

  // ----- the plan of a whole transcript -----

  function Chunks(rs: seq<Record>, soft: nat): seq<seq<Record>> {
    Pack(CompletePrefix(rs), soft).closed
  }

  predicate NoneEmpty(chunks: seq<seq<Record>>) {
    forall i :: 0 <= i < |chunks| ==> chunks[i] != []
  }

  function Segments(chunks: seq<seq<Record>>): (r: seq<Planned>)
    requires NoneEmpty(chunks)
    ensures |r| == |chunks|
  {
    seq(|chunks|, i requires 0 <= i < |chunks| => PlannedFor(chunks[i], true))
  }

  lemma ChunksAreNotEmpty(rs: seq<Record>, soft: nat)
    requires soft > 0
    ensures NoneEmpty(Chunks(rs, soft))
  {
    PackPartitions([], CompletePrefix(rs), soft);
    assert forall i :: 0 <= i < |Chunks(rs, soft)| ==> PackedChunk(Chunks(rs, soft)[i], soft);
  }

  lemma {:induction false} AllClosed(ps: seq<Planned>)
    requires forall i :: 0 <= i < |ps| ==> ps[i].closed
    ensures ClosedOf(ps) == ps
  {
    if ps != [] {
      AllClosed(ps[..|ps| - 1]);
      assert ps == ps[..|ps| - 1] + [ps[|ps| - 1]];
    }
  }

  /** Without open snapshots a plan is its closed chunks. */
  lemma PlanIsChunks(rs: seq<Record>, soft: nat)
    requires soft > 0 && Plan(rs, [], soft, false).Ok?
    ensures NoneEmpty(Chunks(rs, soft))
    ensures Plan(rs, [], soft, false) == Ok(Segments(Chunks(rs, soft)))
    ensures ClosedOf(Segments(Chunks(rs, soft))) == Segments(Chunks(rs, soft))
  {
    ChunksAreNotEmpty(rs, soft);
    PlanWithoutManifest(rs, soft, false);
    hide PackFrom, CompletePrefix;
    var slices := TailSlices(CompletePrefix(rs), soft, false);
    assert slices == ClosedSlices(Chunks(rs, soft));
    assert Plan(rs, [], soft, false) == Ok(PlannedAll(slices));
    assert PlannedAll(slices) == Segments(Chunks(rs, soft));
    AllClosed(Segments(Chunks(rs, soft)));
  }

  /** Growth keeps the closed chunks. */
  lemma ChunksStay(rs: seq<Record>, more: seq<Record>, soft: nat)
    requires CompletePrefix(rs) <= more
    ensures Chunks(rs, soft) <= Chunks(more, soft)
  {
    var prefix := CompletePrefix(rs);
    PrefixOfPrefix(rs);
    hide CompletePrefix, PackFrom;
    assert more == prefix + more[|prefix|..];
    CompletePrefixExtends(prefix, more[|prefix|..]);
    var rest := CompletePrefix(more)[|prefix|..];
    assert CompletePrefix(more) == prefix + rest;
    PackExtends([], prefix, rest, soft);
  }

  lemma {:induction false} PrefixOfPrefix(rs: seq<Record>)
    ensures CompletePrefix(CompletePrefix(rs)) == CompletePrefix(rs)
  {
    if rs != [] && rs[0].complete {
      PrefixOfPrefix(rs[1..]);
      assert CompletePrefix(rs)[1..] == CompletePrefix(rs[1..]);
    }
  }

  // ----- where the fresh records start -----

  /** The submitted segments are the first of the whole plan, and end at `through`. */
  ghost predicate InStep(s: Submission, rs: seq<Record>, soft: nat) {
    var chunks, m := Chunks(rs, soft), |s.segments|;
    && m <= |chunks| && NoneEmpty(chunks)
    && s.segments == Segments(chunks)[..m]
    && s.through == if m == 0 then None else Some(LastId(chunks[m - 1]))
  }

  function LastId(chunk: seq<Record>): string
    requires chunk != []
  {
    chunk[|chunk| - 1].source.id
  }

  lemma FreshStartsBehind(s: Submission, rs: seq<Record>, soft: nat) returns (k: nat)
    requires soft > 0 && UniqueIds(rs) && InStep(s, rs, soft)
    ensures k <= |CompletePrefix(rs)| && Fresh(rs, s.through) == rs[k..]
    ensures Chunks(rs[k..], soft) == Chunks(rs, soft)[|s.segments|..]
  {
    var m := |s.segments|;
    k := FreshChunks(rs, m, soft);
    hide CompletePrefix, PackFrom, Positions;
    FreshPosition(rs, k, Chunks(rs, soft), m, s.through);
  }

  lemma FreshChunks(rs: seq<Record>, m: nat, soft: nat) returns (k: nat)
    requires m <= |Chunks(rs, soft)|
    ensures k <= |CompletePrefix(rs)| && CompletePrefix(rs)[..k] == Flat(Chunks(rs, soft)[..m])
    ensures Chunks(rs[k..], soft) == Chunks(rs, soft)[m..]
  {
    hide CompletePrefix, PackFrom, Flat;
    var later := PackResumes(CompletePrefix(rs), m, soft);
    k := |CompletePrefix(rs)| - |later|;
    CompletePrefixDrops(rs, k);
  }

  lemma FreshPosition(rs: seq<Record>, k: nat, chunks: seq<seq<Record>>, m: nat, through: Option<string>)
    requires UniqueIds(rs) && k <= |rs| && m <= |chunks| && NoneEmpty(chunks) && rs[..k] == Flat(chunks[..m])
    requires through == if m == 0 then None else Some(LastId(chunks[m - 1]))
    ensures Fresh(rs, through) == rs[k..]
  {
    if m == 0 {
      assert rs[0..] == rs;
    } else {
      hide Flat, Positions, LastId, UniqueIds, NoneEmpty;
      LastOfFirst(chunks, m);
      assert rs[..k][k - 1] == rs[k - 1];
      UniquePosition(rs, k - 1);
    }
  }

  lemma LastOfFirst(chunks: seq<seq<Record>>, m: nat)
    requires 0 < m <= |chunks| && NoneEmpty(chunks)
    ensures chunks[m - 1] != []
    ensures var flat := Flat(chunks[..m]); flat != [] && flat[|flat| - 1].source.id == LastId(chunks[m - 1])
  {
    LastOfFlat(chunks[..m]);
  }

  lemma {:induction false} LastOfFlat(chunks: seq<seq<Record>>)
    requires chunks != [] && NoneEmpty(chunks)
    ensures Flat(chunks) != [] && Flat(chunks)[|Flat(chunks)| - 1].source.id == LastId(chunks[|chunks| - 1])
  {
    if |chunks| > 1 { LastOfFlat(chunks[1..]); }
  }

  lemma UniquePosition(rs: seq<Record>, i: nat)
    requires UniqueIds(rs) && i < |rs|
    ensures rs[i].source.id in Positions(rs) && Positions(rs)[rs[i].source.id] == i
  {
  }

  // ----- turns -----

  lemma InStepStays(s: Submission, rs: seq<Record>, more: seq<Record>, soft: nat)
    requires soft > 0 && InStep(s, rs, soft) && CompletePrefix(rs) <= more
    ensures InStep(s, more, soft)
  {
    ChunksStay(rs, more, soft);
    ChunksAreNotEmpty(more, soft);
    hide Chunks, CompletePrefix;
    var a, b := Chunks(rs, soft), Chunks(more, soft);
    assert forall i :: 0 <= i < |a| ==> a[i] == b[i];
    assert Segments(a)[..|s.segments|] == Segments(b)[..|s.segments|];
  }

  /** m segments more. */
  lemma MoreSegments(chunks: seq<seq<Record>>, n: nat, m: nat)
    requires NoneEmpty(chunks) && n + m <= |chunks|
    ensures NoneEmpty(chunks[n..]) && Segments(chunks)[..n] + Segments(chunks[n..])[..m] == Segments(chunks)[..n + m]
    ensures m > 0 ==> Segments(chunks[n..])[m - 1].request.end == LastId(chunks[n + m - 1])
  {
    var all, more := Segments(chunks), Segments(chunks[n..]);
    assert forall i :: 0 <= i < m ==> more[i] == all[n + i];
    if m > 0 { assert more[m - 1] == PlannedFor(chunks[n + m - 1], true); }
    hide Segments, PlannedFor;
    assert all[..n] + more[..m] == all[..n + m];
  }

  /** What a turn submits whose plan succeeds. */
  lemma TurnSubmits(s: Submission, rs: seq<Record>, accepted: nat, soft: nat)
    requires soft > 0 && UniqueIds(rs) && InStep(s, rs, soft) && Plan(Fresh(rs, s.through), [], soft, false).Ok?
    ensures var chunks, n := Chunks(rs, soft), |s.segments|;
      var m := if accepted < |chunks| - n then accepted else |chunks| - n;
      && NoneEmpty(chunks[n..])
      && Turn(s, rs, accepted, soft)
         == if m == 0 then s
            else Submission(s.segments + Segments(chunks[n..])[..m], Some(Segments(chunks[n..])[m - 1].request.end))
  {
    hide *;
    StepBounds(s, rs, soft);
    var k := FreshStartsBehind(s, rs, soft);
    PlanIsChunks(rs[k..], soft);
    TurnByPlan(s, rs, accepted, soft, Segments(Chunks(rs[k..], soft)));
  }

  /** A turn whose plan has only closed segments. */
  lemma TurnByPlan(s: Submission, rs: seq<Record>, accepted: nat, soft: nat, ps: seq<Planned>)
    requires Plan(Fresh(rs, s.through), [], soft, false) == Ok(ps) && ClosedOf(ps) == ps
    ensures var m := if accepted < |ps| then accepted else |ps|;
      Turn(s, rs, accepted, soft) == if m == 0 then s else Submission(s.segments + ps[..m], Some(ps[m - 1].request.end))
  {
    hide Plan, Fresh, ClosedOf;
  }

  lemma StepBounds(s: Submission, rs: seq<Record>, soft: nat)
    requires InStep(s, rs, soft)
    ensures |s.segments| <= |Chunks(rs, soft)| && NoneEmpty(Chunks(rs, soft))
  {
    hide Chunks;
  }

  lemma TurnKeepsStep(s: Submission, rs: seq<Record>, accepted: nat, soft: nat)
    requires soft > 0 && UniqueIds(rs) && InStep(s, rs, soft)
    ensures InStep(Turn(s, rs, accepted, soft), rs, soft)
    ensures Plan(Fresh(rs, s.through), [], soft, false).Ok? && accepted >= |Chunks(rs, soft)| ==>
              |Turn(s, rs, accepted, soft).segments| == |Chunks(rs, soft)|
  {
    hide *;
    if Plan(Fresh(rs, s.through), [], soft, false).Ok? {
      TurnSubmits(s, rs, accepted, soft);
      StepBounds(s, rs, soft);
      var chunks, n := Chunks(rs, soft), |s.segments|;
      var m := if accepted < |chunks| - n then accepted else |chunks| - n;
      MoreSegments(chunks, n, m);
      if m > 0 {
        InStepMore(s, rs, soft, m, s.segments + Segments(chunks[n..])[..m], Segments(chunks[n..])[m - 1].request.end);
      }
    } else {
      TurnFails(s, rs, accepted, soft);
    }
  }

  lemma TurnFails(s: Submission, rs: seq<Record>, accepted: nat, soft: nat)
    requires Plan(Fresh(rs, s.through), [], soft, false).Err?
    ensures Turn(s, rs, accepted, soft) == s
  {
    hide Plan, Fresh;
  }

  lemma InStepMore(s: Submission, rs: seq<Record>, soft: nat, m: nat, segments: seq<Planned>, end: string)
    requires InStep(s, rs, soft) && 0 < m && |s.segments| + m <= |Chunks(rs, soft)| && NoneEmpty(Chunks(rs, soft))
    requires s.segments == Segments(Chunks(rs, soft))[..|s.segments|] ==>
               segments == Segments(Chunks(rs, soft))[..|s.segments| + m]
    requires end == LastId(Chunks(rs, soft)[|s.segments| + m - 1])
    ensures InStep(Submission(segments, Some(end)), rs, soft)
    ensures |segments| == |s.segments| + m
  {
    hide Chunks, LastId, NoneEmpty;
  }

  lemma GrowsBefore(steps: seq<Step>)
    requires Grows(steps) && steps != []
    ensures Grows(steps[..|steps| - 1])
  {
    var before := steps[..|steps| - 1];
    forall i | 0 <= i < |before| - 1 ensures CompletePrefix(before[i].records) <= before[i + 1].records {
      assert before[i] == steps[i] && before[i + 1] == steps[i + 1];
    }
  }

  lemma NothingSubmitted(rs: seq<Record>, soft: nat)
    requires soft > 0
    ensures InStep(Submission([], None), rs, soft)
  {
    ChunksAreNotEmpty(rs, soft);
  }

  /** The turns before the last one leave the session in step with its transcript. */
  lemma InStepBefore(steps: seq<Step>, soft: nat)
    requires soft > 0 && steps != [] && Grows(steps)
    ensures InStep(Session(steps[..|steps| - 1], soft), steps[|steps| - 1].records, soft)
    decreases |steps|, 0
  {
    var n := |steps| - 1;
    if n == 0 {
      NothingSubmitted(steps[0].records, soft);
    } else {
      GrowsBefore(steps);
      SessionKeepsStep(steps[..n], soft);
      InStepStays(Session(steps[..n], soft), steps[n - 1].records, steps[n].records, soft);
    }
  }

  /** After every turn the submitted segments are the first of the plan of the
      transcript that the turn has seen. */
  lemma {:induction false} SessionKeepsStep(steps: seq<Step>, soft: nat)
    requires soft > 0 && steps != [] && Grows(steps)
    ensures InStep(Session(steps, soft), steps[|steps| - 1].records, soft)
    decreases |steps|, 1
  {
    var last := steps[|steps| - 1];
    InStepBefore(steps, soft);
    TurnKeepsStep(Session(steps[..|steps| - 1], soft), last.records, last.accepted, soft);
  }

  /** A part of a plan that fits is a plan that fits. */
  lemma FreshPlanIsOk(s: Submission, rs: seq<Record>, soft: nat)
    requires soft > 0 && UniqueIds(rs) && InStep(s, rs, soft) && Plan(rs, [], soft, false).Ok?
    ensures Plan(Fresh(rs, s.through), [], soft, false).Ok?
  {
    hide *;
    var k := FreshStartsBehind(s, rs, soft);
    StepBounds(s, rs, soft);
    PlanOkIff(rs, soft);
    PlanOkIff(rs[k..], soft);
    SuffixIsValid(rs, k);
    var chunks, n := Chunks(rs, soft), |s.segments|;
    forall i | 0 <= i < |chunks[n..]| ensures Fits(chunks[n..][i]) { assert chunks[n..][i] == chunks[n + i]; }
  }

  lemma SuffixIsValid(rs: seq<Record>, k: nat)
    requires ValidRecords(rs) && k <= |rs|
    ensures ValidRecords(rs[k..])
  {
  }

  lemma PlanOkIff(rs: seq<Record>, soft: nat)
    requires soft > 0
    ensures Plan(rs, [], soft, false).Ok?
      <==> ValidRecords(rs) && forall i :: 0 <= i < |Chunks(rs, soft)| ==> Fits(Chunks(rs, soft)[i])
  {
    if ValidRecords(rs) {
      PlanWithoutManifest(rs, soft, false);
      hide Plan, Fits, ValidRecords, PackFrom, CompletePrefix;
      var slices := TailSlices(CompletePrefix(rs), soft, false);
      assert slices == ClosedSlices(Chunks(rs, soft));
    }
  }

  /** Over a session of growing transcripts, whatever submissions fail: what was
      submitted is the beginning of the plan of the last transcript, and all of it
      once a last turn goes through. */
  lemma SessionSubmitsThePlan(steps: seq<Step>, soft: nat)
    requires soft > 0 && steps != [] && Grows(steps)
    requires Plan(steps[|steps| - 1].records, [], soft, false).Ok?
    ensures var last := steps[|steps| - 1];
      var ps := Plan(last.records, [], soft, false).value;
      && Session(steps, soft).segments <= ps
      && (last.accepted >= |ps| ==> Session(steps, soft).segments == ps)
  {
    var n := |steps| - 1;
    var last, s := steps[n], Session(steps[..n], soft);
    assert UniqueIds(last.records) && Session(steps, soft) == Turn(s, last.records, last.accepted, soft);
    hide Session, Turn, Plan, Chunks, Fresh, UniqueIds, CompletePrefix;
    PlanIsChunks(last.records, soft);
    InStepBefore(steps, soft);
    FreshPlanIsOk(s, last.records, soft);
    TurnKeepsStep(s, last.records, last.accepted, soft);
  }
}
