/** Packing is greedy, and hydration gives back exactly what the transcript holds. */
module SegmentGreedy {
  import opened Wrappers
  import opened SegmentPlan
  import opened SegmentTheorems
  import opened SegmentReplan

  // ----- greedy packing -----

  /** What follows chunk i. */
  function Following(p: Packed, i: nat): Option<Record>
    requires i < |p.closed|
  {
    if i + 1 < |p.closed| then (if p.closed[i + 1] == [] then None else Some(p.closed[i + 1][0]))
    else if p.open == [] then None
    else Some(p.open[0])
  }

  /** A chunk is closed at the limit, or because the next record would pass it. */
  predicate ClosedWithReason(c: seq<Record>, next: Option<Record>, soft: nat) {
    Weight(c) >= soft || (next.Some? && Weight(c) + next.value.weight > soft)
  }

  /** No chunk was at the limit before its last record. */
  predicate NotEarlier(c: seq<Record>, soft: nat) {
    |c| > 1 ==> Weight(c[..|c| - 1]) < soft
  }

  predicate Greedy(p: Packed, soft: nat) {
    && (forall i :: 0 <= i < |p.closed| ==> ClosedWithReason(p.closed[i], Following(p, i), soft) && NotEarlier(p.closed[i], soft))
    && OpenChunk(p.open, soft)
  }

  /** The first record of what packing makes of chunk and rest. */
  function FirstOf(p: Packed): Option<Record> {
    if p.closed != [] then (if p.closed[0] == [] then None else Some(p.closed[0][0]))
    else if p.open == [] then None
    else Some(p.open[0])
  }

  lemma {:induction false} FirstStays(chunk: seq<Record>, rest: seq<Record>, soft: nat)
    requires chunk != []
    ensures FirstOf(PackFrom(chunk, rest, soft)) == Some(chunk[0])
    decreases |rest|
  {
    if rest != [] {
      var one := PackOne(chunk, rest[0], soft);
      if one.closed == [] { FirstStays(one.open, rest[1..], soft); }
      hide Weight;
    }
  }

  lemma {:induction false} PackIsGreedyFrom(chunk: seq<Record>, rest: seq<Record>, soft: nat)
    requires OpenChunk(chunk, soft) && soft > 0
    ensures Greedy(PackFrom(chunk, rest, soft), soft)
    decreases |rest|
  {
    if rest != [] {
      var one := PackOne(chunk, rest[0], soft);
      OneIsGreedy(chunk, rest[0], soft);
      PackOnePartitions(chunk, rest[0], soft);
      PackIsGreedyFrom(one.open, rest[1..], soft);
      if one.open != [] { FirstStays(one.open, rest[1..], soft); }
      PackUnfold(chunk, rest, soft);
      hide PackFrom, PackOne, Flat;
      GreedyJoins(one, PackFrom(one.open, rest[1..], soft), soft);
    }
  }

  /** The chunks that one record closes, up to what follows the last of them. */
  predicate OneGreedy(one: Packed, soft: nat) {
    && |one.closed| <= 2
    && (forall i :: 0 <= i < |one.closed| ==> NotEarlier(one.closed[i], soft))
    && (|one.closed| == 2 ==> one.open == [] && ClosedWithReason(one.closed[0], Following(one, 0), soft))
    && (|one.closed| > 0 ==> ClosedWithReason(one.closed[|one.closed| - 1], if one.open == [] then None else Some(one.open[0]), soft))
  }

  lemma SnocNotEarlier(chunk: seq<Record>, r: Record, soft: nat)
    requires OpenChunk(chunk, soft)
    ensures NotEarlier(chunk + [r], soft)
  {
    hide Weight;
    assert (chunk + [r])[..|chunk|] == chunk;
  }

  lemma OpenNotEarlier(chunk: seq<Record>, soft: nat)
    requires OpenChunk(chunk, soft)
    ensures NotEarlier(chunk, soft)
  {
    if |chunk| > 1 {
      WeightOfSnoc(chunk[..|chunk| - 1], chunk[|chunk| - 1]);
      assert chunk == chunk[..|chunk| - 1] + [chunk[|chunk| - 1]];
    }
  }

  lemma OneIsGreedy(chunk: seq<Record>, r: Record, soft: nat)
    requires OpenChunk(chunk, soft)
    ensures OneGreedy(PackOne(chunk, r, soft), soft)
  {
    hide Weight, OpenChunk;
    SnocNotEarlier(chunk, r, soft);
    OpenNotEarlier(chunk, soft);
    OneNotEarlier(r, soft);
    hide NotEarlier;
    var one := PackOne(chunk, r, soft);
    if chunk != [] && Weight(chunk) + r.weight > soft {
      assert one.closed[0] == chunk;
      if |one.closed| == 2 { assert Following(one, 0) == Some(r); }
    } else if one.closed != [] {
      assert one.closed == [chunk + [r]];
    }
  }

  lemma OneNotEarlier(r: Record, soft: nat)
    ensures NotEarlier([r], soft)
  {
  }

  lemma GreedyJoins(one: Packed, p: Packed, soft: nat)
    requires OneGreedy(one, soft) && Greedy(p, soft)
    requires one.open != [] ==> FirstOf(p) == Some(one.open[0])
    ensures Greedy(Packed(one.closed + p.closed, p.open), soft)
  {
    hide Weight;
    var all := Packed(one.closed + p.closed, p.open);
    forall i | 0 <= i < |all.closed| ensures ClosedWithReason(all.closed[i], Following(all, i), soft) && NotEarlier(all.closed[i], soft) {
      if i >= |one.closed| {
        assert Following(all, i) == Following(p, i - |one.closed|);
      } else if i + 1 < |one.closed| {
        assert Following(all, i) == Following(one, i);
      } else if one.open != [] {
        assert Following(all, i) == FirstOf(p);
      }
    }
  }

  /** Packing closes no chunk without need and none too late: at the first record that
      reaches the limit, or before one that would pass it. What is left open is below it. */
  lemma PackIsGreedy(rs: seq<Record>, soft: nat)
    requires soft > 0
    ensures Greedy(Pack(rs, soft), soft)
  {
    PackIsGreedyFrom([], rs, soft);
  }

  // ----- hydration -----

  /** The transcript holds the complete range from one message to another. */
  predicate HoldsRange(rs: seq<Record>, start: string, end: string, i: nat, j: nat) {
    i <= j < |rs| && rs[i].source.id == start && rs[j].source.id == end && forall k :: i <= k <= j ==> rs[k].complete
  }

  lemma RangeIsComplete(rs: seq<Record>, i: nat, j: nat)
    requires i <= j < |rs|
    ensures AllComplete(rs[i..j + 1]) <==> forall k :: i <= k <= j ==> rs[k].complete
  {
    if AllComplete(rs[i..j + 1]) {
      forall k | i <= k <= j ensures rs[k].complete { assert rs[i..j + 1][k - i] == rs[k]; }
    }
  }

  /** A range is hydrated exactly if the transcript holds it complete and in order, to
      exactly its messages. */
  lemma HydratesIff(rs: seq<Record>, start: string, end: string, ms: seq<Message>)
    requires ValidRecords(rs)
    ensures Hydrate(rs, start, end) == Ok(ms)
      <==> exists i: nat, j: nat :: HoldsRange(rs, start, end, i, j) && ms == Sources(rs[i..j + 1])
  {
    hide Positions, ValidRecords, AllComplete;
    var m := Positions(rs);
    if Hydrate(rs, start, end) == Ok(ms) {
      RangeIsComplete(rs, m[start], m[end]);
      assert HoldsRange(rs, start, end, m[start], m[end]);
    }
    if i: nat, j: nat :| HoldsRange(rs, start, end, i, j) && ms == Sources(rs[i..j + 1]) {
      RangeIsComplete(rs, i, j);
      PositionIs(rs, i);
      PositionIs(rs, j);
    }
  }

  /** A request is accepted exactly if its messages are the transcript's, complete. */
  lemma ValidIff(rs: seq<Record>, r: Request)
    requires ValidRecords(rs)
    ensures Validate(rs, r) == Ok(())
      <==> exists i: nat, j: nat :: HoldsRange(rs, r.start, r.end, i, j) && r.messages == Sources(rs[i..j + 1])
  {
    HydratesIff(rs, r.start, r.end, r.messages);
    hide Hydrate;
  }
}
