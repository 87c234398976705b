/** What a native plan promises: its shape, stability under appended records,
    planning in instalments, replanning, and hydration. */
module SegmentTheorems {
  import opened Wrappers
  import opened SegmentPlan

  function Flat(chunks: seq<seq<Record>>): seq<Record> {
    if chunks == [] then [] else chunks[0] + Flat(chunks[1..])
  }

  function FlatSlices(slices: seq<Slice>): seq<Record> {
    if slices == [] then [] else slices[0].records + FlatSlices(slices[1..])
  }

  lemma WeightOfSnoc(rs: seq<Record>, r: Record)
    ensures Weight(rs + [r]) == Weight(rs) + r.weight
  {
    assert (rs + [r])[..|rs|] == rs;
  }

  lemma {:induction false} FlatAppends(a: seq<seq<Record>>, b: seq<seq<Record>>)
    ensures Flat(a + b) == Flat(a) + Flat(b)
  {
    if a == [] {
      assert a + b == b;
    } else {
      assert (a + b)[0] == a[0] && (a + b)[1..] == a[1..] + b;
      FlatAppends(a[1..], b);
    }
  }

  lemma {:induction false} ClosedSlicesFlat(chunks: seq<seq<Record>>)
    ensures FlatSlices(ClosedSlices(chunks)) == Flat(chunks)
  {
    if chunks != [] {
      assert ClosedSlices(chunks)[1..] == ClosedSlices(chunks[1..]);
      ClosedSlicesFlat(chunks[1..]);
    }
  }

  // ----- the shape of packing -----

  predicate OpenChunk(c: seq<Record>, soft: nat) {
    c == [] || Weight(c) < soft
  }

  /** A packed segment is within the soft limit or is a single record. */
  predicate PackedChunk(c: seq<Record>, soft: nat) {
    c != [] && (Weight(c) <= soft || |c| == 1)
  }

  predicate PackedChunks(cs: seq<seq<Record>>, soft: nat) {
    forall i :: 0 <= i < |cs| ==> PackedChunk(cs[i], soft)
  }

  lemma FlatOfOne(c: seq<Record>)
    ensures Flat([c]) == c
  {
    assert [c][1..] == [];
  }

  lemma ConcatAssociates<T>(a: seq<T>, b: seq<T>, c: seq<T>)
    ensures (a + b) + c == a + (b + c)
  {
  }

  lemma PackOnePartitions(chunk: seq<Record>, r: Record, soft: nat)
    requires OpenChunk(chunk, soft) && soft > 0
    ensures var one := PackOne(chunk, r, soft);
      && Flat(one.closed) + one.open == chunk + [r]
      && PackedChunks(one.closed, soft)
      && OpenChunk(one.open, soft)
  {
    WeightOfSnoc(chunk, r);
    WeightOfSnoc([], r);
    assert [] + [r] == [r];
    var one := PackOne(chunk, r, soft);
    FlatOfOne(chunk);
    FlatOfOne([r]);
    FlatOfOne(chunk + [r]);
    if |one.closed| == 2 {
      FlatAppends([chunk], [[r]]);
      assert one.closed == [chunk] + [[r]];
    }
  }

  lemma PackUnfold(chunk: seq<Record>, rest: seq<Record>, soft: nat)
    requires rest != []
    ensures var one := PackOne(chunk, rest[0], soft);
      var p := PackFrom(one.open, rest[1..], soft);
      PackFrom(chunk, rest, soft) == Packed(one.closed + p.closed, p.open)
  {
  }

  /** Packing loses, repeats and reorders nothing, and keeps the limit. */
  lemma {:induction false} PackPartitions(chunk: seq<Record>, rest: seq<Record>, soft: nat)
    requires OpenChunk(chunk, soft) && soft > 0
    ensures var p := PackFrom(chunk, rest, soft);
      && Flat(p.closed) + p.open == chunk + rest
      && PackedChunks(p.closed, soft)
      && OpenChunk(p.open, soft)
    decreases |rest|
  {
    if rest == [] {
      assert chunk + rest == chunk;
    } else {
      hide PackFrom, PackOne, Flat, Weight;
      var one := PackOne(chunk, rest[0], soft);
      PackUnfold(chunk, rest, soft);
      PackOnePartitions(chunk, rest[0], soft);
      PackPartitions(one.open, rest[1..], soft);
      var p := PackFrom(one.open, rest[1..], soft);
      calc {
        Flat(one.closed + p.closed) + p.open;
        { FlatAppends(one.closed, p.closed); }
        (Flat(one.closed) + Flat(p.closed)) + p.open;
        { ConcatAssociates(Flat(one.closed), Flat(p.closed), p.open); }
        Flat(one.closed) + (one.open + rest[1..]);
        { ConcatAssociates(Flat(one.closed), one.open, rest[1..]); }
        (chunk + [rest[0]]) + rest[1..];
        { ConcatAssociates(chunk, [rest[0]], rest[1..]); assert [rest[0]] + rest[1..] == rest; }
        chunk + rest;
      }
    }
  }

  // ----- planning in instalments -----

  /** After its first closed chunk, packing goes on as if it had just started. */
  lemma {:induction false} PackHead(chunk: seq<Record>, rest: seq<Record>, soft: nat) returns (later: seq<Record>)
    requires PackFrom(chunk, rest, soft).closed != []
    ensures var p := PackFrom(chunk, rest, soft);
      && chunk + rest == p.closed[0] + later
      && Pack(later, soft) == Packed(p.closed[1..], p.open)
    decreases |rest|
  {
    hide *;
    PackingNeedsRecords(chunk, rest, soft);
    var grown := chunk + [rest[0]];
    if chunk != [] && Weight(chunk) + rest[0].weight > soft {
      later := rest;
      OverflowHead(chunk, rest, soft);
    } else if Weight(grown) >= soft {
      later := rest[1..];
      FullHead(chunk, rest, soft);
    } else {
      GrowingHead(chunk, rest, soft);
      later := PackHead(grown, rest[1..], soft);
      assert chunk + rest == grown + rest[1..];
    }
  }

  lemma PackingNeedsRecords(chunk: seq<Record>, rest: seq<Record>, soft: nat)
    requires PackFrom(chunk, rest, soft).closed != []
    ensures rest != []
  {
  }

  lemma OverflowHead(chunk: seq<Record>, rest: seq<Record>, soft: nat)
    requires rest != [] && chunk != [] && Weight(chunk) + rest[0].weight > soft
    ensures var p := PackFrom(chunk, rest, soft);
      p.closed != [] && p.closed[0] == chunk && Pack(rest, soft) == Packed(p.closed[1..], p.open)
  {
    hide PackFrom, Weight;
    PackUnfold(chunk, rest, soft);
    PackUnfold([], rest, soft);
    assert [] + [rest[0]] == [rest[0]];
    var one, anew := PackOne(chunk, rest[0], soft), PackOne([], rest[0], soft);
    assert one.open == anew.open && one.closed == [chunk] + anew.closed;
    hide PackOne;
    var p := PackFrom(one.open, rest[1..], soft);
    assert (one.closed + p.closed)[1..] == anew.closed + p.closed;
  }

  lemma FullHead(chunk: seq<Record>, rest: seq<Record>, soft: nat)
    requires rest != [] && !(chunk != [] && Weight(chunk) + rest[0].weight > soft) && Weight(chunk + [rest[0]]) >= soft
    ensures var p := PackFrom(chunk, rest, soft);
      && p.closed != [] && chunk + rest == p.closed[0] + rest[1..]
      && Pack(rest[1..], soft) == Packed(p.closed[1..], p.open)
  {
    hide PackFrom, Weight;
    PackUnfold(chunk, rest, soft);
    assert PackOne(chunk, rest[0], soft) == Packed([chunk + [rest[0]]], []);
    hide PackOne;
    var p := Pack(rest[1..], soft);
    assert ([chunk + [rest[0]]] + p.closed)[1..] == p.closed;
  }

  lemma GrowingHead(chunk: seq<Record>, rest: seq<Record>, soft: nat)
    requires rest != [] && !(chunk != [] && Weight(chunk) + rest[0].weight > soft) && Weight(chunk + [rest[0]]) < soft
    ensures PackFrom(chunk, rest, soft) == PackFrom(chunk + [rest[0]], rest[1..], soft)
  {
    hide PackFrom, Weight;
    PackUnfold(chunk, rest, soft);
    assert PackOne(chunk, rest[0], soft) == Packed([], chunk + [rest[0]]);
  }

  /** Packing in instalments: from any closed boundary on, planning only the
      fresh records gives the rest of the full plan. */
  lemma {:induction false} PackResumes(rs: seq<Record>, n: nat, soft: nat) returns (later: seq<Record>)
    requires n <= |Pack(rs, soft).closed|
    ensures var p := Pack(rs, soft);
      && rs == Flat(p.closed[..n]) + later
      && Pack(later, soft) == Packed(p.closed[n..], p.open)
    decreases n
  {
    var p := Pack(rs, soft);
    if n == 0 {
      later := rs;
      assert p.closed[0..] == p.closed;
      assert [] + rs == rs;
    } else {
      var rest := PackHead([], rs, soft);
      assert [] + rs == rs;
      later := PackResumes(rest, n - 1, soft);
      var first, others := p.closed[0], p.closed[1..];
      assert p.closed[..n][1..] == others[..n - 1];
      ConcatAssociates(first, Flat(others[..n - 1]), later);
      assert others[n - 1..] == p.closed[n..];
    }
  }

  /** Appending records never changes a closed chunk. */
  lemma {:induction false} PackExtends(chunk: seq<Record>, rest: seq<Record>, more: seq<Record>, soft: nat)
    ensures PackFrom(chunk, rest, soft).closed <= PackFrom(chunk, rest + more, soft).closed
    decreases |rest|
  {
    if rest != [] {
      assert (rest + more)[0] == rest[0] && (rest + more)[1..] == rest[1..] + more;
      PackExtends(PackOne(chunk, rest[0], soft).open, rest[1..], more, soft);
    }
  }

  /** A rest lighter than the limit stays one open chunk. */
  lemma {:induction false} LightRestStaysOpen(chunk: seq<Record>, rest: seq<Record>, soft: nat)
    requires Weight(chunk + rest) < soft
    ensures PackFrom(chunk, rest, soft) == Packed([], chunk + rest)
    decreases |rest|
  {
    if rest == [] {
      assert chunk + rest == chunk;
    } else {
      var grown := chunk + [rest[0]];
      assert grown + rest[1..] == chunk + rest;
      WeightOfSnoc(chunk, rest[0]);
      WeightGrows(grown, rest[1..]);
      LightRestStaysOpen(grown, rest[1..], soft);
    }
  }

  lemma {:induction false} WeightGrows(a: seq<Record>, b: seq<Record>)
    ensures Weight(a) <= Weight(a + b)
  {
    if b == [] {
      assert a + b == a;
    } else {
      WeightGrows(a, b[..|b| - 1]);
      assert (a + b)[..|a + b| - 1] == a + b[..|b| - 1];
    }
  }

  /** The records of a plan, by request. */
  function Messages(ps: seq<Planned>): seq<Message> {
    if ps == [] then [] else ps[0].request.messages + Messages(ps[1..])
  }

  /** Without a manifest the plan is the packed prefix before the first incomplete record. */
  lemma PlanWithoutManifest(rs: seq<Record>, soft: nat, allowOpen: bool)
    requires soft > 0 && ValidRecords(rs)
    ensures AnchorsFor([], rs) == Ok([])
    ensures var slices := TailSlices(CompletePrefix(rs), soft, allowOpen);
      && Slices(rs, [], soft, allowOpen) == slices
      && Plan(rs, [], soft, allowOpen) == if AllFit(slices) then Ok(PlannedAll(slices)) else Err(TooLarge)
  {
    assert AnchorsFor([], rs) == Ok([]);
  }

  lemma {:induction false} CompletePrefixDrops(rs: seq<Record>, k: nat)
    requires k <= |CompletePrefix(rs)|
    ensures CompletePrefix(rs[k..]) == CompletePrefix(rs)[k..]
  {
    if k == 0 {
      assert rs[0..] == rs && CompletePrefix(rs)[0..] == CompletePrefix(rs);
    } else {
      CompletePrefixDrops(rs[1..], k - 1);
      assert rs[k..] == rs[1..][k - 1..];
      assert CompletePrefix(rs)[k..] == CompletePrefix(rs)[1..][k - 1..];
    }
  }

  lemma {:induction false} CompletePrefixExtends(rs: seq<Record>, more: seq<Record>)
    ensures CompletePrefix(rs) <= CompletePrefix(rs + more)
    ensures CompletePrefix(rs) != rs ==> CompletePrefix(rs + more) == CompletePrefix(rs)
  {
    if rs != [] && rs[0].complete {
      assert (rs + more)[0] == rs[0] && (rs + more)[1..] == rs[1..] + more;
      CompletePrefixExtends(rs[1..], more);
    } else if rs != [] {
      assert (rs + more)[0] == rs[0];
    }
  }

  /** How many records the first n segments of the plan cover. */
  function Covered(ps: seq<Planned>, n: nat): nat
    requires n <= |ps|
  {
    |Messages(ps[..n])|
  }

  lemma {:induction false} MessagesOfSlices(slices: seq<Slice>)
    requires AllFit(slices)
    ensures Messages(PlannedAll(slices)) == Sources(FlatSlices(slices))
  {
    if slices != [] {
      assert PlannedAll(slices)[1..] == PlannedAll(slices[1..]);
      MessagesOfSlices(slices[1..]);
    }
  }

  /** Behind n closed chunks, the slices are those of the records behind them. */
  lemma TailResumes(tail: seq<Record>, n: nat, soft: nat, allowOpen: bool) returns (k: nat)
    requires n <= |Pack(tail, soft).closed|
    ensures k <= |tail|
    ensures tail[..k] == FlatSlices(TailSlices(tail, soft, allowOpen)[..n])
    ensures TailSlices(tail[k..], soft, allowOpen) == TailSlices(tail, soft, allowOpen)[n..]
  {
    hide PackFrom, Flat, FlatSlices;
    var p := Pack(tail, soft);
    var later := PackResumes(tail, n, soft);
    k := |tail| - |later|;
    assert tail[k..] == later;
    assert TailSlices(tail, soft, allowOpen)[..n] == ClosedSlices(p.closed[..n]);
    ClosedSlicesFlat(p.closed[..n]);
    assert ClosedSlices(p.closed[n..]) == ClosedSlices(p.closed)[n..];
  }

  lemma ClosedSlicesArePacked(tail: seq<Record>, n: nat, soft: nat, allowOpen: bool)
    requires n <= |TailSlices(tail, soft, allowOpen)|
    requires forall i :: 0 <= i < n ==> TailSlices(tail, soft, allowOpen)[i].closed
    ensures n <= |Pack(tail, soft).closed|
  {
    var slices := TailSlices(tail, soft, allowOpen);
    if slices != [] {
      assert slices[|slices| - 1].closed <==> |slices| == |Pack(tail, soft).closed|;
    }
  }

  lemma PlannedAllSplits(slices: seq<Slice>, n: nat)
    requires AllFit(slices) && n <= |slices|
    ensures PlannedAll(slices[..n]) == PlannedAll(slices)[..n]
    ensures PlannedAll(slices[n..]) == PlannedAll(slices)[n..]
  {
  }

  /** Incremental planning is one-shot planning: behind any closed segment, the
      plan of the fresh records is the rest of the full plan. */
  lemma IncrementalPlanning(rs: seq<Record>, n: nat, soft: nat, allowOpen: bool)
    requires Plan(rs, [], soft, allowOpen).Ok?
    requires n <= |Plan(rs, [], soft, allowOpen).value|
    requires forall i :: 0 <= i < n ==> Plan(rs, [], soft, allowOpen).value[i].closed
    ensures var ps := Plan(rs, [], soft, allowOpen).value;
      && Covered(ps, n) <= |rs|
      && Messages(ps[..n]) == Sources(rs[..Covered(ps, n)])
      && Plan(rs[Covered(ps, n)..], [], soft, allowOpen) == Ok(ps[n..])
  {
    var prefix := CompletePrefix(rs);
    PlanWithoutManifest(rs, soft, allowOpen);
    var ps := Plan(rs, [], soft, allowOpen).value;
    var slices := TailSlices(prefix, soft, allowOpen);
    assert forall i :: 0 <= i < n ==> slices[i].closed == ps[i].closed;
    ClosedSlicesArePacked(prefix, n, soft, allowOpen);
    var k := TailResumes(prefix, n, soft, allowOpen);
    PlannedAllSplits(slices, n);
    MessagesOfSlices(slices[..n]);
    assert prefix[..k] == rs[..k];
    assert Covered(ps, n) == k;
    ResumedPlan(rs, k, slices[n..], soft, allowOpen);
  }

  lemma ResumedPlan(rs: seq<Record>, k: nat, slices: seq<Slice>, soft: nat, allowOpen: bool)
    requires soft > 0 && ValidRecords(rs) && k <= |CompletePrefix(rs)| && AllFit(slices)
    requires TailSlices(CompletePrefix(rs)[k..], soft, allowOpen) == slices
    ensures Plan(rs[k..], [], soft, allowOpen) == Ok(PlannedAll(slices))
  {
    CompletePrefixDrops(rs, k);
    PlanWithoutManifest(rs[k..], soft, allowOpen);
  }

  /** Appending records leaves every closed segment of the plan in place. */
  lemma AppendingKeepsClosedSegments(rs: seq<Record>, more: seq<Record>, soft: nat, allowOpen: bool)
    requires Plan(rs, [], soft, allowOpen).Ok? && Plan(rs + more, [], soft, allowOpen).Ok?
    ensures var old_, new_ := Plan(rs, [], soft, allowOpen).value, Plan(rs + more, [], soft, allowOpen).value;
      forall i :: 0 <= i < |old_| && old_[i].closed ==> i < |new_| && new_[i] == old_[i]
  {
    hide CompletePrefix, PackFrom;
    PlanWithoutManifest(rs, soft, allowOpen);
    PlanWithoutManifest(rs + more, soft, allowOpen);
    CompletePrefixExtends(rs, more);
    var a, b := CompletePrefix(rs), CompletePrefix(rs + more);
    assert b == a + b[|a|..];
    PackExtends([], a, b[|a|..], soft);
    var pa, pb := Pack(a, soft).closed, Pack(b, soft).closed;
    forall i | 0 <= i < |pa| ensures pb[i] == pa[i] {
      assert pa[i] == pb[..|pa|][i];
    }
  }
}
