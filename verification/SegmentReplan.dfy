/** Plans around a manifest: their shape, and why planning again from the plan's
    own boundaries, or hydrating them, gives the same segments back. */
module SegmentReplan {
  import opened Wrappers
  import opened SegmentPlan
  import opened SegmentTheorems

  /** The slices follow one another through `rest`, with `behind` incomplete
      records after it: closed ones first, each followed by a record or at the
      limit, then at most one open one. What they leave out would stay open. */
  predicate WellPlanned(slices: seq<Slice>, rest: seq<Record>, behind: nat, soft: nat, allowOpen: bool)
    decreases |slices|
  {
    if slices == [] then
      Pack(rest, soft) == Packed([], rest) && (allowOpen ==> rest == [])
    else
      var s := slices[0];
      && s.records != [] && s.records <= rest
      && if s.closed then
           && (|s.records| < |rest| + behind || Weight(s.records) >= soft)
           && WellPlanned(slices[1..], rest[|s.records|..], behind, soft, allowOpen)
         else
           && allowOpen && |slices| == 1 && s.records == rest
           && Pack(rest, soft) == Packed([], rest)
  }

  /** A packed list that leaves nothing open ends with a full chunk. */
  lemma {:induction false} LastChunkIsFull(chunk: seq<Record>, rest: seq<Record>, soft: nat)
    requires rest != [] && PackFrom(chunk, rest, soft).open == []
    ensures var cs := PackFrom(chunk, rest, soft).closed;
      cs != [] && Weight(cs[|cs| - 1]) >= soft
    decreases |rest|
  {
    var one := PackOne(chunk, rest[0], soft);
    if |rest| > 1 { LastChunkIsFull(one.open, rest[1..], soft); }
  }

  /** What is left open packs to itself. */
  lemma OpenRestStaysOpen(rs: seq<Record>, soft: nat)
    requires soft > 0
    ensures var p := Pack(rs, soft); Pack(p.open, soft) == Packed([], p.open)
  {
    PackPartitions([], rs, soft);
    var open := Pack(rs, soft).open;
    assert [] + open == open;
    if open != [] { LightRestStaysOpen([], open, soft); }
  }

  lemma PrependSlice(c: seq<Record>, slices: seq<Slice>, rest: seq<Record>, behind: nat, soft: nat, allowOpen: bool)
    requires c != [] && (rest != [] || behind > 0 || Weight(c) >= soft)
    requires WellPlanned(slices, rest, behind, soft, allowOpen)
    ensures WellPlanned([Slice(c, true)] + slices, c + rest, behind, soft, allowOpen)
  {
    assert ([Slice(c, true)] + slices)[1..] == slices;
    assert (c + rest)[|c|..] == rest;
  }

  /** Closed chunks in front of well planned slices. */
  lemma {:induction false} PrependChunks(
    cs: seq<seq<Record>>, slices: seq<Slice>, rest: seq<Record>, behind: nat, soft: nat, allowOpen: bool)
    requires PackedChunks(cs, soft)
    requires cs != [] ==> rest != [] || behind > 0 || Weight(cs[|cs| - 1]) >= soft
    requires WellPlanned(slices, rest, behind, soft, allowOpen)
    ensures WellPlanned(ClosedSlices(cs) + slices, Flat(cs) + rest, behind, soft, allowOpen)
    decreases |cs|
  {
    hide WellPlanned, Weight;
    if cs == [] {
      assert ClosedSlices(cs) + slices == slices;
      assert Flat(cs) + rest == rest;
    } else {
      var c, later := cs[0], cs[1..];
      if later != [] {
        assert PackedChunk(later[0], soft);
        assert later[0] <= Flat(later);
      }
      PrependChunks(later, slices, rest, behind, soft, allowOpen);
      PrependSlice(c, ClosedSlices(later) + slices, Flat(later) + rest, behind, soft, allowOpen);
      assert [Slice(c, true)] + (ClosedSlices(later) + slices) == ClosedSlices(cs) + slices;
      ConcatAssociates(c, Flat(later), rest);
    }
  }

  lemma TailIsWellPlanned(tail: seq<Record>, behind: nat, soft: nat, allowOpen: bool)
    requires soft > 0
    ensures WellPlanned(TailSlices(tail, soft, allowOpen), tail, behind, soft, allowOpen)
  {
    var p := Pack(tail, soft);
    PackPartitions([], tail, soft);
    assert [] + tail == tail;
    OpenRestStaysOpen(tail, soft);
    if p.open == [] && tail != [] { LastChunkIsFull([], tail, soft); }
    var last := if p.open == [] || !allowOpen then [] else [Slice(p.open, false)];
    assert WellPlanned(last, p.open, behind, soft, allowOpen);
    PrependChunks(p.closed, last, p.open, behind, soft, allowOpen);
  }

  lemma GapIsWellPlanned(
    gap: seq<Record>, slices: seq<Slice>, rest: seq<Record>, behind: nat, soft: nat, allowOpen: bool)
    requires soft > 0 && rest != [] && WellPlanned(slices, rest, behind, soft, allowOpen)
    ensures WellPlanned(GapSlices(gap, soft) + slices, gap + rest, behind, soft, allowOpen)
  {
    var p := Pack(gap, soft);
    PackPartitions([], gap, soft);
    assert [] + gap == gap;
    var middle := if p.open == [] then [] else [Slice(p.open, true)];
    if p.open == [] {
      assert middle + slices == slices && p.open + rest == rest;
    } else {
      PrependSlice(p.open, slices, rest, behind, soft, allowOpen);
    }
    PrependChunks(p.closed, middle + slices, p.open + rest, behind, soft, allowOpen);
    ConcatAssociates(ClosedSlices(p.closed), middle, slices);
    ConcatAssociates(Flat(p.closed), p.open, rest);
  }

  lemma AnchorIsWellPlanned(
    anchored: seq<Record>, slices: seq<Slice>, rest: seq<Record>, behind: nat, soft: nat, allowOpen: bool)
    requires soft > 0 && anchored != [] && WellPlanned(slices, rest, behind, soft, allowOpen)
    requires rest == [] ==> slices == []
    ensures WellPlanned(AnchorSlices(anchored, |rest| + behind, soft, allowOpen) + slices, anchored + rest, behind, soft, allowOpen)
  {
    if AnchorClosed(anchored, |rest| + behind, soft) {
      PrependSlice(anchored, slices, rest, behind, soft, allowOpen);
    } else {
      assert anchored + rest == anchored && [] + anchored == anchored;
      LightRestStaysOpen([], anchored, soft);
      assert AnchorSlices(anchored, 0, soft, allowOpen) + slices == AnchorSlices(anchored, 0, soft, allowOpen);
    }
  }

  lemma NoAnchors(rest: seq<Record>, behind: nat, anchors: seq<Anchor>, base: nat, soft: nat, allowOpen: bool)
    requires AnchorsFrom(anchors, base) && (anchors == [] || anchors[0].end >= base + |rest|)
    ensures SlicesFrom(rest, behind, anchors, base, soft, allowOpen) == TailSlices(rest, soft, allowOpen)
    ensures rest == [] ==> SlicesFrom(rest, behind, anchors, base, soft, allowOpen) == []
  {
  }

  lemma OneAnchor(rest: seq<Record>, behind: nat, anchors: seq<Anchor>, base: nat, soft: nat, allowOpen: bool)
    requires AnchorsFrom(anchors, base) && anchors != [] && anchors[0].end < base + |rest|
    ensures var a := anchors[0];
      var fixed := rest[a.start - base..];
      var later := fixed[a.end + 1 - a.start..];
      SlicesFrom(rest, behind, anchors, base, soft, allowOpen)
      == GapSlices(rest[..a.start - base], soft)
         + (AnchorSlices(fixed[..a.end + 1 - a.start], |later| + behind, soft, allowOpen)
            + SlicesFrom(later, behind, anchors[1..], a.end + 1, soft, allowOpen))
  {
  }

  /** Every plan is well planned, whatever anchors it was planned around. */
  lemma {:induction false} SlicesAreWellPlanned(
    rest: seq<Record>, behind: nat, anchors: seq<Anchor>, base: nat, soft: nat, allowOpen: bool)
    requires soft > 0 && AnchorsFrom(anchors, base)
    ensures WellPlanned(SlicesFrom(rest, behind, anchors, base, soft, allowOpen), rest, behind, soft, allowOpen)
    decreases |anchors|
  {
    hide WellPlanned, SlicesFrom, TailSlices, GapSlices, AnchorSlices;
    if anchors == [] || anchors[0].end >= base + |rest| {
      NoAnchors(rest, behind, anchors, base, soft, allowOpen);
      TailIsWellPlanned(rest, behind, soft, allowOpen);
    } else {
      var a := anchors[0];
      var gap, fixed := rest[..a.start - base], rest[a.start - base..];
      var anchored, later := fixed[..a.end + 1 - a.start], fixed[a.end + 1 - a.start..];
      SlicesAreWellPlanned(later, behind, anchors[1..], a.end + 1, soft, allowOpen);
      var others := SlicesFrom(later, behind, anchors[1..], a.end + 1, soft, allowOpen);
      if later == [] { NoAnchors(later, behind, anchors[1..], a.end + 1, soft, allowOpen); }
      AnchorIsWellPlanned(anchored, others, later, behind, soft, allowOpen);
      assert anchored + later == fixed && gap + fixed == rest;
      OneAnchor(rest, behind, anchors, base, soft, allowOpen);
      GapIsWellPlanned(gap, AnchorSlices(anchored, |later| + behind, soft, allowOpen) + others, fixed, behind, soft, allowOpen);
    }
  }

  // ----- shape -----

  /** A plan covers a prefix of the complete records in order, and all of them
      when an open snapshot is allowed; only its last segment may be open. */
  lemma {:induction false} WellPlannedShape(slices: seq<Slice>, rest: seq<Record>, behind: nat, soft: nat, allowOpen: bool)
    requires WellPlanned(slices, rest, behind, soft, allowOpen)
    ensures FlatSlices(slices) <= rest
    ensures allowOpen ==> FlatSlices(slices) == rest
    ensures forall i :: 0 <= i < |slices| ==> slices[i].records != []
    ensures forall i :: 0 <= i < |slices| && !slices[i].closed ==> allowOpen && i == |slices| - 1
    decreases |slices|
  {
    if slices != [] {
      var s := slices[0];
      assert rest == s.records + rest[|s.records|..];
      if s.closed {
        WellPlannedShape(slices[1..], rest[|s.records|..], behind, soft, allowOpen);
        assert forall i :: 0 < i < |slices| ==> slices[i] == slices[1..][i - 1];
      } else {
        assert slices[1..] == [];
      }
    }
  }

  /** The range of one of the anchors. */
  ghost predicate Anchored(c: seq<Record>, rest: seq<Record>, anchors: seq<Anchor>, base: nat) {
    exists i :: 0 <= i < |anchors| && FillsAnchor(c, rest, anchors[i], base)
  }

  predicate FillsAnchor(c: seq<Record>, rest: seq<Record>, a: Anchor, base: nat) {
    base <= a.start <= a.end < base + |rest| && c == rest[a.start - base..a.end + 1 - base]
  }

  lemma AnchoredLater(c: seq<Record>, rest: seq<Record>, anchors: seq<Anchor>, base: nat)
    requires AnchorsFrom(anchors, base) && anchors != [] && anchors[0].end < base + |rest|
    requires Anchored(c, rest[anchors[0].end + 1 - base..], anchors[1..], anchors[0].end + 1)
    ensures Anchored(c, rest, anchors, base)
  {
    var k := anchors[0].end + 1 - base;
    var i :| 0 <= i < |anchors[1..]| && FillsAnchor(c, rest[k..], anchors[1..][i], anchors[0].end + 1);
    var a := anchors[i + 1];
    hide AnchorsFrom;
    var lo, hi := a.start - base, a.end + 1 - base;
    assert rest[k..][lo - k..hi - k] == rest[lo..hi];
    assert FillsAnchor(c, rest, anchors[i + 1], base);
  }

  ghost predicate WithinLimit(slices: seq<Slice>, rest: seq<Record>, anchors: seq<Anchor>, base: nat, soft: nat) {
    forall i :: 0 <= i < |slices| ==>
      PackedChunk(slices[i].records, soft) || Anchored(slices[i].records, rest, anchors, base)
  }

  lemma HereIsAnchored(
    c: seq<Record>, following: nat, rest: seq<Record>, anchors: seq<Anchor>, base: nat, soft: nat, allowOpen: bool)
    requires anchors != [] && FillsAnchor(c, rest, anchors[0], base)
    ensures WithinLimit(AnchorSlices(c, following, soft, allowOpen), rest, anchors, base, soft)
  {
  }

  lemma LimitsJoin(a: seq<Slice>, b: seq<Slice>, rest: seq<Record>, anchors: seq<Anchor>, base: nat, soft: nat)
    requires WithinLimit(a, rest, anchors, base, soft) && WithinLimit(b, rest, anchors, base, soft)
    ensures WithinLimit(a + b, rest, anchors, base, soft)
  {
    hide Anchored, PackedChunk;
  }

  lemma PackedWithinLimit(gap: seq<Record>, rest: seq<Record>, anchors: seq<Anchor>, base: nat, soft: nat, allowOpen: bool)
    requires soft > 0
    ensures WithinLimit(GapSlices(gap, soft), rest, anchors, base, soft)
    ensures WithinLimit(TailSlices(gap, soft, allowOpen), rest, anchors, base, soft)
  {
    hide Anchored, PackFrom, Weight;
    PackPartitions([], gap, soft);
  }

  lemma LaterWithinLimit(slices: seq<Slice>, rest: seq<Record>, anchors: seq<Anchor>, base: nat, soft: nat)
    requires AnchorsFrom(anchors, base) && anchors != [] && anchors[0].end < base + |rest|
    requires WithinLimit(slices, rest[anchors[0].end + 1 - base..], anchors[1..], anchors[0].end + 1, soft)
    ensures WithinLimit(slices, rest, anchors, base, soft)
  {
    hide Anchored, PackedChunk;
    forall i | 0 <= i < |slices| && !PackedChunk(slices[i].records, soft)
      ensures Anchored(slices[i].records, rest, anchors, base)
    {
      AnchoredLater(slices[i].records, rest, anchors, base);
    }
  }

  /** Every slice is within the soft limit, a single record, or an anchor's range. */
  lemma {:induction false} SlicesWithinLimit(
    rest: seq<Record>, behind: nat, anchors: seq<Anchor>, base: nat, soft: nat, allowOpen: bool)
    requires soft > 0 && AnchorsFrom(anchors, base)
    ensures WithinLimit(SlicesFrom(rest, behind, anchors, base, soft, allowOpen), rest, anchors, base, soft)
    decreases |anchors|
  {
    hide SlicesFrom, AnchorsFrom, Weight, PackFrom, Anchored, WithinLimit, GapSlices, TailSlices;
    if anchors == [] || anchors[0].end >= base + |rest| {
      NoAnchors(rest, behind, anchors, base, soft, allowOpen);
      PackedWithinLimit(rest, rest, anchors, base, soft, allowOpen);
    } else {
      AnchorsUnfold(anchors, base);
      var a := anchors[0];
      var gap, fixed := rest[..a.start - base], rest[a.start - base..];
      var anchored, later := fixed[..a.end + 1 - a.start], fixed[a.end + 1 - a.start..];
      OneAnchor(rest, behind, anchors, base, soft, allowOpen);
      PackedWithinLimit(gap, rest, anchors, base, soft, allowOpen);
      assert anchored == rest[a.start - base..a.end + 1 - base];
      HereIsAnchored(anchored, |later| + behind, rest, anchors, base, soft, allowOpen);
      SlicesWithinLimit(later, behind, anchors[1..], a.end + 1, soft, allowOpen);
      assert later == rest[a.end + 1 - base..];
      var here, others := AnchorSlices(anchored, |later| + behind, soft, allowOpen),
                          SlicesFrom(later, behind, anchors[1..], a.end + 1, soft, allowOpen);
      LaterWithinLimit(others, rest, anchors, base, soft);
      LimitsJoin(here, others, rest, anchors, base, soft);
      LimitsJoin(GapSlices(gap, soft), here + others, rest, anchors, base, soft);
    }
  }

  lemma AnchorsUnfold(anchors: seq<Anchor>, base: nat)
    requires AnchorsFrom(anchors, base) && anchors != []
    ensures base <= anchors[0].start <= anchors[0].end && AnchorsFrom(anchors[1..], anchors[0].end + 1)
  {
  }

  // ----- planning again -----

  /** The boundaries a plan would leave in the manifest. */
  function ManifestOf(ps: seq<Planned>): seq<Entry> {
    if ps == [] then []
    else (if ps[0].closed then [Entry(ps[0].id, ps[0].request.start, ps[0].request.end, false)] else []) + ManifestOf(ps[1..])
  }

  /** Where the closed slices lie. */
  function AnchorsOf(slices: seq<Slice>, cursor: nat): seq<Anchor>
    requires forall i :: 0 <= i < |slices| ==> slices[i].records != []
  {
    if slices == [] || !slices[0].closed then []
    else
      var end := cursor + |slices[0].records|;
      [Anchor(cursor, end - 1, false)] + AnchorsOf(slices[1..], end)
  }

  function ClosedOnly(slices: seq<Slice>): seq<Slice> {
    if slices == [] || !slices[0].closed then [] else [slices[0]] + ClosedOnly(slices[1..])
  }

  lemma DisjointCons(a: Anchor, s: seq<Anchor>)
    requires OrderedDisjoint(s) && a.start <= a.end && forall i :: 0 <= i < |s| ==> a.end < s[i].start
    ensures OrderedDisjoint([a] + s)
  {
  }

  lemma DisjointIsSorted(s: seq<Anchor>)
    requires OrderedDisjoint(s)
    ensures SortedAnchors(s)
  {
  }

  lemma {:induction false} AnchorsOfAreOrdered(slices: seq<Slice>, base: nat)
    requires forall i :: 0 <= i < |slices| ==> slices[i].records != []
    ensures AnchorsFrom(AnchorsOf(slices, base), base)
    ensures OrderedDisjoint(AnchorsOf(slices, base))
    ensures forall i :: 0 <= i < |AnchorsOf(slices, base)| ==> base <= AnchorsOf(slices, base)[i].start
    decreases |slices|
  {
    if slices != [] && slices[0].closed {
      var next := base + |slices[0].records|;
      var others := AnchorsOf(slices[1..], next);
      AnchorsOfAreOrdered(slices[1..], next);
      DisjointCons(Anchor(base, next - 1, false), others);
      assert AnchorsOf(slices, base)[1..] == others;
    }
  }

  /** Planning around the plan's own closed segments, over a transcript that may
      have grown, keeps them and packs what lies behind them. */
  lemma {:induction false} ReplanKeepsClosed(
    slices: seq<Slice>, rest: seq<Record>, behind: nat, soft: nat, allowOpen: bool,
    rest': seq<Record>, behind': nat, base: nat, allowOpen': bool)
    requires WellPlanned(slices, rest, behind, soft, allowOpen)
    requires forall i :: 0 <= i < |slices| ==> slices[i].records != []
    requires rest <= rest' && |rest| + behind <= |rest'| + behind'
    requires AnchorsFrom(AnchorsOf(slices, base), base)
    ensures var k := |FlatSlices(ClosedOnly(slices))|;
      && k <= |rest|
      && SlicesFrom(rest', behind', AnchorsOf(slices, base), base, soft, allowOpen')
         == ClosedOnly(slices) + TailSlices(rest'[k..], soft, allowOpen')
    decreases |slices|
  {
    hide WellPlanned, Weight, PackFrom, SlicesFrom, TailSlices, FlatSlices;
    if slices == [] || !slices[0].closed {
      NothingFlat();
      assert rest'[0..] == rest';
      NoAnchors(rest', behind', [], base, soft, allowOpen');
      assert [] + TailSlices(rest', soft, allowOpen') == TailSlices(rest', soft, allowOpen');
    } else {
      var c := slices[0].records;
      ClosedHead(slices, rest, behind, soft, allowOpen);
      var more := AnchorsOf(slices[1..], base + |c|);
      assert rest'[..|c|] == c;
      assert AnchorsOf(slices, base)[1..] == more;
      ReplanKeepsClosed(slices[1..], rest[|c|..], behind, soft, allowOpen, rest'[|c|..], behind', base + |c|, allowOpen');
      FixedAnchor(c, more, rest', behind', base, soft, allowOpen');
      FlatOfClosed(slices);
      var others := ClosedOnly(slices[1..]);
      var k := |FlatSlices(others)|;
      calc {
        SlicesFrom(rest', behind', AnchorsOf(slices, base), base, soft, allowOpen');
        [slices[0]] + (others + TailSlices(rest'[|c|..][k..], soft, allowOpen'));
        { assert rest'[|c|..][k..] == rest'[|c| + k..]; }
        [slices[0]] + (others + TailSlices(rest'[|c| + k..], soft, allowOpen'));
        { ConcatAssociates([slices[0]], others, TailSlices(rest'[|c| + k..], soft, allowOpen')); }
        ClosedOnly(slices) + TailSlices(rest'[|c| + k..], soft, allowOpen');
      }
    }
  }

  lemma NothingFlat()
    ensures FlatSlices([]) == []
  {
  }

  lemma FlatOfClosed(slices: seq<Slice>)
    requires slices != [] && slices[0].closed
    ensures FlatSlices(ClosedOnly(slices)) == slices[0].records + FlatSlices(ClosedOnly(slices[1..]))
  {
    assert ClosedOnly(slices)[1..] == ClosedOnly(slices[1..]);
  }

  lemma NothingToPack(soft: nat)
    ensures GapSlices([], soft) == []
  {
  }

  lemma ClosedHead(slices: seq<Slice>, rest: seq<Record>, behind: nat, soft: nat, allowOpen: bool)
    requires WellPlanned(slices, rest, behind, soft, allowOpen) && slices != [] && slices[0].closed
    ensures var c := slices[0].records;
      && c != [] && c <= rest
      && (|c| < |rest| + behind || Weight(c) >= soft)
      && WellPlanned(slices[1..], rest[|c|..], behind, soft, allowOpen)
  {
  }

  /** An anchor right at the cursor is its own closed segment. */
  lemma FixedAnchor(c: seq<Record>, more: seq<Anchor>, rest: seq<Record>, behind: nat, base: nat, soft: nat, allowOpen: bool)
    requires c != [] && c <= rest
    requires |c| < |rest| + behind || Weight(c) >= soft
    requires AnchorsFrom(more, base + |c|)
    ensures AnchorsFrom([Anchor(base, base + |c| - 1, false)] + more, base)
    ensures SlicesFrom(rest, behind, [Anchor(base, base + |c| - 1, false)] + more, base, soft, allowOpen)
         == [Slice(c, true)] + SlicesFrom(rest[|c|..], behind, more, base + |c|, soft, allowOpen)
  {
    hide SlicesFrom, WellPlanned, Weight, PackFrom;
    var anchors := [Anchor(base, base + |c| - 1, false)] + more;
    assert anchors[1..] == more;
    OneAnchor(rest, behind, anchors, base, soft, allowOpen);
    NothingToPack(soft);
    assert rest[..0] == [] && rest[0..] == rest;
    assert rest[..|c|] == c;
    var others := [Slice(c, true)] + SlicesFrom(rest[|c|..], behind, more, base + |c|, soft, allowOpen);
    assert [] + others == others;
  }

  /** Over the same transcript the packed rest is the open segment again. */
  lemma {:induction false} RestIsTail(slices: seq<Slice>, rest: seq<Record>, behind: nat, soft: nat, allowOpen: bool)
    requires WellPlanned(slices, rest, behind, soft, allowOpen)
    ensures var k := |FlatSlices(ClosedOnly(slices))|;
      k <= |rest| && slices == ClosedOnly(slices) + TailSlices(rest[k..], soft, allowOpen)
    decreases |slices|
  {
    if slices == [] || !slices[0].closed {
      assert rest[0..] == rest;
      assert ClosedSlices([]) == [];
    } else {
      var c := slices[0].records;
      RestIsTail(slices[1..], rest[|c|..], behind, soft, allowOpen);
      FlatOfClosed(slices);
      var k := |FlatSlices(ClosedOnly(slices[1..]))|;
      assert rest[|c|..][k..] == rest[|c| + k..];
      ConcatAssociates([slices[0]], ClosedOnly(slices[1..]), TailSlices(rest[|c| + k..], soft, allowOpen));
    }
  }

  // ----- the manifest leads back to the closed segments -----

  lemma PositionIs(rs: seq<Record>, i: nat)
    requires ValidRecords(rs) && i < |rs|
    ensures rs[i].source.id in Positions(rs) && Positions(rs)[rs[i].source.id] == i
  {
  }

  lemma LocateClosed(rs: seq<Record>, base: nat, c: seq<Record>)
    requires ValidRecords(rs) && Fits(c) && base + |c| <= |rs| && rs[base..base + |c|] == c
    ensures Locate(BoundaryOf(c), rs) == Ok(Some(Anchor(base, base + |c| - 1, false)))
  {
    hide ValidRecords, Positions, TextChars;
    PositionIs(rs, base);
    PositionIs(rs, base + |c| - 1);
    assert c[0] == rs[base] && c[|c| - 1] == rs[base + |c| - 1];
  }

  ghost predicate LocatedAt(es: seq<Entry>, s: seq<Anchor>, rs: seq<Record>) {
    |es| == |s| && forall i :: 0 <= i < |es| ==> Locate(es[i], rs) == Ok(Some(s[i]))
  }

  lemma LocatedCons(e: Entry, a: Anchor, es: seq<Entry>, s: seq<Anchor>, rs: seq<Record>)
    requires Locate(e, rs) == Ok(Some(a)) && LocatedAt(es, s, rs)
    ensures LocatedAt([e] + es, [a] + s, rs)
  {
    hide Locate;
  }

  function BoundaryOf(c: seq<Record>): Entry
    requires c != []
  {
    Entry(IdOf(RequestFor(c)), RequestFor(c).start, RequestFor(c).end, false)
  }

  lemma ManifestCons(slices: seq<Slice>, base: nat)
    requires AllFit(slices) && slices != []
    ensures AllFit(slices[1..]) && slices[0].records != [] && Fits(slices[0].records)
    ensures forall i :: 0 <= i < |slices[1..]| ==> slices[1..][i].records != []
    ensures var c := slices[0].records;
      var es, s := ManifestOf(PlannedAll(slices)), AnchorsOf(slices, base);
      if slices[0].closed then
        && es == [BoundaryOf(c)] + ManifestOf(PlannedAll(slices[1..]))
        && s == [Anchor(base, base + |c| - 1, false)] + AnchorsOf(slices[1..], base + |c|)
      else es == ManifestOf(PlannedAll(slices[1..])) && s == AnchorsOf([], base)
  {
    assert PlannedAll(slices)[1..] == PlannedAll(slices[1..]);
  }

  /** Every boundary of the manifest is located exactly where its segment was. */
  lemma {:induction false} ManifestIsLocated(
    rs: seq<Record>, slices: seq<Slice>, rest: seq<Record>, behind: nat, base: nat, soft: nat, allowOpen: bool)
    requires ValidRecords(rs) && AllFit(slices) && WellPlanned(slices, rest, behind, soft, allowOpen)
    requires base <= |rs| && rest <= rs[base..]
    ensures LocatedAt(ManifestOf(PlannedAll(slices)), AnchorsOf(slices, base), rs)
    decreases |slices|
  {
    hide *;
    if slices == [] {
      NothingIsLocated(rs, base);
    } else {
      ManifestCons(slices, base);
      var c := slices[0].records;
      if slices[0].closed {
        ClosedHead(slices, rest, behind, soft, allowOpen);
        assert c == rs[base..][..|c|] == rs[base..base + |c|];
        assert rs[base..][|c|..] == rs[base + |c|..];
        LocateClosed(rs, base, c);
        ManifestIsLocated(rs, slices[1..], rest[|c|..], behind, base + |c|, soft, allowOpen);
        LocatedCons(BoundaryOf(c), Anchor(base, base + |c| - 1, false),
                    ManifestOf(PlannedAll(slices[1..])), AnchorsOf(slices[1..], base + |c|), rs);
      } else {
        OpenHead(slices, rest, behind, soft, allowOpen);
        NothingIsLocated(rs, base);
      }
    }
  }

  lemma NothingIsLocated(rs: seq<Record>, base: nat)
    ensures AllFit([]) && LocatedAt(ManifestOf(PlannedAll([])), AnchorsOf([], base), rs)
  {
  }

  lemma OpenHead(slices: seq<Slice>, rest: seq<Record>, behind: nat, soft: nat, allowOpen: bool)
    requires WellPlanned(slices, rest, behind, soft, allowOpen) && slices != [] && !slices[0].closed
    ensures slices[1..] == []
  {
  }

  lemma {:induction false} LocateAllIs(es: seq<Entry>, s: seq<Anchor>, rs: seq<Record>)
    requires LocatedAt(es, s, rs)
    ensures LocateAll(es, rs) == Ok(s)
  {
    hide Locate, LocateAll;
    if es == [] {
      LocateNone(rs);
    } else {
      var n := |es| - 1;
      LocateAllIs(es[..n], s[..n], rs);
      LocateOneMore(es, s[..n], s[n], rs);
      assert s == s[..n] + [s[n]];
    }
  }

  lemma LocateNone(rs: seq<Record>)
    ensures LocateAll([], rs) == Ok([])
  {
  }

  lemma LocateOneMore(es: seq<Entry>, before: seq<Anchor>, a: Anchor, rs: seq<Record>)
    requires es != [] && LocateAll(es[..|es| - 1], rs) == Ok(before) && Locate(es[|es| - 1], rs) == Ok(Some(a))
    ensures LocateAll(es, rs) == Ok(before + [a])
  {
    hide Locate;
  }

  lemma {:induction false} SortedStays(s: seq<Anchor>)
    requires SortedAnchors(s)
    ensures SortAnchors(s) == s
  {
    if s != [] {
      SortedStays(s[..|s| - 1]);
      assert s == s[..|s| - 1] + [s[|s| - 1]];
    }
  }

  lemma {:induction false} DisjointIsKept(s: seq<Anchor>)
    requires OrderedDisjoint(s)
    ensures KeepAll(s) == Ok(s)
  {
    if s != [] {
      var n := |s| - 1;
      DisjointIsKept(s[..n]);
      if n == 0 {
        assert s[..n] == [] && [s[n]] == [] + [s[n]];
      } else {
        assert s[..n][n - 1] == s[n - 1] && s[n - 1].start <= s[n - 1].end < s[n].start;
      }
      assert KeepAnchor(s[..n], s[n]) == Ok(s[..n] + [s[n]]);
      assert s == s[..n] + [s[n]];
    }
  }

  /** The slices behind a successful plan. */
  lemma PlanSlices(rs: seq<Record>, es: seq<Entry>, soft: nat, allowOpen: bool) returns (slices: seq<Slice>)
    requires Plan(rs, es, soft, allowOpen).Ok?
    ensures AllFit(slices) && Plan(rs, es, soft, allowOpen) == Ok(PlannedAll(slices))
    ensures WellPlanned(slices, CompletePrefix(rs), |rs| - |CompletePrefix(rs)|, soft, allowOpen)
    ensures soft > 0 && ValidRecords(rs)
  {
    hide WellPlanned, CompletePrefix, SlicesFrom;
    AnchorsForAreOrdered(es, rs);
    var anchors := AnchorsFor(es, rs).value;
    slices := Slices(rs, anchors, soft, allowOpen);
    SlicesAreWellPlanned(CompletePrefix(rs), |rs| - |CompletePrefix(rs)|, anchors, 0, soft, allowOpen);
  }

  lemma ManifestAnchors(rs: seq<Record>, slices: seq<Slice>, rest: seq<Record>, behind: nat, soft: nat, allowOpen: bool)
    requires ValidRecords(rs) && AllFit(slices) && WellPlanned(slices, rest, behind, soft, allowOpen) && rest <= rs
    ensures AnchorsFor(ManifestOf(PlannedAll(slices)), rs) == Ok(AnchorsOf(slices, 0))
    ensures AnchorsFrom(AnchorsOf(slices, 0), 0)
  {
    hide WellPlanned, ManifestOf, AnchorsOf, KeepAll, SortAnchors, LocateAll;
    assert rs[0..] == rs;
    ManifestIsLocated(rs, slices, rest, behind, 0, soft, allowOpen);
    LocateAllIs(ManifestOf(PlannedAll(slices)), AnchorsOf(slices, 0), rs);
    AnchorsOfAreOrdered(slices, 0);
    DisjointIsSorted(AnchorsOf(slices, 0));
    SortedStays(AnchorsOf(slices, 0));
    DisjointIsKept(AnchorsOf(slices, 0));
  }

  /** Planning again around the plan's own boundaries, after the transcript has
      grown, begins with exactly the closed segments of the plan. */
  lemma ReplanAfterGrowth(rs: seq<Record>, more: seq<Record>, es: seq<Entry>, soft: nat, allowOpen: bool, allowOpen': bool)
    requires Plan(rs, es, soft, allowOpen).Ok?
    requires Plan(rs + more, ManifestOf(Plan(rs, es, soft, allowOpen).value), soft, allowOpen').Ok?
    ensures var ps := Plan(rs, es, soft, allowOpen).value;
      var again := Plan(rs + more, ManifestOf(ps), soft, allowOpen').value;
      forall i :: 0 <= i < |ps| && ps[i].closed ==> i < |again| && again[i] == ps[i]
  {
    hide WellPlanned, CompletePrefix, SlicesFrom, ManifestOf, AnchorsOf, AnchorsFor, TailSlices, FlatSlices;
    var slices := PlanSlices(rs, es, soft, allowOpen);
    var rest, behind := CompletePrefix(rs), |rs| - |CompletePrefix(rs)|;
    var rest' := CompletePrefix(rs + more);
    CompletePrefixExtends(rs, more);
    ManifestAnchors(rs + more, slices, rest, behind, soft, allowOpen);
    ReplanKeepsClosed(slices, rest, behind, soft, allowOpen, rest', |rs + more| - |rest'|, 0, allowOpen');
    var again := Slices(rs + more, AnchorsOf(slices, 0), soft, allowOpen');
    ClosedComeFirst(slices, rest, behind, soft, allowOpen);
    assert ClosedOnly(slices) <= again;
    forall i | 0 <= i < |slices| && slices[i].closed ensures i < |again| && again[i] == slices[i] {
      assert again[i] == ClosedOnly(slices)[i];
    }
  }

  lemma {:induction false} ClosedComeFirst(slices: seq<Slice>, rest: seq<Record>, behind: nat, soft: nat, allowOpen: bool)
    requires WellPlanned(slices, rest, behind, soft, allowOpen)
    ensures var k := |ClosedOnly(slices)|;
      && k <= |slices|
      && (forall i :: 0 <= i < k ==> ClosedOnly(slices)[i] == slices[i])
      && (forall i :: 0 <= i < |slices| && slices[i].closed ==> i < k)
    decreases |slices|
  {
    if slices != [] && slices[0].closed {
      ClosedComeFirst(slices[1..], rest[|slices[0].records|..], behind, soft, allowOpen);
      assert forall i :: 0 < i < |slices| ==> slices[i] == slices[1..][i - 1];
    }
  }

  /** Planning again from the plan's own closed segments changes nothing. */
  lemma ReplanIsFixedPoint(rs: seq<Record>, es: seq<Entry>, soft: nat, allowOpen: bool)
    requires Plan(rs, es, soft, allowOpen).Ok?
    ensures Plan(rs, ManifestOf(Plan(rs, es, soft, allowOpen).value), soft, allowOpen) == Plan(rs, es, soft, allowOpen)
  {
    hide WellPlanned, CompletePrefix, SlicesFrom, ManifestOf, AnchorsOf, AnchorsFor, TailSlices, FlatSlices;
    var slices := PlanSlices(rs, es, soft, allowOpen);
    var rest, behind := CompletePrefix(rs), |rs| - |CompletePrefix(rs)|;
    ManifestAnchors(rs, slices, rest, behind, soft, allowOpen);
    ReplanKeepsClosed(slices, rest, behind, soft, allowOpen, rest, behind, 0, allowOpen);
    RestIsTail(slices, rest, behind, soft, allowOpen);
    assert Slices(rs, AnchorsOf(slices, 0), soft, allowOpen) == slices;
  }

  lemma PlannedAllLengths(slices: seq<Slice>)
    requires AllFit(slices)
    ensures forall i :: 0 <= i < |slices| ==>
      && |PlannedAll(slices)[i].request.messages| == |slices[i].records|
      && PlannedAll(slices)[i].closed == slices[i].closed
  {
  }

  ghost predicate PlanCovers(ps: seq<Planned>, prefix: seq<Record>, allowOpen: bool) {
    && Messages(ps) <= Sources(prefix)
    && (allowOpen ==> Messages(ps) == Sources(prefix))
    && (forall i :: 0 <= i < |ps| ==> ps[i].request.messages != [])
    && (forall i :: 0 <= i < |ps| && !ps[i].closed ==> allowOpen && i == |ps| - 1)
  }

  lemma SlicesCover(slices: seq<Slice>, rest: seq<Record>, behind: nat, soft: nat, allowOpen: bool)
    requires AllFit(slices) && WellPlanned(slices, rest, behind, soft, allowOpen)
    ensures PlanCovers(PlannedAll(slices), rest, allowOpen)
  {
    hide WellPlanned, FlatSlices, Messages, Fits;
    WellPlannedShape(slices, rest, behind, soft, allowOpen);
    MessagesOfSlices(slices);
    PlannedAllLengths(slices);
  }

  /** The segments of any plan cover a prefix of the complete records in order,
      all of them when an open snapshot is wanted, and only the last may be open. */
  lemma PlanShape(rs: seq<Record>, es: seq<Entry>, soft: nat, allowOpen: bool)
    requires Plan(rs, es, soft, allowOpen).Ok?
    ensures PlanCovers(Plan(rs, es, soft, allowOpen).value, CompletePrefix(rs), allowOpen)
  {
    hide *;
    var slices := PlanSlices(rs, es, soft, allowOpen);
    SlicesCover(slices, CompletePrefix(rs), |rs| - |CompletePrefix(rs)|, soft, allowOpen);
  }

  /** The segment is exactly the range the manifest fixed. */
  predicate PlannedAt(p: Planned, rs: seq<Record>, a: Anchor) {
    a.start <= a.end < |rs| && p.request.messages == Sources(rs[a.start..a.end + 1])
  }

  lemma AnchoredIsPlannedAt(c: seq<Record>, closed: bool, rest: seq<Record>, rs: seq<Record>, anchors: seq<Anchor>)
    requires Anchored(c, rest, anchors, 0) && rest <= rs && c != []
    ensures exists k :: 0 <= k < |anchors| && PlannedAt(PlannedFor(c, closed), rs, anchors[k])
  {
    var k :| 0 <= k < |anchors| && FillsAnchor(c, rest, anchors[k], 0);
    assert rest[anchors[k].start..anchors[k].end + 1] == rs[anchors[k].start..anchors[k].end + 1];
    assert PlannedAt(PlannedFor(c, closed), rs, anchors[k]);
  }

  /** A planned segment is within the soft limit, one record, or a range the manifest fixed. */
  lemma PlannedWithinLimit(rs: seq<Record>, es: seq<Entry>, soft: nat, allowOpen: bool)
    requires Plan(rs, es, soft, allowOpen).Ok? && AnchorsFor(es, rs).Ok?
    ensures var ps, anchors := Plan(rs, es, soft, allowOpen).value, AnchorsFor(es, rs).value;
      forall i :: 0 <= i < |ps| ==>
        || ps[i].weight <= soft
        || |ps[i].request.messages| == 1
        || exists k :: 0 <= k < |anchors| && PlannedAt(ps[i], rs, anchors[k])
  {
    AnchorsForAreOrdered(es, rs);
    hide AnchorsFor, SlicesFrom, AnchorsFrom, Weight;
    var anchors := AnchorsFor(es, rs).value;
    var rest, behind := CompletePrefix(rs), |rs| - |CompletePrefix(rs)|;
    var slices := SlicesFrom(rest, behind, anchors, 0, soft, allowOpen);
    assert slices == Slices(rs, anchors, soft, allowOpen);
    assert AllFit(slices);
    SlicesWithinLimit(rest, behind, anchors, 0, soft, allowOpen);
    assert WithinLimit(slices, rest, anchors, 0, soft);
    forall i | 0 <= i < |slices| && !PackedChunk(slices[i].records, soft)
      ensures exists k :: 0 <= k < |anchors| && PlannedAt(PlannedFor(slices[i].records, slices[i].closed), rs, anchors[k])
    {
      AnchoredIsPlannedAt(slices[i].records, slices[i].closed, rest, rs, anchors);
    }
  }

  // ----- hydration -----

  lemma HydrateClosed(rs: seq<Record>, base: nat, c: seq<Record>)
    requires ValidRecords(rs) && c != [] && base + |c| <= |rs| && rs[base..base + |c|] == c
    requires forall i :: 0 <= i < |c| ==> c[i].complete
    ensures Hydrate(rs, RequestFor(c).start, RequestFor(c).end) == Ok(RequestFor(c).messages)
  {
    hide ValidRecords, Positions;
    PositionIs(rs, base);
    PositionIs(rs, base + |c| - 1);
    assert c[0] == rs[base] && c[|c| - 1] == rs[base + |c| - 1];
  }

  lemma {:induction false} SlicesHydrate(
    rs: seq<Record>, slices: seq<Slice>, rest: seq<Record>, behind: nat, base: nat, soft: nat, allowOpen: bool)
    requires ValidRecords(rs) && AllFit(slices) && WellPlanned(slices, rest, behind, soft, allowOpen)
    requires base <= |rs| && rest <= rs[base..] && forall i :: 0 <= i < |rest| ==> rest[i].complete
    ensures forall i :: 0 <= i < |slices| ==> Validate(rs, RequestFor(slices[i].records)) == Ok(())
    decreases |slices|
  {
    hide Hydrate, Weight, PackFrom;
    if slices != [] {
      var c := slices[0].records;
      assert c == rs[base..][..|c|] == rs[base..base + |c|];
      assert forall i :: 0 <= i < |c| ==> c[i] == rest[i];
      HydrateClosed(rs, base, c);
      if slices[0].closed {
        assert rs[base..][|c|..] == rs[base + |c|..];
        SlicesHydrate(rs, slices[1..], rest[|c|..], behind, base + |c|, soft, allowOpen);
        assert forall i :: 0 < i < |slices| ==> slices[i] == slices[1..][i - 1];
      }
    }
  }

  lemma PlannedRequest(slices: seq<Slice>, i: nat)
    requires AllFit(slices) && i < |slices|
    ensures slices[i].records != [] && PlannedAll(slices)[i].request == RequestFor(slices[i].records)
  {
  }

  /** Every planned request hydrates back to its own messages, now and after the
      transcript has grown, so validation accepts it. */
  lemma PlannedRequestsAreValid(rs: seq<Record>, more: seq<Record>, es: seq<Entry>, soft: nat, allowOpen: bool)
    requires Plan(rs, es, soft, allowOpen).Ok? && ValidRecords(rs + more)
    ensures forall i :: 0 <= i < |Plan(rs, es, soft, allowOpen).value| ==>
              Validate(rs + more, Plan(rs, es, soft, allowOpen).value[i].request) == Ok(())
  {
    hide *;
    var slices := PlanSlices(rs, es, soft, allowOpen);
    assert (rs + more)[0..] == rs + more;
    SlicesHydrate(rs + more, slices, CompletePrefix(rs), |rs| - |CompletePrefix(rs)|, 0, soft, allowOpen);
    forall i | 0 <= i < |slices| ensures Validate(rs + more, PlannedAll(slices)[i].request) == Ok(()) {
      PlannedRequest(slices, i);
    }
  }
}
