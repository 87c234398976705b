/** The planner as it runs: loops over a transcript, proved to be the plan of SegmentPlan. */
module SegmentPlanner {
  import opened Wrappers
  import opened SegmentPlan
  import opened SegmentTheorems
  import opened SegmentReplan

  /** Check the records and index them by message ID. */
  method ValidateRecords(rs: seq<Record>) returns (r: Result<map<string, nat>, PlanError>)
    ensures r.Ok? <==> ValidRecords(rs)
    ensures r.Ok? ==> r.value == Positions(rs)
    ensures r.Err? ==> r.error == BadRecords
  {
    var positions: map<string, nat> := map[];
    assert ValidRecords([]);
    for i := 0 to |rs|
      invariant positions == Positions(rs[..i])
      invariant ValidRecords(rs[..i])
    {
      var record := rs[i];
      ghost var before, after := rs[..i], rs[..i + 1];
      assert after == before + [record] && after[..i] == before;
      hide Positions;
      OneMoreRecord(before, record);
      OneMorePosition(before, record);
      if record.rawId != record.source.id || record.source.id in positions || |record.source.text| > MAX_MESSAGE_TEXT_CHARS {
        PrefixesAreValid(rs, i + 1);
        return Err(BadRecords);
      }
      positions := positions[record.source.id := i];
    }
    assert rs[..|rs|] == rs;
    r := Ok(positions);
  }

  lemma PrefixesAreValid(rs: seq<Record>, i: nat)
    requires i <= |rs|
    ensures ValidRecords(rs) ==> ValidRecords(rs[..i])
  {
  }

  lemma OneMorePosition(before: seq<Record>, r: Record)
    ensures Positions(before + [r]) == Positions(before)[r.source.id := |before|]
  {
    assert (before + [r])[..|before|] == before;
  }

  lemma OneMoreRecord(before: seq<Record>, r: Record)
    requires ValidRecords(before)
    ensures ValidRecords(before + [r]) <==>
      r.rawId == r.source.id && r.source.id !in Positions(before) && |r.source.text| <= MAX_MESSAGE_TEXT_CHARS
  {
    hide Positions;
    var after := before + [r];
    assert after[|before|] == r;
    if r.source.id in Positions(before) {
      var k := Positions(before)[r.source.id];
      assert after[k] == before[k];
    } else {
      assert forall k :: 0 <= k < |before| ==> before[k].source.id != r.source.id;
    }
  }

  method LocateAnchors(es: seq<Entry>, rs: seq<Record>, positions: map<string, nat>) returns (r: Result<seq<Anchor>, PlanError>)
    requires positions == Positions(rs)
    ensures r == LocateAll(es, rs)
  {
    var anchors: seq<Anchor> := [];
    for i := 0 to |es|
      invariant LocateAll(es[..i], rs) == Ok(anchors)
    {
      hide Locate;
      assert es[..i + 1][..i] == es[..i];
      var located := Locate(es[i], rs);
      if located.Err? {
        LocateStops(es, i, rs);
        return Err(located.error);
      }
      if located.value.Some? { anchors := anchors + [located.value.value]; }
    }
    assert es[..|es|] == es;
    r := Ok(anchors);
  }

  /** The first entry that cannot be located decides. */
  lemma {:induction false} LocateStops(es: seq<Entry>, i: nat, rs: seq<Record>)
    requires i < |es| && LocateAll(es[..i], rs).Ok? && Locate(es[i], rs).Err?
    ensures LocateAll(es, rs) == Err(Locate(es[i], rs).error)
    decreases |es|
  {
    hide Locate;
    var n := |es| - 1;
    if i < n {
      assert es[..n][..i] == es[..i];
      LocateStops(es[..n], i, rs);
    }
  }

  method KeepAnchors(s: seq<Anchor>) returns (r: Result<seq<Anchor>, PlanError>)
    ensures r == KeepAll(s)
  {
    var unique: seq<Anchor> := [];
    for i := 0 to |s|
      invariant KeepAll(s[..i]) == Ok(unique)
    {
      assert s[..i + 1][..i] == s[..i];
      var anchor := s[i];
      if unique == [] {
        unique := [anchor];
        continue;
      }
      var previous := unique[|unique| - 1];
      if anchor.start == previous.start {
        if anchor.target != previous.target {
          if anchor.target { unique := unique[|unique| - 1 := anchor]; }
          continue;
        }
        if anchor.end != previous.end {
          KeepStops(s, i + 1);
          return Err(StartConflict);
        }
        continue;
      }
      if anchor.start <= previous.end {
        KeepStops(s, i + 1);
        return Err(Overlap);
      }
      unique := unique + [anchor];
    }
    assert s[..|s|] == s;
    r := Ok(unique);
  }

  lemma {:induction false} KeepStops(s: seq<Anchor>, i: nat)
    requires i <= |s| && KeepAll(s[..i]).Err?
    ensures KeepAll(s) == KeepAll(s[..i])
    decreases |s|
  {
    if i == |s| {
      assert s[..i] == s;
    } else {
      assert s[..|s| - 1][..i] == s[..i];
      KeepStops(s[..|s| - 1], i);
    }
  }

  /** The packing loop over one stretch of records. */
  method PackRange(rs: seq<Record>, soft: nat) returns (closed: seq<seq<Record>>, open: seq<Record>)
    requires soft > 0
    ensures Packed(closed, open) == Pack(rs, soft)
  {
    closed := [];
    var chunk: seq<Record> := [];
    var weight := 0;
    var cursor := 0;
    assert rs[0..] == rs;
    while cursor < |rs|
      invariant 0 <= cursor <= |rs|
      invariant weight == Weight(chunk)
      invariant Pack(rs, soft) == Packed(closed + PackFrom(chunk, rs[cursor..], soft).closed,
                                         PackFrom(chunk, rs[cursor..], soft).open)
    {
      var candidate := rs[cursor];
      ghost var before, was := closed, chunk;
      ghost var rest := rs[cursor..];
      PackUnfold(chunk, rest, soft);
      WeightOfSnoc(chunk, candidate);
      WeightOfSnoc([], candidate);
      assert [] + [candidate] == [candidate];
      if |chunk| > 0 && weight + candidate.weight > soft {
        closed := closed + [chunk];
        chunk := [];
        weight := 0;
      }
      chunk := chunk + [candidate];
      weight := weight + candidate.weight;
      cursor := cursor + 1;
      if weight >= soft {
        closed := closed + [chunk];
        chunk := [];
        weight := 0;
      }
      ghost var one := PackOne(was, candidate, soft);
      assert closed == before + one.closed && chunk == one.open;
      assert rest[1..] == rs[cursor..];
      ConcatAssociates(before, one.closed, PackFrom(chunk, rs[cursor..], soft).closed);
    }
    open := chunk;
    assert PackFrom(chunk, [], soft) == Packed([], chunk);
    assert closed + [] == closed;
  }

  /** Build the planned segments; stop at one over the size limits. */
  method Emit(slices: seq<Slice>) returns (r: Result<seq<Planned>, PlanError>)
    ensures r == if AllFit(slices) then Ok(PlannedAll(slices)) else Err(TooLarge)
  {
    var result: seq<Planned> := [];
    for i := 0 to |slices|
      invariant AllFit(slices[..i])
      invariant result == PlannedAll(slices[..i])
    {
      if !Fits(slices[i].records) { return Err(TooLarge); }
      result := result + [PlannedFor(slices[i].records, slices[i].closed)];
      assert slices[..i + 1] == slices[..i] + [slices[i]];
    }
    assert slices[..|slices|] == slices;
    r := Ok(result);
  }

  /** Plan exact message ranges up to the first incomplete record. */
  method PlanNativeSegments(rs: seq<Record>, manifest: seq<Entry>, soft: int, allowOpen: bool)
    returns (r: Result<seq<Planned>, PlanError>)
    ensures r == Plan(rs, manifest, if soft > 0 then soft else 0, allowOpen)
  {
    if soft <= 0 { return Err(BadLimit); }
    var positions := ValidateRecords(rs);
    if positions.Err? { return Err(BadRecords); }
    var located := LocateAnchors(manifest, rs, positions.value);
    if located.Err? { return Err(located.error); }
    var kept := KeepAnchors(SortAnchors(located.value));
    if kept.Err? { return Err(kept.error); }
    var anchors := kept.value;
    AnchorsForAreOrdered(manifest, rs);
    r := PlanAround(rs, anchors, soft, allowOpen);
  }

  method Barrier(rs: seq<Record>) returns (end: nat)
    ensures end <= |rs| && rs[..end] == CompletePrefix(rs)
  {
    hide CompletePrefix;
    end := 0;
    assert rs[0..] == rs;
    while end < |rs| && rs[end].complete
      invariant 0 <= end <= |rs|
      invariant CompletePrefix(rs) == rs[..end] + CompletePrefix(rs[end..])
    {
      PrefixUnfold(rs[end..]);
      assert rs[end..][1..] == rs[end + 1..];
      assert rs[..end + 1] == rs[..end] + [rs[end]];
      ConcatAssociates(rs[..end], [rs[end]], CompletePrefix(rs[end + 1..]));
      end := end + 1;
    }
    PrefixUnfold(rs[end..]);
  }

  lemma PrefixUnfold(rs: seq<Record>)
    ensures CompletePrefix(rs) == if rs == [] || !rs[0].complete then [] else [rs[0]] + CompletePrefix(rs[1..])
  {
  }

  /** Records in front of an anchor: the last chunk is closed too. */
  method PlanGap(gap: seq<Record>, soft: nat) returns (slices: seq<Slice>)
    requires soft > 0
    ensures slices == GapSlices(gap, soft)
  {
    var closed, open := PackRange(gap, soft);
    slices := ClosedSlices(closed);
    if |open| > 0 { slices := slices + [Slice(open, true)]; }
  }

  /** Records behind the last anchor: the last chunk is planned only as an open snapshot. */
  method PlanTail(tail: seq<Record>, soft: nat, allowOpen: bool) returns (slices: seq<Slice>)
    requires soft > 0
    ensures slices == TailSlices(tail, soft, allowOpen)
  {
    var closed, open := PackRange(tail, soft);
    slices := ClosedSlices(closed);
    if |open| > 0 && allowOpen { slices := slices + [Slice(open, false)]; }
  }

  lemma OneAnchorAt(
    complete: seq<Record>, behind: nat, anchors: seq<Anchor>, next: nat, cursor: nat, soft: nat, allowOpen: bool)
    requires next < |anchors| && cursor <= |complete| && AnchorsFrom(anchors[next..], cursor)
    requires anchors[next].end < |complete|
    ensures var a := anchors[next];
      && cursor <= a.start <= a.end && AnchorsFrom(anchors[next + 1..], a.end + 1)
      && SlicesFrom(complete[cursor..], behind, anchors[next..], cursor, soft, allowOpen)
         == GapSlices(complete[cursor..a.start], soft)
            + (AnchorSlices(complete[a.start..a.end + 1], |complete| - a.end - 1 + behind, soft, allowOpen)
               + SlicesFrom(complete[a.end + 1..], behind, anchors[next + 1..], a.end + 1, soft, allowOpen))
  {
    hide SlicesFrom, AnchorsFrom, GapSlices, AnchorSlices;
    var a, rest := anchors[next], complete[cursor..];
    AnchorsUnfold(anchors[next..], cursor);
    assert anchors[next..][1..] == anchors[next + 1..];
    OneAnchor(rest, behind, anchors[next..], cursor, soft, allowOpen);
    assert rest[..a.start - cursor] == complete[cursor..a.start];
    var fixed := rest[a.start - cursor..];
    assert fixed == complete[a.start..];
    assert fixed[..a.end + 1 - a.start] == complete[a.start..a.end + 1];
    assert fixed[a.end + 1 - a.start..] == complete[a.end + 1..];
  }

  /** The loop over the anchors, and the tail behind the last one used. That the
      gap `cursor..anchor.start` is a range is what "contiguous" asks for. */
  method PlanAround(rs: seq<Record>, anchors: seq<Anchor>, soft: nat, allowOpen: bool)
    returns (r: Result<seq<Planned>, PlanError>)
    requires soft > 0 && AnchorsFrom(anchors, 0)
    ensures var slices := Slices(rs, anchors, soft, allowOpen);
      r == if AllFit(slices) then Ok(PlannedAll(slices)) else Err(TooLarge)
  {
    hide SlicesFrom, AnchorsFrom, CompletePrefix, Weight, GapSlices, TailSlices, AllFit;
    var end := Barrier(rs);
    var complete := rs[..end];
    ghost var behind := |rs| - end;
    var slices: seq<Slice> := [];
    var cursor, next := 0, 0;
    assert complete[0..] == complete && anchors[0..] == anchors;
    while next < |anchors| && anchors[next].end < end
      invariant 0 <= next <= |anchors| && 0 <= cursor <= end
      invariant AnchorsFrom(anchors[next..], cursor)
      invariant Slices(rs, anchors, soft, allowOpen)
             == slices + SlicesFrom(complete[cursor..], behind, anchors[next..], cursor, soft, allowOpen)
    {
      var anchor := anchors[next];
      OneAnchorAt(complete, behind, anchors, next, cursor, soft, allowOpen);
      ghost var before := slices;
      var gap := PlanGap(complete[cursor..anchor.start], soft);
      slices := slices + gap;
      var anchored := complete[anchor.start..anchor.end + 1];
      var closed := anchor.end < |rs| - 1 || Weight(anchored) >= soft;
      var here: seq<Slice> := [];
      if closed || allowOpen { here := [Slice(anchored, closed)]; }
      Regroup(before, gap, here,
              SlicesFrom(complete[anchor.end + 1..], behind, anchors[next + 1..], anchor.end + 1, soft, allowOpen));
      slices := slices + here;
      cursor := anchor.end + 1;
      next := next + 1;
    }
    NoAnchors(complete[cursor..], behind, anchors[next..], cursor, soft, allowOpen);
    var tail := PlanTail(complete[cursor..], soft, allowOpen);
    r := Emit(slices + tail);
  }

  lemma Regroup<T>(a: seq<T>, b: seq<T>, c: seq<T>, d: seq<T>)
    ensures a + (b + (c + d)) == a + b + c + d
  {
  }
}
