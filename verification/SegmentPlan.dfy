/** Native segment planning as a function: greedy packing of complete records
    around ranges that an earlier manifest fixed. */
module SegmentPlan {
  import opened Wrappers

  datatype Message = Message(id: string, text: string)

  /** A canonical history record with its extraction weight. */
  datatype Record = Record(rawId: string, source: Message, complete: bool, weight: nat)

  /** A native segment ID is an injective hash of the first message ID (the
      source and the session are fixed here). */
  datatype SegmentId = SegmentId(start: string)

  /** A boundary or a target of the stored manifest. */
  datatype Entry = Entry(id: SegmentId, start: string, end: string, target: bool)

  /** A located manifest range, both ends included. */
  datatype Anchor = Anchor(start: nat, end: nat, target: bool)

  datatype Request = Request(start: string, end: string, messages: seq<Message>)

  datatype Planned = Planned(request: Request, id: SegmentId, closed: bool, weight: nat)

  datatype PlanError = BadLimit | BadRecords | Reversed | BadId | TooLarge | StartConflict | Overlap | NotContiguous

  const MAX_MESSAGE_TEXT_CHARS := 1_000_000
  const MAX_SEGMENT_TEXT_CHARS := 2_000_000
  const MAX_SEGMENT_MESSAGES := 10_000

  // ----- records -----

  predicate ValidRecords(rs: seq<Record>) {
    && (forall i :: 0 <= i < |rs| ==> rs[i].rawId == rs[i].source.id && |rs[i].source.text| <= MAX_MESSAGE_TEXT_CHARS)
    && (forall i, k :: 0 <= i < k < |rs| ==> rs[i].source.id != rs[k].source.id)
  }

  /** Where each message ID is. */
  function Positions(rs: seq<Record>): (m: map<string, nat>)
    ensures forall id :: id in m ==> m[id] < |rs| && rs[m[id]].source.id == id
    ensures forall i :: 0 <= i < |rs| ==> rs[i].source.id in m
  {
    if rs == [] then map[] else Positions(rs[..|rs| - 1])[rs[|rs| - 1].source.id := |rs| - 1]
  }

  function Weight(rs: seq<Record>): nat {
    if rs == [] then 0 else Weight(rs[..|rs| - 1]) + rs[|rs| - 1].weight
  }

  function TextChars(rs: seq<Record>): nat {
    if rs == [] then 0 else TextChars(rs[..|rs| - 1]) + |rs[|rs| - 1].source.text|
  }

  function Sources(rs: seq<Record>): (ms: seq<Message>)
    ensures |ms| == |rs|
    ensures forall i :: 0 <= i < |rs| ==> ms[i] == rs[i].source
  {
    seq(|rs|, i requires 0 <= i < |rs| => rs[i].source)
  }

  /** The size limits of a segment request. */
  predicate Fits(rs: seq<Record>) {
    0 < |rs| <= MAX_SEGMENT_MESSAGES && TextChars(rs) <= MAX_SEGMENT_TEXT_CHARS
  }

  function RequestFor(rs: seq<Record>): Request
    requires rs != []
  {
    Request(rs[0].source.id, rs[|rs| - 1].source.id, Sources(rs))
  }

  function IdOf(r: Request): SegmentId {
    SegmentId(r.start)
  }

  function PlannedFor(rs: seq<Record>, closed: bool): Planned
    requires rs != []
  {
    Planned(RequestFor(rs), IdOf(RequestFor(rs)), closed, Weight(rs))
  }

  /** The records before the first incomplete one. */
  function CompletePrefix(rs: seq<Record>): (p: seq<Record>)
    ensures p <= rs
    ensures forall i :: 0 <= i < |p| ==> p[i].complete
    ensures |p| < |rs| ==> !rs[|p|].complete
  {
    if rs == [] || !rs[0].complete then [] else [rs[0]] + CompletePrefix(rs[1..])
  }

  // ----- packing -----

  /** The segments closed by packing, and the records still open behind them. */
  datatype Packed = Packed(closed: seq<seq<Record>>, open: seq<Record>)

  /** Add one record: close the chunk before a record that would pass the limit,
      and close it after a record that reaches the limit. */
  function PackOne(chunk: seq<Record>, r: Record, soft: nat): Packed {
    var overflow := chunk != [] && Weight(chunk) + r.weight > soft;
    var before := if overflow then [chunk] else [];
    var grown := if overflow then [r] else chunk + [r];
    if Weight(grown) >= soft then Packed(before + [grown], []) else Packed(before, grown)
  }

  function PackFrom(chunk: seq<Record>, rest: seq<Record>, soft: nat): Packed
    decreases |rest|
  {
    if rest == [] then Packed([], chunk)
    else
      var one := PackOne(chunk, rest[0], soft);
      var p := PackFrom(one.open, rest[1..], soft);
      Packed(one.closed + p.closed, p.open)
  }

  function Pack(rs: seq<Record>, soft: nat): Packed {
    PackFrom([], rs, soft)
  }

  /** A planned range with its records. */
  datatype Slice = Slice(records: seq<Record>, closed: bool)

  function ClosedSlices(chunks: seq<seq<Record>>): (r: seq<Slice>)
    ensures |r| == |chunks|
    ensures forall i :: 0 <= i < |r| ==> r[i] == Slice(chunks[i], true)
  {
    seq(|chunks|, i requires 0 <= i < |chunks| => Slice(chunks[i], true))
  }

  /** In front of an anchor the open rest is closed as well. */
  function GapSlices(gap: seq<Record>, soft: nat): seq<Slice> {
    var p := Pack(gap, soft);
    ClosedSlices(p.closed) + if p.open == [] then [] else [Slice(p.open, true)]
  }

  function TailSlices(tail: seq<Record>, soft: nat, allowOpen: bool): seq<Slice> {
    var p := Pack(tail, soft);
    ClosedSlices(p.closed) + if p.open == [] || !allowOpen then [] else [Slice(p.open, false)]
  }

  /** Anchors in order, disjoint, none before `cursor`. */
  predicate AnchorsFrom(anchors: seq<Anchor>, cursor: nat) {
    anchors != [] ==>
      && cursor <= anchors[0].start <= anchors[0].end
      && AnchorsFrom(anchors[1..], anchors[0].end + 1)
  }

  /** An anchored range is closed when a record follows it or it is at the limit. */
  predicate AnchorClosed(anchored: seq<Record>, following: nat, soft: nat) {
    following > 0 || Weight(anchored) >= soft
  }

  /** An anchor fixes its range; an open one is left out unless a snapshot is wanted. */
  function AnchorSlices(anchored: seq<Record>, following: nat, soft: nat, allowOpen: bool): seq<Slice> {
    var closed := AnchorClosed(anchored, following, soft);
    if closed || allowOpen then [Slice(anchored, closed)] else []
  }

  /** The plan of the complete records from position `base` on, which `behind`
      incomplete records follow. An anchor that ends beyond them stops the anchors. */
  function SlicesFrom(rest: seq<Record>, behind: nat, anchors: seq<Anchor>, base: nat, soft: nat, allowOpen: bool): seq<Slice>
    requires AnchorsFrom(anchors, base)
    decreases |anchors|
  {
    if anchors == [] || anchors[0].end >= base + |rest| then TailSlices(rest, soft, allowOpen)
    else
      var a := anchors[0];
      var gap, fixed := rest[..a.start - base], rest[a.start - base..];
      var anchored, later := fixed[..a.end + 1 - a.start], fixed[a.end + 1 - a.start..];
      GapSlices(gap, soft)
      + (AnchorSlices(anchored, |later| + behind, soft, allowOpen)
         + SlicesFrom(later, behind, anchors[1..], a.end + 1, soft, allowOpen))
  }

  // ----- anchors -----

  /** A manifest range in this transcript; one with a lost end is dropped. */
  function Locate(e: Entry, rs: seq<Record>): (r: Result<Option<Anchor>, PlanError>)
    ensures r.Ok? && r.value.Some? ==> r.value.value.start <= r.value.value.end < |rs|
  {
    var m := Positions(rs);
    if e.start !in m || e.end !in m then Ok(None)
    else if m[e.end] < m[e.start] then Err(Reversed)
    else
      var range := rs[m[e.start]..m[e.end] + 1];
      if !Fits(range) then Err(TooLarge)
      else if IdOf(RequestFor(range)) != e.id then Err(BadId)
      else Ok(Some(Anchor(m[e.start], m[e.end], e.target)))
  }

  function LocateAll(es: seq<Entry>, rs: seq<Record>): (r: Result<seq<Anchor>, PlanError>)
    ensures r.Ok? ==> forall i :: 0 <= i < |r.value| ==> r.value[i].start <= r.value[i].end < |rs|
  {
    if es == [] then Ok([])
    else
      var before := LocateAll(es[..|es| - 1], rs);
      if before.Err? then before
      else
        var last := Locate(es[|es| - 1], rs);
        match last
        case Err(e) => Err(e)
        case Ok(None) => before
        case Ok(Some(a)) => Ok(before.value + [a])
  }

  predicate NotAfter(a: Anchor, b: Anchor) {
    a.start < b.start || (a.start == b.start && a.end <= b.end)
  }

  predicate SortedAnchors(s: seq<Anchor>) {
    forall i, k :: 0 <= i < k < |s| ==> NotAfter(s[i], s[k])
  }

  function InsertAnchor(s: seq<Anchor>, a: Anchor): (r: seq<Anchor>)
    requires SortedAnchors(s)
    ensures SortedAnchors(r) && |r| == |s| + 1
    ensures forall i :: 0 <= i < |r| ==> r[i] == a || r[i] in s
  {
    if s == [] then [a]
    else if NotAfter(s[|s| - 1], a) then s + [a]
    else InsertAnchor(s[..|s| - 1], a) + [s[|s| - 1]]
  }

  /** Sorted by start, then by end; equal ranges stay in order. */
  function SortAnchors(s: seq<Anchor>): (r: seq<Anchor>)
    ensures SortedAnchors(r) && |r| == |s|
    ensures forall i :: 0 <= i < |r| ==> r[i] in s
  {
    if s == [] then [] else InsertAnchor(SortAnchors(s[..|s| - 1]), s[|s| - 1])
  }

  lemma {:induction false} InsertIsPermutation(s: seq<Anchor>, a: Anchor)
    requires SortedAnchors(s)
    ensures multiset(InsertAnchor(s, a)) == multiset(s) + multiset{a}
  {
    if s != [] && !NotAfter(s[|s| - 1], a) {
      InsertIsPermutation(s[..|s| - 1], a);
      assert s == s[..|s| - 1] + [s[|s| - 1]];
    }
  }

  /** Sorting loses no anchor and adds none. */
  lemma {:induction false} SortIsPermutation(s: seq<Anchor>)
    ensures multiset(SortAnchors(s)) == multiset(s)
  {
    if s != [] {
      hide *;
      SortIsPermutation(s[..|s| - 1]);
      SortsLast(s);
      LastOfMultiset(s);
    }
  }

  lemma SortsLast(s: seq<Anchor>)
    requires s != []
    ensures multiset(SortAnchors(s)) == multiset(SortAnchors(s[..|s| - 1])) + multiset{s[|s| - 1]}
  {
    InsertIsPermutation(SortAnchors(s[..|s| - 1]), s[|s| - 1]);
    hide InsertAnchor;
  }

  lemma LastOfMultiset(s: seq<Anchor>)
    requires s != []
    ensures multiset(s) == multiset(s[..|s| - 1]) + multiset{s[|s| - 1]}
  {
    assert s == s[..|s| - 1] + [s[|s| - 1]];
  }

  /** Keep one anchor for each start, a target before a boundary. */
  function KeepAnchor(kept: seq<Anchor>, a: Anchor): Result<seq<Anchor>, PlanError> {
    if kept == [] then Ok([a])
    else
      var previous := kept[|kept| - 1];
      if a.start == previous.start then
        if a.target != previous.target then Ok(if a.target then kept[|kept| - 1 := a] else kept)
        else if a.end != previous.end then Err(StartConflict)
        else Ok(kept)
      else if a.start <= previous.end then Err(Overlap)
      else Ok(kept + [a])
  }

  function KeepAll(s: seq<Anchor>): Result<seq<Anchor>, PlanError> {
    if s == [] then Ok([])
    else
      var before := KeepAll(s[..|s| - 1]);
      if before.Err? then before else KeepAnchor(before.value, s[|s| - 1])
  }

  function AnchorsFor(es: seq<Entry>, rs: seq<Record>): Result<seq<Anchor>, PlanError> {
    var located := LocateAll(es, rs);
    if located.Err? then located else KeepAll(SortAnchors(located.value))
  }

  /** Kept anchors are ordered and disjoint, whatever the manifest says. */
  predicate OrderedDisjoint(s: seq<Anchor>) {
    && (forall i :: 0 <= i < |s| ==> s[i].start <= s[i].end)
    && (forall i, k :: 0 <= i < k < |s| ==> s[i].end < s[k].start)
  }

  lemma KeepOneDisjoint(kept: seq<Anchor>, a: Anchor)
    requires OrderedDisjoint(kept) && a.start <= a.end && (kept != [] ==> NotAfter(kept[|kept| - 1], a))
    requires KeepAnchor(kept, a).Ok?
    ensures var r := KeepAnchor(kept, a).value;
      && OrderedDisjoint(r) && r != [] && NotAfter(r[|r| - 1], a)
      && forall x :: x in r ==> x in kept || x == a
  {
  }

  lemma {:induction false} KeptAreDisjoint(s: seq<Anchor>)
    requires SortedAnchors(s) && forall i :: 0 <= i < |s| ==> s[i].start <= s[i].end
    ensures KeepAll(s).Ok? ==>
      var kept := KeepAll(s).value;
      && OrderedDisjoint(kept)
      && (forall a :: a in kept ==> a in s)
      && (s == [] <==> kept == [])
      && (s != [] ==> NotAfter(kept[|kept| - 1], s[|s| - 1]))
  {
    if s != [] {
      var init, last := s[..|s| - 1], s[|s| - 1];
      KeptAreDisjoint(init);
      if KeepAll(s).Ok? {
        var before := KeepAll(init).value;
        hide KeepAnchor, OrderedDisjoint;
        if init != [] {
          assert init[|init| - 1] == s[|s| - 2] && NotAfter(s[|s| - 2], last);
        }
        KeepOneDisjoint(before, last);
        assert s == init + [last];
      }
    }
  }

  lemma {:induction false} DisjointIsAnchorsFrom(s: seq<Anchor>, cursor: nat)
    requires OrderedDisjoint(s) && (s != [] ==> cursor <= s[0].start)
    ensures AnchorsFrom(s, cursor)
    decreases |s|
  {
    if s != [] {
      assert |s| > 1 ==> s[1..][0] == s[1];
      DisjointIsAnchorsFrom(s[1..], s[0].end + 1);
    }
  }

  lemma AnchorsForAreOrdered(es: seq<Entry>, rs: seq<Record>)
    ensures AnchorsFor(es, rs).Ok? ==>
      var anchors := AnchorsFor(es, rs).value;
      && OrderedDisjoint(anchors)
      && AnchorsFrom(anchors, 0)
      && forall i :: 0 <= i < |anchors| ==> anchors[i].end < |rs|
  {
    var located := LocateAll(es, rs);
    if located.Ok? {
      var sorted := SortAnchors(located.value);
      forall i | 0 <= i < |sorted| ensures sorted[i].start <= sorted[i].end < |rs| {
        assert sorted[i] in located.value;
      }
      KeptAreDisjoint(sorted);
      if KeepAll(sorted).Ok? {
        var kept := KeepAll(sorted).value;
        DisjointIsAnchorsFrom(kept, 0);
        forall i | 0 <= i < |kept| ensures kept[i].end < |rs| { assert kept[i] in sorted; }
      }
    }
  }

  // ----- the plan -----

  function Slices(rs: seq<Record>, anchors: seq<Anchor>, soft: nat, allowOpen: bool): seq<Slice>
    requires AnchorsFrom(anchors, 0)
  {
    SlicesFrom(CompletePrefix(rs), |rs| - |CompletePrefix(rs)|, anchors, 0, soft, allowOpen)
  }

  predicate AllFit(slices: seq<Slice>) {
    forall i :: 0 <= i < |slices| ==> Fits(slices[i].records)
  }

  function PlannedAll(slices: seq<Slice>): (r: seq<Planned>)
    requires AllFit(slices)
    ensures |r| == |slices|
    ensures forall i :: 0 <= i < |r| ==> r[i] == PlannedFor(slices[i].records, slices[i].closed)
  {
    seq(|slices|, i requires 0 <= i < |slices| => PlannedFor(slices[i].records, slices[i].closed))
  }

  function Plan(rs: seq<Record>, es: seq<Entry>, soft: nat, allowOpen: bool): Result<seq<Planned>, PlanError> {
    if soft == 0 then Err(BadLimit)
    else if !ValidRecords(rs) then Err(BadRecords)
    else
      var anchors := AnchorsFor(es, rs);
      if anchors.Err? then Err(anchors.error)
      else
        AnchorsForAreOrdered(es, rs);
        var slices := Slices(rs, anchors.value, soft, allowOpen);
        if AllFit(slices) then Ok(PlannedAll(slices)) else Err(TooLarge)
  }

  // ----- hydration -----

  datatype HydrateError = UnknownBoundary | OutOfOrder | Incomplete | InvalidRecords | ChangedHistory

  predicate AllComplete(rs: seq<Record>) {
    forall i :: 0 <= i < |rs| ==> rs[i].complete
  }

  function Hydrate(rs: seq<Record>, start: string, end: string): Result<seq<Message>, HydrateError> {
    if !ValidRecords(rs) then Err(InvalidRecords)
    else
      var m := Positions(rs);
      if start !in m || end !in m then Err(UnknownBoundary)
      else if m[end] < m[start] then Err(OutOfOrder)
      else
        var range := rs[m[start]..m[end] + 1];
        if AllComplete(range) then Ok(Sources(range)) else Err(Incomplete)
  }

  /** A request is valid while the transcript still hydrates to its messages
      (equal source fingerprints are equal messages). */
  function Validate(rs: seq<Record>, r: Request): Result<(), HydrateError> {
    var h := Hydrate(rs, r.start, r.end);
    if h.Err? then Err(h.error)
    else if h.value != r.messages then Err(ChangedHistory)
    else Ok(())
  }
}
