/** What a manifest obliges a plan to: which entries are located, which anchors win,
    and that the winning ranges are planned exactly. */
module SegmentTargets {
  import opened Wrappers
  import opened SegmentPlan
  import opened SegmentTheorems
  import opened SegmentReplan

  // ----- locating -----

  /** An entry names messages i and j of the transcript. */
  predicate Names(e: Entry, rs: seq<Record>, i: nat, j: nat) {
    i < |rs| && j < |rs| && rs[i].source.id == e.start && rs[j].source.id == e.end
  }

  /** Why an entry whose ends are both there is refused. */
  function Refusal(e: Entry, rs: seq<Record>, i: nat, j: nat): Option<PlanError>
    requires i < |rs| && j < |rs|
  {
    if j < i then Some(Reversed)
    else if !Fits(rs[i..j + 1]) then Some(TooLarge)
    else if e.id != SegmentId(e.start) then Some(BadId)
    else None
  }

  /** An entry is dropped exactly if one of its ends is lost, and refused exactly if its
      ends are reversed, its range is too large or its ID is not that of its start. */
  lemma LocateDecides(e: Entry, rs: seq<Record>)
    requires ValidRecords(rs)
    ensures Locate(e, rs) == Ok(None) <==> forall i: nat, j: nat :: !Names(e, rs, i, j)
    ensures forall i: nat, j: nat :: Names(e, rs, i, j) ==>
      Locate(e, rs) == if Refusal(e, rs, i, j).Some? then Err(Refusal(e, rs, i, j).value) else Ok(Some(Anchor(i, j, e.target)))
  {
    hide Fits, Positions;
    var m := Positions(rs);
    forall i: nat, j: nat | Names(e, rs, i, j)
      ensures Locate(e, rs) == if Refusal(e, rs, i, j).Some? then Err(Refusal(e, rs, i, j).value) else Ok(Some(Anchor(i, j, e.target)))
    {
      PositionIs(rs, i);
      PositionIs(rs, j);
    }
    if e.start in m && e.end in m { assert Names(e, rs, m[e.start], m[e.end]); }
  }

  /** All entries are accepted, and what is located is what they locate. */
  lemma {:induction false} LocatedFromEntries(es: seq<Entry>, rs: seq<Record>)
    requires LocateAll(es, rs).Ok?
    ensures forall e :: e in es ==> Locate(e, rs).Ok?
    ensures forall e :: e in es && Locate(e, rs).value.Some? ==> Locate(e, rs).value.value in LocateAll(es, rs).value
    ensures forall a :: a in LocateAll(es, rs).value ==> exists e :: e in es && Locate(e, rs) == Ok(Some(a))
  {
    hide Locate;
    if es != [] {
      var init, last := es[..|es| - 1], es[|es| - 1];
      LocatedFromEntries(init, rs);
      assert es == init + [last];
      forall a | a in LocateAll(es, rs).value ensures exists e :: e in es && Locate(e, rs) == Ok(Some(a)) {
        if a in LocateAll(init, rs).value {
          var e :| e in init && Locate(e, rs) == Ok(Some(a));
          assert e in es;
        } else {
          assert last in es;
        }
      }
    }
  }

  // ----- which anchor wins -----

  /** The anchor kept for a start: one of that start, and the target if there is one. */
  predicate KeptFor(kept: seq<Anchor>, a: Anchor) {
    exists k :: 0 <= k < |kept| && kept[k].start == a.start && (a.target ==> kept[k] == a)
  }

  predicate AllKept(kept: seq<Anchor>, s: seq<Anchor>) {
    forall a :: a in s ==> KeptFor(kept, a)
  }

  lemma KeptStays(kept: seq<Anchor>, a: Anchor, x: Anchor)
    requires KeptFor(kept, x) && KeepAnchor(kept, a).Ok? && OrderedDisjoint(kept)
    ensures KeptFor(KeepAnchor(kept, a).value, x)
  {
    var k :| 0 <= k < |kept| && kept[k].start == x.start && (x.target ==> kept[k] == x);
    var after := KeepAnchor(kept, a).value;
    assert after[k].start == x.start && (x.target ==> after[k] == x);
  }

  lemma NewIsKept(kept: seq<Anchor>, a: Anchor)
    requires KeepAnchor(kept, a).Ok?
    ensures KeptFor(KeepAnchor(kept, a).value, a)
  {
    var after := KeepAnchor(kept, a).value;
    assert after[|after| - 1].start == a.start && (a.target ==> after[|after| - 1] == a);
  }

  lemma {:induction false} KeepAllKeeps(s: seq<Anchor>)
    requires SortedAnchors(s) && forall i :: 0 <= i < |s| ==> s[i].start <= s[i].end
    requires KeepAll(s).Ok?
    ensures AllKept(KeepAll(s).value, s)
  {
    if s != [] {
      var init, last := s[..|s| - 1], s[|s| - 1];
      KeepAllKeeps(init);
      KeptAreDisjoint(init);
      hide KeepAnchor, KeptFor;
      NewIsKept(KeepAll(init).value, last);
      assert s == init + [last];
      forall x | x in init ensures KeptFor(KeepAll(s).value, x) { KeptStays(KeepAll(init).value, last, x); }
    }
  }

  /** Resolving the anchors: every located start has exactly one anchor, which is of
      that start, and a target beats a boundary. */
  lemma TargetsWin(es: seq<Entry>, rs: seq<Record>, e: Entry)
    requires AnchorsFor(es, rs).Ok? && e in es && Locate(e, rs).Ok? && Locate(e, rs).value.Some?
    ensures var kept, a := AnchorsFor(es, rs).value, Locate(e, rs).value.value;
      && (exists k :: 0 <= k < |kept| && kept[k].start == a.start && (e.target ==> kept[k] == a))
      && forall i, k :: 0 <= i < |kept| && 0 <= k < |kept| && kept[i].start == kept[k].start ==> i == k
  {
    var located, a := LocateAll(es, rs).value, Locate(e, rs).value.value;
    LocatedFromEntries(es, rs);
    var sorted := SortAnchors(located);
    SortIsPermutation(located);
    assert multiset(sorted)[a] == multiset(located)[a] > 0;
    assert a in sorted;
    forall i | 0 <= i < |sorted| ensures sorted[i].start <= sorted[i].end { assert sorted[i] in located; }
    KeepAllKeeps(sorted);
    AnchorsForAreOrdered(es, rs);
    LocateKeepsKind(e, rs);
    hide LocateAll, Locate, SortAnchors, KeepAll;
    assert KeptFor(AnchorsFor(es, rs).value, a);
    StartsAreUnique(AnchorsFor(es, rs).value);
  }

  lemma StartsAreUnique(kept: seq<Anchor>)
    requires OrderedDisjoint(kept)
    ensures forall i, k :: 0 <= i < |kept| && 0 <= k < |kept| && kept[i].start == kept[k].start ==> i == k
  {
  }

  lemma LocateKeepsKind(e: Entry, rs: seq<Record>)
    ensures Locate(e, rs).Ok? && Locate(e, rs).value.Some? ==> Locate(e, rs).value.value.target == e.target
  {
  }

  /** A kept anchor is what some entry of the manifest locates, and a kept boundary
      means that no target starts there. */
  lemma KeptComeFromEntries(es: seq<Entry>, rs: seq<Record>, k: nat)
    requires AnchorsFor(es, rs).Ok? && k < |AnchorsFor(es, rs).value|
    ensures var a := AnchorsFor(es, rs).value[k];
      && (exists e :: e in es && Locate(e, rs) == Ok(Some(a)))
      && (!a.target ==> forall e :: e in es && e.target && Locate(e, rs).Ok? && Locate(e, rs).value.Some? ==>
            Locate(e, rs).value.value.start != a.start)
  {
    var kept := AnchorsFor(es, rs).value;
    var a := kept[k];
    var located := LocateAll(es, rs).value;
    var sorted := SortAnchors(located);
    LocatedFromEntries(es, rs);
    forall i | 0 <= i < |sorted| ensures sorted[i].start <= sorted[i].end { assert sorted[i] in located; }
    KeptAreDisjoint(sorted);
    assert a in sorted && a in located;
    hide LocateAll, Locate, SortAnchors, KeepAll;
    forall e | e in es && e.target && Locate(e, rs).Ok? && Locate(e, rs).value.Some? && !a.target
      ensures Locate(e, rs).value.value.start != a.start
    {
      TargetsWin(es, rs, e);
      LocateKeepsKind(e, rs);
    }
  }

  // ----- the ranges of anchors are planned -----

  lemma {:induction false} AnchorsLieBehind(anchors: seq<Anchor>, base: nat)
    requires AnchorsFrom(anchors, base)
    ensures forall i :: 0 <= i < |anchors| ==> base <= anchors[i].start <= anchors[i].end
    decreases |anchors|
  {
    if anchors != [] {
      AnchorsLieBehind(anchors[1..], anchors[0].end + 1);
      assert forall i :: 0 < i < |anchors| ==> anchors[i] == anchors[1..][i - 1];
    }
  }

  function RangeOf(rest: seq<Record>, a: Anchor, base: nat): seq<Record>
    requires base <= a.start <= a.end < base + |rest|
  {
    rest[a.start - base..a.end + 1 - base]
  }

  lemma Cut<T>(s: seq<T>, i: nat, n: nat)
    requires i + n <= |s|
    ensures s[i..][..n] == s[i..i + n] && s[i..][n..] == s[i + n..]
  {
  }

  lemma InMiddle<T>(x: T, a: seq<T>, b: seq<T>, c: seq<T>)
    ensures x in b || x in c ==> x in a + (b + c)
  {
  }

  /** The slice of the range of anchor k. */
  function SliceOf(rest: seq<Record>, behind: nat, a: Anchor, base: nat, soft: nat): Slice
    requires base <= a.start <= a.end < base + |rest|
  {
    Slice(RangeOf(rest, a, base), AnchorClosed(RangeOf(rest, a, base), base + |rest| - a.end - 1 + behind, soft))
  }

  lemma SliceLater(rest: seq<Record>, behind: nat, a: Anchor, base: nat, later: nat, soft: nat)
    requires base <= later <= a.start <= a.end < base + |rest|
    ensures SliceOf(rest[later - base..], behind, a, later, soft) == SliceOf(rest, behind, a, base, soft)
  {
    assert RangeOf(rest[later - base..], a, later) == RangeOf(rest, a, base);
    hide AnchorClosed;
  }

  lemma FirstIsSliced(rest: seq<Record>, behind: nat, anchors: seq<Anchor>, base: nat, soft: nat, allowOpen: bool)
    requires AnchorsFrom(anchors, base) && anchors != [] && base <= anchors[0].start <= anchors[0].end < base + |rest|
    requires SliceOf(rest, behind, anchors[0], base, soft).closed || allowOpen
    ensures SliceOf(rest, behind, anchors[0], base, soft) in SlicesFrom(rest, behind, anchors, base, soft, allowOpen)
  {
    hide *;
    HereIsSliced(rest, behind, anchors[0], base, soft, allowOpen);
    AnchorsUnfold(anchors, base);
    PartIsSliced(rest, behind, anchors, base, soft, allowOpen, SliceOf(rest, behind, anchors[0], base, soft));
  }

  /** The slices of an anchored range. */
  function Here(rest: seq<Record>, behind: nat, a: Anchor, base: nat, soft: nat, allowOpen: bool): seq<Slice>
    requires base <= a.start <= a.end < base + |rest|
  {
    AnchorSlices(RangeOf(rest, a, base), base + |rest| - a.end - 1 + behind, soft, allowOpen)
  }

  lemma HereIsSliced(rest: seq<Record>, behind: nat, a: Anchor, base: nat, soft: nat, allowOpen: bool)
    requires base <= a.start <= a.end < base + |rest| && (SliceOf(rest, behind, a, base, soft).closed || allowOpen)
    ensures SliceOf(rest, behind, a, base, soft) in Here(rest, behind, a, base, soft, allowOpen)
  {
    hide AnchorClosed;
  }

  /** What is in the first anchored range or behind it is in the plan. */
  lemma PartIsSliced(rest: seq<Record>, behind: nat, anchors: seq<Anchor>, base: nat, soft: nat, allowOpen: bool, x: Slice)
    requires AnchorsFrom(anchors, base) && anchors != [] && base <= anchors[0].start <= anchors[0].end < base + |rest|
    requires AnchorsFrom(anchors[1..], anchors[0].end + 1)
    requires x in Here(rest, behind, anchors[0], base, soft, allowOpen)
          || x in SlicesFrom(rest[anchors[0].end + 1 - base..], behind, anchors[1..], anchors[0].end + 1, soft, allowOpen)
    ensures x in SlicesFrom(rest, behind, anchors, base, soft, allowOpen)
  {
    hide *;
    PartsOfSlices(rest, behind, anchors, base, soft, allowOpen);
    InMiddle(x, GapSlices(rest[..anchors[0].start - base], soft), Here(rest, behind, anchors[0], base, soft, allowOpen),
             SlicesFrom(rest[anchors[0].end + 1 - base..], behind, anchors[1..], anchors[0].end + 1, soft, allowOpen));
  }

  lemma PartsOfSlices(rest: seq<Record>, behind: nat, anchors: seq<Anchor>, base: nat, soft: nat, allowOpen: bool)
    requires AnchorsFrom(anchors, base) && anchors != [] && base <= anchors[0].start <= anchors[0].end < base + |rest|
    requires AnchorsFrom(anchors[1..], anchors[0].end + 1)
    ensures SlicesFrom(rest, behind, anchors, base, soft, allowOpen)
         == GapSlices(rest[..anchors[0].start - base], soft)
            + (Here(rest, behind, anchors[0], base, soft, allowOpen)
               + SlicesFrom(rest[anchors[0].end + 1 - base..], behind, anchors[1..], anchors[0].end + 1, soft, allowOpen))
  {
    hide SlicesFrom, GapSlices, AnchorsFrom, AnchorSlices;
    var a := anchors[0];
    Cut(rest, a.start - base, a.end + 1 - a.start);
    OneAnchor(rest, behind, anchors, base, soft, allowOpen);
  }

  lemma {:induction false} AnchorIsSliced(
    rest: seq<Record>, behind: nat, anchors: seq<Anchor>, base: nat, soft: nat, allowOpen: bool, k: nat)
    requires AnchorsFrom(anchors, base) && k < |anchors| && base <= anchors[k].start <= anchors[k].end < base + |rest|
    requires SliceOf(rest, behind, anchors[k], base, soft).closed || allowOpen
    ensures SliceOf(rest, behind, anchors[k], base, soft) in SlicesFrom(rest, behind, anchors, base, soft, allowOpen)
    decreases |anchors|
  {
    hide *;
    AnchorsLieBehind(anchors, base);
    AnchorsUnfold(anchors, base);
    if k == 0 {
      FirstIsSliced(rest, behind, anchors, base, soft, allowOpen);
    } else {
      var later := anchors[0].end + 1;
      AnchorsLieBehind(anchors[1..], later);
      assert anchors[1..][k - 1] == anchors[k];
      SliceLater(rest, behind, anchors[k], base, later, soft);
      AnchorIsSliced(rest[later - base..], behind, anchors[1..], later, soft, allowOpen, k - 1);
      PartIsSliced(rest, behind, anchors, base, soft, allowOpen, SliceOf(rest, behind, anchors[k], base, soft));
    }
  }

  lemma PlanIsSlices(rs: seq<Record>, es: seq<Entry>, soft: nat, allowOpen: bool)
    requires Plan(rs, es, soft, allowOpen).Ok?
    ensures AnchorsFor(es, rs).Ok? && AnchorsFrom(AnchorsFor(es, rs).value, 0)
    ensures var slices := Slices(rs, AnchorsFor(es, rs).value, soft, allowOpen);
      AllFit(slices) && Plan(rs, es, soft, allowOpen) == Ok(PlannedAll(slices))
    ensures ValidRecords(rs)
  {
    AnchorsForAreOrdered(es, rs);
    hide AnchorsFor, Slices, ValidRecords, AnchorsFrom;
  }

  lemma SliceIsPlanned(slices: seq<Slice>, x: Slice)
    requires AllFit(slices) && x in slices && x.records != []
    ensures PlannedFor(x.records, x.closed) in PlannedAll(slices)
  {
    var i :| 0 <= i < |slices| && slices[i] == x;
    assert PlannedAll(slices)[i] == PlannedFor(x.records, x.closed);
  }

  /** Whether a range of the transcript is closed: a record follows it, or its weight
      has reached the limit. */
  predicate RangeClosed(rs: seq<Record>, i: nat, j: nat, soft: nat)
    requires i <= j < |rs|
  {
    j + 1 < |rs| || Weight(rs[i..j + 1]) >= soft
  }

  lemma SliceIsRange(rs: seq<Record>, a: Anchor, soft: nat)
    requires a.start <= a.end < |CompletePrefix(rs)|
    ensures SliceOf(CompletePrefix(rs), |rs| - |CompletePrefix(rs)|, a, 0, soft)
         == Slice(rs[a.start..a.end + 1], RangeClosed(rs, a.start, a.end, soft))
  {
    hide CompletePrefix, Weight;
    assert RangeOf(CompletePrefix(rs), a, 0) == rs[a.start..a.end + 1];
  }

  /** The range of a kept anchor within the complete records is planned exactly, unless
      it is open and no open snapshot is wanted. */
  lemma AnchorIsPlanned(rs: seq<Record>, es: seq<Entry>, soft: nat, allowOpen: bool, k: nat)
    requires Plan(rs, es, soft, allowOpen).Ok? && AnchorsFor(es, rs).Ok? && k < |AnchorsFor(es, rs).value|
    requires AnchorsFor(es, rs).value[k].start <= AnchorsFor(es, rs).value[k].end < |CompletePrefix(rs)|
    ensures var ps, a := Plan(rs, es, soft, allowOpen).value, AnchorsFor(es, rs).value[k];
      var closed := RangeClosed(rs, a.start, a.end, soft);
      closed || allowOpen ==> PlannedFor(rs[a.start..a.end + 1], closed) in ps
  {
    hide *;
    PlanIsSlices(rs, es, soft, allowOpen);
    var anchors, prefix := AnchorsFor(es, rs).value, CompletePrefix(rs);
    var a := anchors[k];
    var closed := RangeClosed(rs, a.start, a.end, soft);
    SliceIsRange(rs, a, soft);
    if closed || allowOpen {
      AnchorIsSliced(prefix, |rs| - |prefix|, anchors, 0, soft, allowOpen, k);
      SlicesAre(rs, anchors, soft, allowOpen);
      SliceIsPlanned(Slices(rs, anchors, soft, allowOpen), Slice(rs[a.start..a.end + 1], closed));
    }
  }

  lemma SlicesAre(rs: seq<Record>, anchors: seq<Anchor>, soft: nat, allowOpen: bool)
    requires AnchorsFrom(anchors, 0)
    ensures Slices(rs, anchors, soft, allowOpen)
         == SlicesFrom(CompletePrefix(rs), |rs| - |CompletePrefix(rs)|, anchors, 0, soft, allowOpen)
  {
  }

  /** So an outstanding target within the complete records is planned again exactly as
      it stands, whatever boundaries the manifest holds beside it. */
  lemma TargetIsPlanned(rs: seq<Record>, es: seq<Entry>, soft: nat, allowOpen: bool, e: Entry, i: nat, j: nat)
    requires Plan(rs, es, soft, allowOpen).Ok? && e in es && e.target && Names(e, rs, i, j) && j < |CompletePrefix(rs)|
    ensures i <= j < |rs|
    ensures var closed := RangeClosed(rs, i, j, soft);
      closed || allowOpen ==> PlannedFor(rs[i..j + 1], closed) in Plan(rs, es, soft, allowOpen).value
  {
    hide *;
    PlanIsSlices(rs, es, soft, allowOpen);
    LocatedIsThere(rs, es, e, i, j);
    TargetsWin(es, rs, e);
    var kept := AnchorsFor(es, rs).value;
    var k :| 0 <= k < |kept| && kept[k].start == i && (e.target ==> kept[k] == Anchor(i, j, true));
    AnchorIsPlanned(rs, es, soft, allowOpen, k);
  }

  lemma LocatedIsThere(rs: seq<Record>, es: seq<Entry>, e: Entry, i: nat, j: nat)
    requires ValidRecords(rs) && AnchorsFor(es, rs).Ok? && e in es && Names(e, rs, i, j)
    ensures i <= j < |rs| && Locate(e, rs) == Ok(Some(Anchor(i, j, e.target)))
  {
    hide Locate, ValidRecords, KeepAll;
    LocatedFromEntries(es, rs);
    LocateDecides(e, rs);
  }
}
