/** Which request is sent: when the stored cut is kept, when everything is sent, which
    cut is fired, where a cut starts, and how much a trimmed tail drops. */
module CursorChoice {
  import opened Wrappers
  import opened CursorModel
  import opened CursorTheorems

  // ----- which summaries there are -----

  /** The summary lies in the transcript from position i to position j. */
  predicate LiesAt(ms: seq<Message>, s: Summary, i: nat, j: nat) {
    var p := Positions(ms);
    s.start in p && s.end in p && p[s.start] == i && p[s.end] == j && i <= j
  }

  lemma {:induction false} InsertedAre(s: seq<Located>, a: Located, x: Located)
    requires SortedLocated(s)
    ensures x in InsertLocated(s, a) <==> x in s || x == a
  {
    if s != [] && !NotAfter(s[|s| - 1], a) {
      InsertedAre(s[..|s| - 1], a, x);
      assert s == s[..|s| - 1] + [s[|s| - 1]];
    }
  }

  /** Exactly the summaries with both ends in the transcript, in order, are located, and
      where they lie. */
  lemma {:induction false} LocatedAre(ms: seq<Message>, ss: seq<Summary>, x: Located)
    ensures x in LocateAll(ms, ss) <==> x.summary in ss && LiesAt(ms, x.summary, x.start, x.end)
  {
    if ss != [] {
      var init, last := ss[..|ss| - 1], ss[|ss| - 1];
      LocatedAre(ms, init, x);
      assert ss == init + [last];
      if Locate(ms, last).Some? { InsertedAre(LocateAll(ms, init), Locate(ms, last).value, x); }
      hide Positions, InsertLocated;
    }
  }

  /** Of these, exactly the ones that end by the cut are included. */
  lemma {:induction false} IncludedAre(located: seq<Located>, through: nat, x: Located)
    requires SortedLocated(located)
    ensures multiset(UpTo(located, through))[x] == if x.end <= through then multiset(located)[x] else 0
  {
    if located != [] {
      IncludedAre(located[..|located| - 1], through, x);
      assert located == located[..|located| - 1] + [located[|located| - 1]];
    }
  }

  // ----- where a cut starts -----

  /** Messages between i and k all belong to the record before them. */
  predicate ToolsBetween(ms: seq<Message>, i: nat, k: nat) {
    k <= |ms| && forall j :: i <= j < k ==> ms[j].id.None? && ms[j].role == Tool
  }

  /** The last safe start up to i, or the beginning. */
  predicate LastSafe(safe: seq<bool>, i: nat, r: nat) {
    r <= i < |safe| && (r == 0 || safe[r]) && forall k :: r < k <= i ==> !safe[k]
  }

  lemma {:induction false} AfterToolsIs(ms: seq<Message>, i: nat)
    requires i <= |ms|
    ensures var r := AfterTools(ms, i);
      ToolsBetween(ms, i, r) && (r < |ms| ==> ms[r].id.Some? || ms[r].role != Tool)
    decreases |ms| - i
  {
    if i < |ms| && ms[i].id.None? && ms[i].role == Tool { AfterToolsIs(ms, i + 1); }
  }

  /** A cut through a message starts behind its tool messages if that is safe and
      something is left, and otherwise at the last safe start up to the next message;
      there is no cut exactly if the message is unknown or that is the beginning. */
  lemma CutStarts(ms: seq<Message>, safe: seq<bool>, id: string) returns (behind: nat, back: nat)
    requires |safe| == |ms| + 1
    ensures id !in Positions(ms) ==> CutThrough(ms, safe, id) == None
    ensures id in Positions(ms) ==>
      var p := Positions(ms)[id];
      && p < behind <= |ms| && ToolsBetween(ms, p + 1, behind)
      && (behind < |ms| ==> ms[behind].id.Some? || ms[behind].role != Tool)
      && LastSafe(safe, p + 1, back)
      && var start := if behind < |ms| && safe[behind] then behind else back;
         CutThrough(ms, safe, id) == if start > 0 then Some(Cut(id, p, start, None)) else None
  {
    behind, back := 0, 0;
    if id in Positions(ms) {
      var p := Positions(ms)[id];
      behind, back := AfterTools(ms, p + 1), BackToSafe(safe, p + 1);
      AfterToolsIs(ms, p + 1);
      hide Positions;
    }
  }

  /** A user message is copied exactly if it is archived: the latest one for a fresh
      cut, the recorded one for a kept cut. */
  lemma AnchorIffArchived(ms: seq<Message>, cut: Cut, recorded: string)
    requires cut.anchor.None?
    ensures forall u :: WithAnchor(ms, cut, Unknown).anchor == Some(u) <==> LatestUser(ms) == Some(u) && u < cut.start
    ensures forall u :: WithAnchor(ms, cut, At(recorded)).anchor == Some(u) <==>
              recorded in Positions(ms) && Positions(ms)[recorded] == u && u < cut.start
    ensures WithAnchor(ms, cut, NoAnchor) == cut
  {
    hide Positions, LatestUser;
  }

  // ----- the request of a cut -----

  /** A notice stands in front exactly if something is archived or dropped. It counts the
      messages between cut and tail, and copies the cut's user message, or the latest
      one if that lies before the tail. */
  lemma NoticeIs(input: Input, cut: Option<Cut>, start: nat, bounded: bool)
    requires start <= |input.messages| && (cut.Some? ==> cut.value.start <= start)
    ensures var r := CandidateFor(input, cut, start, bounded).request;
      && r.start == start
      && (r.head.None? <==> cut.None? && start == 0)
      && (r.head.Some? ==>
            && r.head.value.dropped == start - (if cut.Some? then cut.value.start else 0)
            && (cut.Some? && cut.value.anchor.Some? ==> r.head.value.anchor == cut.value.anchor)
            && (cut.None? || cut.value.anchor.None? ==>
                  forall u :: r.head.value.anchor == Some(u) <==> LatestUser(input.messages) == Some(u) && u < start))
  {
    hide LatestUser, Archive, Suffix;
  }

  /** An exact measurement counts before a bound, a bound only where it was asked for,
      and the estimate only without both. */
  lemma SizeIs(input: Input, cut: Option<Cut>, start: nat, bounded: bool)
    requires start <= |input.messages| && (cut.Some? ==> cut.value.start <= start)
    ensures var c := CandidateFor(input, cut, start, bounded);
      && (input.measure(c.request).Some? ==> c.source == Provider && Some(c.estimated) == input.measure(c.request))
      && (input.measure(c.request).None? && bounded && input.bound(c.request).Some? ==>
            c.source == ProviderBound && Some(c.estimated) == input.bound(c.request))
      && (input.measure(c.request).None? && !(bounded && input.bound(c.request).Some?) ==> c.source == Heuristic)
  {
    hide Suffix, NoticeFor;
  }

  // ----- trimming -----

  /** The estimate of a candidate whose tail starts at k instead. */
  function EstimateAt(input: Input, c: Candidate, k: nat): int
    requires c.request.start <= |input.messages| && k <= |input.messages|
  {
    c.estimated - Suffix(input.messages, c.request.start) + Suffix(input.messages, k)
  }

  /** A tail may start at k: no call is lost, a message is left, and it fits. */
  predicate FitsAt(input: Input, safe: seq<bool>, c: Candidate, k: nat)
    requires |safe| == |input.messages| + 1 && c.request.start <= |input.messages|
  {
    c.request.start <= k < |input.messages| && safe[k] && EstimateAt(input, c, k) + input.markerCost <= input.hard
  }

  lemma {:induction false} ForwardStops(input: Input, safe: seq<bool>, c: Candidate, k: nat)
    requires |safe| == |input.messages| + 1 && c.request.start <= k < |input.messages|
    requires forall j :: c.request.start <= j < k ==> !FitsAt(input, safe, c, j)
    ensures var r := TrimForward(input, safe, k, EstimateAt(input, c, k)).0;
      && k <= r < |input.messages|
      && (forall j :: c.request.start <= j < r ==> !FitsAt(input, safe, c, j))
      && (FitsAt(input, safe, c, r) || r == |input.messages| - 1)
    decreases |input.messages| - k
  {
    if k + 1 < |input.messages| && !FitsAt(input, safe, c, k) {
      assert Suffix(input.messages, k) == input.messages[k].cost + Suffix(input.messages, k + 1);
      ForwardStops(input, safe, c, k + 1);
    }
  }

  lemma {:induction false} BackStops(input: Input, safe: seq<bool>, floor: nat, start: nat, estimated: int)
    requires |safe| == |input.messages| + 1 && floor <= start <= |input.messages|
    ensures var r := TrimBack(input, safe, floor, start, estimated).0;
      floor <= r <= start && (r == floor || safe[r]) && forall k :: r < k <= start ==> !safe[k]
    decreases start
  {
    if start > floor && !safe[start] { BackStops(input, safe, floor, start - 1, estimated + input.messages[start - 1].cost); }
  }

  /** A request within the hard budget is sent as it is. Otherwise the tail starts at the
      first message at which it may; and if there is none, at the last safe one, so
      that as little as possible is sent without parting a call from its result. */
  lemma FitDropsLeast(input: Input, safe: seq<bool>, c: Candidate)
    requires |safe| == |input.messages| + 1 && c.request.start <= |input.messages|
    requires c.cut.Some? ==> c.cut.value.start <= c.request.start
    ensures c.estimated <= input.hard ==> Fit(input, safe, c) == c
    ensures c.estimated > input.hard && c.request.start < |input.messages| ==>
      var r := Fit(input, safe, c).request.start;
      && (forall k :: FitsAt(input, safe, c, k) ==> r <= k && FitsAt(input, safe, c, r))
      && ((forall k :: !FitsAt(input, safe, c, k)) ==>
            && c.request.start <= r < |input.messages| && (r == c.request.start || safe[r])
            && forall k :: r < k < |input.messages| ==> !safe[k])
  {
    if c.estimated > input.hard && c.request.start < |input.messages| {
      var start := c.request.start;
      ForwardStops(input, safe, c, start);
      assert EstimateAt(input, c, start) == c.estimated;
      var forward := TrimForward(input, safe, start, c.estimated);
      BackStops(input, safe, start, forward.0, forward.1);
      FitStart(input, safe, c);
      hide Fit, Suffix, TrimForward, TrimBack;
    }
  }

  lemma FitStart(input: Input, safe: seq<bool>, c: Candidate)
    requires |safe| == |input.messages| + 1 && c.request.start <= |input.messages| && c.estimated > input.hard
    requires c.cut.Some? ==> c.cut.value.start <= c.request.start
    ensures var forward := TrimForward(input, safe, c.request.start, c.estimated);
      Fit(input, safe, c).request.start == TrimBack(input, safe, c.request.start, forward.0, forward.1).0
  {
    hide TrimForward, TrimBack, NoticeFor, Suffix;
  }
}
