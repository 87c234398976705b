/** What a projected request promises: no result without its call, exact sizes,
    an honest archive, and the latest user input over a whole session. */
module CursorTheorems {
  import opened Wrappers
  import opened CursorModel

  // ----- the calls seen so far are the latest ones -----

  predicate CallAt(ms: seq<Message>, m: nat, p: nat, id: string) {
    m < |ms| && p < |ms[m].parts| && ms[m].parts[p] == ToolCall(id)
  }

  /** Message c holds the latest call of `id` before part p of message m. */
  ghost predicate LatestCall(ms: seq<Message>, m: nat, p: nat, id: string, c: nat) {
    && (exists q: nat :: CallAt(ms, c, q, id) && (c < m || (c == m && q < p)))
    && (forall d: nat, q: nat :: CallAt(ms, d, q, id) && (d < m || (d == m && q < p)) ==> d <= c)
  }

  lemma {:induction false} CallsAreLatest(ms: seq<Message>, m: nat, p: nat, id: string)
    requires m < |ms| && p <= |ms[m].parts|
    ensures id in CallsAt(ms, m, p) ==> LatestCall(ms, m, p, id, CallsAt(ms, m, p)[id])
    ensures id !in CallsAt(ms, m, p) ==>
              forall d: nat, q: nat :: CallAt(ms, d, q, id) ==> !(d < m || (d == m && q < p))
    decreases m, p
  {
    if p > 0 {
      CallsAreLatest(ms, m, p - 1, id);
      if ms[m].parts[p - 1] == ToolCall(id) {
        assert CallAt(ms, m, p - 1, id);
      } else if id in CallsAt(ms, m, p) {
        var c := CallsAt(ms, m, p)[id];
        var q: nat :| CallAt(ms, c, q, id) && (c < m || (c == m && q < p - 1));
        assert CallAt(ms, c, q, id) && (c < m || (c == m && q < p));
      }
    } else if m > 0 {
      var n := |ms[m - 1].parts|;
      CallsAreLatest(ms, m - 1, n, id);
      assert CallsAt(ms, m, 0) == CallsAt(ms, m - 1, n);
      if id in CallsAt(ms, m, 0) {
        var c := CallsAt(ms, m, 0)[id];
        var q: nat :| CallAt(ms, c, q, id) && (c < m - 1 || (c == m - 1 && q < n));
        assert CallAt(ms, c, q, id) && (c < m || (c == m && q < 0));
      }
    }
  }

  /** A matched call lies in an earlier message. */
  lemma MatchesPointBack(ms: seq<Message>, m: nat, p: nat, c: nat)
    requires MatchedAt(ms, m, p, c)
    ensures c < m && LatestCall(ms, m, p, ms[m].parts[p].id, c)
  {
    CallsAreLatest(ms, m, p, ms[m].parts[p].id);
  }

  lemma StartIsSafe(ms: seq<Message>)
    ensures SafeStart(ms, 0) && SafeStart(ms, |ms|)
  {
  }

  // ----- every tail starts at a safe message -----

  ghost function SafeStarts(ms: seq<Message>): (r: seq<bool>)
    ensures IsSafe(ms, r)
  {
    seq(|ms| + 1, i => i >= 0 && SafeStart(ms, i))
  }

  ghost function Select(input: Input): Outcome {
    SelectWith(input, SafeStarts(input.messages))
  }

  lemma FitIsSafe(input: Input, safe: seq<bool>, c: Candidate)
    requires IsSafe(input.messages, safe) && c.request.start <= |input.messages| && SafeStart(input.messages, c.request.start)
    requires c.cut.Some? ==> c.cut.value.start <= c.request.start
    ensures var r := Fit(input, safe, c).request.start;
      c.request.start <= r <= |input.messages| && SafeStart(input.messages, r)
  {
  }

  /** Whatever the mode, every result in the tail has its matched call in the tail. */
  lemma TailKeepsCalls(input: Input, m: nat, p: nat, c: nat)
    requires MatchedAt(input.messages, m, p, c)
    requires Select(input).candidate.request.start <= m
    ensures Select(input).candidate.request.start <= c
  {
    TailIsSafe(input);
    MatchesPointBack(input.messages, m, p, c);
  }

  lemma TailIsSafe(input: Input)
    ensures Select(input).candidate.request.start <= |input.messages|
    ensures SafeStart(input.messages, Select(input).candidate.request.start)
  {
    hide SafeStart, Positions, LatestUser, Archive, Suffix, MatchedAt, FireCut, CutThrough, Fit;
    var ms, safe := input.messages, SafeStarts(input.messages);
    StartIsSafe(ms);
    var kept := KeptCandidate(input, safe);
    if kept.Some? && kept.value.estimated <= input.soft {
      FitIsSafe(input, safe, kept.value);
    } else {
      var raw := CandidateFor(input, None, 0, true);
      FitIsSafe(input, safe, raw);
      var cut := FireCut(input, safe);
      if cut.Some? {
        FitIsSafe(input, safe, CandidateFor(input, Some(WithAnchor(ms, cut.value, Unknown)), cut.value.start, false));
      }
    }
  }

  // ----- sizes -----

  lemma {:induction false} ForwardSize(input: Input, safe: seq<bool>, start: nat, estimated: int)
    requires |safe| == |input.messages| + 1 && start <= |input.messages|
    ensures var r := TrimForward(input, safe, start, estimated);
      r.1 == estimated - Suffix(input.messages, start) + Suffix(input.messages, r.0)
    decreases |input.messages| - start
  {
    if start + 1 < |input.messages| && (estimated + input.markerCost > input.hard || !safe[start]) {
      ForwardSize(input, safe, start + 1, estimated - input.messages[start].cost);
    }
  }

  lemma {:induction false} BackSize(input: Input, safe: seq<bool>, floor: nat, start: nat, estimated: int)
    requires |safe| == |input.messages| + 1 && floor <= start <= |input.messages|
    ensures var r := TrimBack(input, safe, floor, start, estimated);
      r.1 == estimated - Suffix(input.messages, start) + Suffix(input.messages, r.0)
    decreases start
  {
    if start > floor && !safe[start] {
      BackSize(input, safe, floor, start - 1, estimated + input.messages[start - 1].cost);
    }
  }

  /** Trimming changes the size by the notice and the dropped messages, and nothing else. */
  lemma FitSize(input: Input, safe: seq<bool>, c: Candidate)
    requires |safe| == |input.messages| + 1 && c.request.start <= |input.messages|
    requires c.cut.Some? ==> c.cut.value.start <= c.request.start
    ensures var r := Fit(input, safe, c);
      && r.cut == c.cut
      && c.request.start <= r.request.start <= |input.messages|
      && r.estimated - r.headCost - Suffix(input.messages, r.request.start)
         == c.estimated - c.headCost - Suffix(input.messages, c.request.start)
  {
    hide Suffix, NoticeFor;
    var forward := TrimForward(input, safe, c.request.start, c.estimated);
    ForwardSize(input, safe, c.request.start, c.estimated);
    BackSize(input, safe, c.request.start, forward.0, forward.1);
  }

  /** A heuristic candidate, trimmed or not, is system plus notice plus tail. */
  lemma HeuristicSize(input: Input, safe: seq<bool>, cut: Option<Cut>, start: nat, bounded: bool)
    requires |safe| == |input.messages| + 1 && start <= |input.messages|
    requires cut.Some? ==> cut.value.start <= start
    requires CandidateFor(input, cut, start, bounded).source == Heuristic
    ensures var r := Fit(input, safe, CandidateFor(input, cut, start, bounded));
      r.estimated == input.systemTokens + r.headCost + Suffix(input.messages, r.request.start)
  {
    hide Suffix, NoticeFor, Fit;
    FitSize(input, safe, CandidateFor(input, cut, start, bounded));
  }

  // ----- the archive -----

  predicate Missing(ms: seq<Message>, ranges: seq<Located>, k: nat) {
    k < |ms| && ms[k].id.Some? && !Covered(ranges, k)
  }

  predicate Summarized(ms: seq<Message>, ranges: seq<Located>, k: nat) {
    k < |ms| && ms[k].id.Some? && Covered(ranges, k)
  }

  ghost predicate Clear(ms: seq<Message>, ranges: seq<Located>, first: nat, last: nat) {
    forall k: nat :: first <= k <= last ==> !Summarized(ms, ranges, k)
  }

  /** A run: it begins and ends at missing messages and holds no summarized one. */
  ghost predicate RunOk(ms: seq<Message>, ranges: seq<Located>, r: Run, from: nat, end: nat) {
    && from <= r.first <= r.last < end
    && Missing(ms, ranges, r.first) && Missing(ms, ranges, r.last)
    && Clear(ms, ranges, r.first, r.last)
  }

  ghost predicate Separated(ms: seq<Message>, ranges: seq<Located>, a: Run, b: Run) {
    exists k: nat :: a.last < k < b.first && Summarized(ms, ranges, k)
  }

  predicate InRun(runs: seq<Run>, k: nat) {
    exists i :: 0 <= i < |runs| && runs[i].first <= k <= runs[i].last
  }

  /** The runs are exactly the maximal runs of missing messages in [from, end). */
  ghost predicate MaximalRuns(ms: seq<Message>, ranges: seq<Located>, runs: seq<Run>, from: nat, end: nat) {
    && (forall i :: 0 <= i < |runs| ==> RunOk(ms, ranges, runs[i], from, end))
    && (forall i :: 0 <= i < |runs| - 1 ==> Separated(ms, ranges, runs[i], runs[i + 1]))
    && (forall k: nat :: from <= k < end && Missing(ms, ranges, k) ==> InRun(runs, k))
  }

  lemma InRunCons(r: Run, runs: seq<Run>)
    ensures forall k: nat :: InRun([r] + runs, k) <==> r.first <= k <= r.last || InRun(runs, k)
  {
    forall k: nat ensures InRun([r] + runs, k) <==> r.first <= k <= r.last || InRun(runs, k) {
      if r.first <= k <= r.last { assert ([r] + runs)[0] == r; }
      if InRun(runs, k) {
        var i :| 0 <= i < |runs| && runs[i].first <= k <= runs[i].last;
        assert ([r] + runs)[i + 1] == runs[i];
      }
    }
  }

  /** With a run open, what is collected so far and what follows. */
  ghost predicate CollectingRuns(
    ms: seq<Message>, ranges: seq<Located>, runs: seq<Run>, open: Run, i: nat, end: nat)
  {
    && runs != []
    && runs[0].first == open.first
    && RunOk(ms, ranges, runs[0], open.first, end)
    && open.last <= runs[0].last
    && (runs[0].last == open.last || i <= runs[0].last)
    && (forall k :: 1 <= k < |runs| ==> RunOk(ms, ranges, runs[k], i, end))
    && (forall k :: 0 <= k < |runs| - 1 ==> Separated(ms, ranges, runs[k], runs[k + 1]))
    && (forall k: nat :: i <= k < end && Missing(ms, ranges, k) ==> InRun(runs, k))
  }

  lemma MaximalFromEarlier(ms: seq<Message>, ranges: seq<Located>, runs: seq<Run>, i: nat, end: nat)
    requires MaximalRuns(ms, ranges, runs, i + 1, end) && !Missing(ms, ranges, i)
    ensures MaximalRuns(ms, ranges, runs, i, end)
  {
    hide Clear, Missing, Separated, InRun;
  }

  lemma CollectingFromEarlier(ms: seq<Message>, ranges: seq<Located>, runs: seq<Run>, open: Run, i: nat, end: nat)
    requires CollectingRuns(ms, ranges, runs, open, i + 1, end) && !Missing(ms, ranges, i)
    ensures CollectingRuns(ms, ranges, runs, open, i, end)
  {
    hide Clear, Missing, Separated, InRun;
  }

  lemma CollectingCloses(ms: seq<Message>, ranges: seq<Located>, rest: seq<Run>, open: Run, i: nat, end: nat)
    requires MaximalRuns(ms, ranges, rest, i + 1, end) && Summarized(ms, ranges, i) && i < end
    requires RunOk(ms, ranges, open, open.first, i)
    ensures CollectingRuns(ms, ranges, [open] + rest, open, i, end)
  {
    hide Clear, Missing, Separated, InRun, Summarized;
    InRunCons(open, rest);
    SummarizedIsNotMissing(ms, ranges, i);
    if rest != [] { SeparatedBy(ms, ranges, open, i, rest[0]); }
    var runs := [open] + rest;
    assert forall k :: 1 <= k < |runs| ==> runs[k] == rest[k - 1];
    assert forall k :: 1 <= k < |runs| - 1 ==> Separated(ms, ranges, runs[k], runs[k + 1]);
  }

  lemma SummarizedIsNotMissing(ms: seq<Message>, ranges: seq<Located>, i: nat)
    requires Summarized(ms, ranges, i)
    ensures !Missing(ms, ranges, i)
  {
  }

  lemma SeparatedBy(ms: seq<Message>, ranges: seq<Located>, a: Run, i: nat, b: Run)
    requires a.last < i < b.first && Summarized(ms, ranges, i)
    ensures Separated(ms, ranges, a, b)
  {
  }

  lemma SingleRun(ms: seq<Message>, ranges: seq<Located>, i: nat)
    requires Missing(ms, ranges, i)
    ensures RunOk(ms, ranges, Run(i, i), i, i + 1)
  {
  }

  lemma CollectingGrows(ms: seq<Message>, ranges: seq<Located>, runs: seq<Run>, open: Run, i: nat, end: nat)
    requires CollectingRuns(ms, ranges, runs, Run(open.first, i), i + 1, end) && open.first <= open.last < i
    ensures CollectingRuns(ms, ranges, runs, open, i, end)
  {
    assert InRun(runs, i) by { assert runs[0].first <= i <= runs[0].last; }
    hide Clear, Missing, Separated, InRun;
  }

  lemma CollectingStarts(ms: seq<Message>, ranges: seq<Located>, runs: seq<Run>, i: nat, end: nat)
    requires CollectingRuns(ms, ranges, runs, Run(i, i), i + 1, end)
    ensures MaximalRuns(ms, ranges, runs, i, end)
  {
    assert InRun(runs, i) by { assert runs[0].first <= i <= runs[0].last; }
    hide Clear, Missing, Separated, InRun;
  }

  lemma RunGrows(ms: seq<Message>, ranges: seq<Located>, open: Run, i: nat)
    requires RunOk(ms, ranges, open, open.first, i) && Missing(ms, ranges, i)
    requires forall k: nat :: open.last < k < i ==> k < |ms| && ms[k].id.None?
    ensures RunOk(ms, ranges, Run(open.first, i), open.first, i + 1)
  {
    hide Covered;
  }

  /** The computed markers are the maximal runs of messages that no summary covers. */
  lemma {:induction false} RunsAreMaximal(ms: seq<Message>, ranges: seq<Located>, i: nat, end: nat)
    requires i <= end <= |ms|
    ensures MaximalRuns(ms, ranges, Runs(ms, ranges, i, end, None), i, end)
    decreases end - i, 1
  {
    hide MaximalRuns, CollectingRuns, Covered, RunOk;
    if i == end {
      NoRuns(ms, ranges, i);
    } else if ms[i].id.None? || Covered(ranges, i) {
      RunsAreMaximal(ms, ranges, i + 1, end);
      var runs := Runs(ms, ranges, i + 1, end, None);
      assert Runs(ms, ranges, i, end, None) == [] + runs == runs;
      MaximalFromEarlier(ms, ranges, runs, i, end);
    } else {
      SingleRun(ms, ranges, i);
      OpenRunIsMaximal(ms, ranges, i + 1, end, Run(i, i));
      CollectingStarts(ms, ranges, Runs(ms, ranges, i, end, None), i, end);
    }
  }

  lemma NoRuns(ms: seq<Message>, ranges: seq<Located>, i: nat)
    ensures MaximalRuns(ms, ranges, [], i, i)
  {
  }

  lemma {:induction false} OpenRunIsMaximal(ms: seq<Message>, ranges: seq<Located>, i: nat, end: nat, open: Run)
    requires i <= end <= |ms| && RunOk(ms, ranges, open, open.first, i)
    requires forall k: nat :: open.last < k < i ==> k < |ms| && ms[k].id.None?
    ensures CollectingRuns(ms, ranges, Runs(ms, ranges, i, end, Some(open)), open, i, end)
    decreases end - i, 0
  {
    if i == end {
      assert Runs(ms, ranges, i, end, Some(open)) == [open];
    } else {
      hide Covered, Clear, CollectingRuns, MaximalRuns;
      if ms[i].id.None? {
        OpenRunIsMaximal(ms, ranges, i + 1, end, open);
        CollectingFromEarlier(ms, ranges, Runs(ms, ranges, i, end, Some(open)), open, i, end);
      } else if Covered(ranges, i) {
        RunsAreMaximal(ms, ranges, i + 1, end);
        CollectingCloses(ms, ranges, Runs(ms, ranges, i + 1, end, None), open, i, end);
      } else {
        RunGrows(ms, ranges, open, i);
        OpenRunIsMaximal(ms, ranges, i + 1, end, Run(open.first, i));
        CollectingGrows(ms, ranges, Runs(ms, ranges, i, end, Some(open)), open, i, end);
      }
    }
  }

  /** The newest-first walk shows the longest suffix of summaries within the budget. */
  lemma {:induction false} ShownIsLongestSuffix(s: seq<Located>, n: nat, remaining: nat)
    requires n <= |s|
    ensures var k := OmittedFrom(s, n, remaining);
      && SummaryCosts(s[..n], k) <= remaining
      && forall j :: 0 <= j < k ==> SummaryCosts(s[..n], j) > remaining
    decreases n
  {
    var k := OmittedFrom(s, n, remaining);
    if n > 0 {
      CostsOfSnoc(s, n);
      if s[n - 1].summary.cost <= remaining {
        ShownIsLongestSuffix(s, n - 1, remaining - s[n - 1].summary.cost);
      }
    }
  }

  lemma {:induction false} CostsOfSnoc(s: seq<Located>, n: nat)
    requires 0 < n <= |s|
    ensures forall j :: 0 <= j < n ==> SummaryCosts(s[..n], j) == SummaryCosts(s[..n - 1], j) + s[n - 1].summary.cost
  {
    var j := n - 1;
    assert SummaryCosts(s[..n], n) == 0;
    while j > 0
      invariant 0 <= j < n
      invariant forall i :: j <= i < n ==> SummaryCosts(s[..n], i) == SummaryCosts(s[..n - 1], i) + s[n - 1].summary.cost
    {
      j := j - 1;
      assert s[..n][j] == s[..n - 1][j];
    }
  }

  /** The cached block stands in for the summaries of this cut: there are none, and the
      last message that the block covers is still there and archived. */
  predicate UsesCachedBlock(input: Input, cut: Option<Cut>) {
    && cut.Some? && input.summaries == [] && input.cachedBlock.Some?
    && input.cachedBlock.value.through in Positions(input.messages)
    && Positions(input.messages)[input.cachedBlock.value.through] <= cut.value.through
  }

  /** The longest newest-first suffix of the summaries through the cut within the
      budget, the number of older ones, and a marker for every maximal run that no
      included summary covers. */
  ghost predicate ShowsSummaries(input: Input, cut: Option<Cut>, end: nat, a: Archived)
    requires end <= |input.messages|
  {
    var included := if cut.Some? then UpTo(LocateAll(input.messages, input.summaries), cut.value.through) else [];
    var runs := Runs(input.messages, included, 0, end, None);
    var budget := input.contextLimit / SUMMARY_DIVISOR;
    && a.omitted <= |included|
    && SummaryCosts(included, a.omitted) <= budget
    && (forall j :: 0 <= j < a.omitted ==> SummaryCosts(included, j) > budget)
    && MaximalRuns(input.messages, included, runs, 0, end)
    && RunsNamed(input.messages, runs)
    && a.missing == |runs|
    && a.parts == (if a.omitted > 0 then [OlderSummariesOmitted(a.omitted)] else [])
                  + SummaryParts(included[a.omitted..]) + MissingParts(input.messages, runs)
  }

  /** The cached block, and a marker for every maximal run of messages with an ID
      behind the last one that it covers. */
  ghost predicate ShowsCachedBlock(input: Input, end: nat, a: Archived)
    requires end <= |input.messages| && input.cachedBlock.Some?
    requires input.cachedBlock.value.through in Positions(input.messages)
  {
    var from := Positions(input.messages)[input.cachedBlock.value.through] + 1;
    var runs := if from <= end then Runs(input.messages, [], from, end, None) else [];
    && a.omitted == 0
    && MaximalRuns(input.messages, [], runs, from, end)
    && RunsNamed(input.messages, runs)
    && a.missing == |runs|
    && a.parts == input.cachedBlock.value.parts + MissingParts(input.messages, runs)
  }

  /** The archive says what it shows, omits and misses, in both of its forms. */
  lemma ArchiveAccounts(input: Input, cut: Option<Cut>, end: nat)
    requires end <= |input.messages|
    ensures var a := Archive(input, cut, end);
      if UsesCachedBlock(input, cut) then ShowsCachedBlock(input, end, a) else ShowsSummaries(input, cut, end, a)
  {
    if UsesCachedBlock(input, cut) {
      CachedBlockAccounts(input, cut, end);
    } else {
      SummariesAccount(input, cut, end);
    }
  }

  lemma CachedBlockAccounts(input: Input, cut: Option<Cut>, end: nat)
    requires end <= |input.messages| && UsesCachedBlock(input, cut)
    ensures ShowsCachedBlock(input, end, Archive(input, cut, end))
  {
    hide MaximalRuns, Runs, LocateAll, UpTo, MissingParts, SummaryParts;
    var from := Positions(input.messages)[input.cachedBlock.value.through] + 1;
    if from <= end {
      RunsAreMaximal(input.messages, [], from, end);
      RunsAreNamed(input.messages, [], from, end, None);
    } else {
      NothingBehind(input.messages, from, end);
    }
  }

  lemma NothingBehind(ms: seq<Message>, from: nat, end: nat)
    requires end < from
    ensures MaximalRuns(ms, [], [], from, end)
  {
  }

  lemma SummariesAccount(input: Input, cut: Option<Cut>, end: nat)
    requires end <= |input.messages| && !UsesCachedBlock(input, cut)
    ensures ShowsSummaries(input, cut, end, Archive(input, cut, end))
  {
    hide MaximalRuns, SummaryCosts, Runs, LocateAll, UpTo, OmittedFrom, MissingParts, SummaryParts;
    var included := if cut.Some? then UpTo(LocateAll(input.messages, input.summaries), cut.value.through) else [];
    RunsAreMaximal(input.messages, included, 0, end);
    RunsAreNamed(input.messages, included, 0, end, None);
    ShownIsLongestSuffix(included, |included|, input.contextLimit / SUMMARY_DIVISOR);
    assert included[..|included|] == included;
  }

  // ----- the latest user input -----

  predicate UniqueIds(ms: seq<Message>) {
    forall i, k :: 0 <= i < k < |ms| && ms[i].id.Some? ==> ms[i].id != ms[k].id
  }

  /** A user message recorded as copied is still the latest one that the kept cut can hide. */
  predicate AnchorFresh(ms: seq<Message>, through: Option<string>, anchor: AnchorState) {
    through.Some? && anchor.At? ==>
      && through.value in Positions(ms) && anchor.id in Positions(ms)
      && IdUser(ms[Positions(ms)[anchor.id]])
      && forall v :: Positions(ms)[anchor.id] < v < |ms| && IdUser(ms[v]) ==> v > Positions(ms)[through.value]
  }

  /** The latest user message with an ID is in the tail or copied in the notice. */
  predicate HoldsLatestUser(ms: seq<Message>, r: Request) {
    LatestUser(ms).Some? ==>
      || r.start <= LatestUser(ms).value
      || (r.head.Some? && r.head.value.anchor == LatestUser(ms))
  }

  lemma CutKeepsLaterIds(ms: seq<Message>, safe: seq<bool>, id: string, v: nat)
    requires |safe| == |ms| + 1 && CutThrough(ms, safe, id).Some?
    requires v < |ms| && ms[v].id.Some? && v > CutThrough(ms, safe, id).value.through
    ensures CutThrough(ms, safe, id).value.start <= v
  {
  }

  lemma KeptHoldsLatestUser(input: Input, safe: seq<bool>)
    requires |safe| == |input.messages| + 1 && KeptCandidate(input, safe).Some?
    requires AnchorFresh(input.messages, input.projectedThrough, input.projectedAnchor)
    ensures HoldsLatestUser(input.messages, KeptCandidate(input, safe).value.request)
  {
    hide Archive, Suffix, BackToSafe, AfterTools;
    var ms := input.messages;
    var id := input.projectedThrough.value;
    var latest := LatestUser(ms);
    if latest.Some? && latest.value > CutThrough(ms, safe, id).value.through {
      CutKeepsLaterIds(ms, safe, id, latest.value);
    }
  }

  /** A fresh cut and its notice, trimmed or not, hold the latest user message. */
  lemma FreshHoldsLatestUser(input: Input, cut: Option<Cut>, start: nat, bounded: bool)
    requires start <= |input.messages| && (cut.Some? ==> cut.value.start <= start)
    requires cut.Some? && cut.value.anchor.Some? ==> cut.value.anchor == LatestUser(input.messages)
    ensures HoldsLatestUser(input.messages, CandidateFor(input, cut, start, bounded).request)
  {
    hide Archive, Suffix;
  }

  lemma FitHoldsLatestUser(input: Input, safe: seq<bool>, cut: Option<Cut>, start: nat, bounded: bool)
    requires |safe| == |input.messages| + 1
    requires start <= |input.messages| && (cut.Some? ==> cut.value.start <= start)
    requires cut.Some? && cut.value.anchor.Some? ==> cut.value.anchor == LatestUser(input.messages)
    ensures HoldsLatestUser(input.messages, Fit(input, safe, CandidateFor(input, cut, start, bounded)).request)
  {
    hide HoldsLatestUser, CandidateFor, Suffix;
    var c := CandidateFor(input, cut, start, bounded);
    FreshHoldsLatestUser(input, cut, start, bounded);
    CandidateKeeps(input, cut, start, bounded);
    var forward := TrimForward(input, safe, start, c.estimated);
    var back := TrimBack(input, safe, start, forward.0, forward.1);
    FreshHoldsLatestUser(input, cut, back.0, false);
  }

  lemma CandidateKeeps(input: Input, cut: Option<Cut>, start: nat, bounded: bool)
    requires start <= |input.messages| && (cut.Some? ==> cut.value.start <= start)
    ensures CandidateFor(input, cut, start, bounded).cut == cut
    ensures CandidateFor(input, cut, start, bounded).request.start == start
  {
    hide NoticeFor, Suffix;
  }

  lemma FiredHoldsLatestUser(input: Input, safe: seq<bool>, cut: Cut)
    requires |safe| == |input.messages| + 1 && cut.start <= |input.messages| && cut.anchor.None?
    ensures var anchored := WithAnchor(input.messages, cut, Unknown);
      HoldsLatestUser(input.messages, Fit(input, safe, CandidateFor(input, Some(anchored), cut.start, false)).request)
  {
    FitHoldsLatestUser(input, safe, Some(WithAnchor(input.messages, cut, Unknown)), cut.start, false);
  }

  /** Every selected request holds the latest user message, provided the recorded anchor is fresh. */
  lemma SelectHoldsLatestUser(input: Input)
    requires input.soft <= input.hard
    requires AnchorFresh(input.messages, input.projectedThrough, input.projectedAnchor)
    ensures HoldsLatestUser(input.messages, Select(input).candidate.request)
  {
    hide HoldsLatestUser, AnchorFresh, FireCut, WithAnchor, CutThrough, NoticeFor, Suffix;
    var safe := SafeStarts(input.messages);
    var kept := KeptCandidate(input, safe);
    if kept.Some? && kept.value.estimated <= input.soft {
      KeptHoldsLatestUser(input, safe);
    } else {
      FitHoldsLatestUser(input, safe, None, 0, true);
      var cut := FireCut(input, safe);
      if cut.Some? { FiredHoldsLatestUser(input, safe, cut.value); }
    }
  }

  // ----- a whole session -----

  /** The next request of a session: the history has only grown, and the stored
      cut is the one of this request, or still the old one if it was not sent. */
  ghost predicate Follows(prev: Input, next: Input) {
    && prev.messages <= next.messages
    && UniqueIds(next.messages)
    && next.soft <= next.hard
    && ((next.projectedThrough == ProjectedThrough(Select(prev))
         && next.projectedAnchor == ProjectedAnchor(prev.messages, Select(prev)))
        || (next.projectedThrough == prev.projectedThrough && next.projectedAnchor == prev.projectedAnchor))
  }

  lemma PositionIs(ms: seq<Message>, i: nat)
    requires UniqueIds(ms) && i < |ms| && ms[i].id.Some?
    ensures ms[i].id.value in Positions(ms) && Positions(ms)[ms[i].id.value] == i
  {
  }

  lemma PositionsStay(ms: seq<Message>, more: seq<Message>, id: string)
    requires ms <= more && UniqueIds(more) && id in Positions(ms)
    ensures id in Positions(more) && Positions(more)[id] == Positions(ms)[id]
  {
    PositionIs(more, Positions(ms)[id]);
  }

  lemma FreshStays(ms: seq<Message>, more: seq<Message>, through: Option<string>, anchor: AnchorState)
    requires ms <= more && UniqueIds(more) && AnchorFresh(ms, through, anchor)
    ensures AnchorFresh(more, through, anchor)
  {
    if through.Some? && anchor.At? {
      hide Positions;
      PositionsStay(ms, more, through.value);
      PositionsStay(ms, more, anchor.id);
      assert forall v :: 0 <= v < |ms| ==> more[v] == ms[v];
    }
  }

  /** What a request records is fresh for its own history. */
  lemma LatestIsFresh(ms: seq<Message>, o: Outcome)
    requires UniqueIds(ms) && (o.candidate.cut.Some? ==> o.candidate.cut.value.id in Positions(ms))
    requires o.candidate.request.head.Some? && o.candidate.request.head.value.anchor.Some?
      ==> o.candidate.request.head.value.anchor == LatestUser(ms)
    ensures AnchorFresh(ms, ProjectedThrough(o), ProjectedAnchor(ms, o))
  {
    var latest := LatestUser(ms);
    if latest.Some? { PositionIs(ms, latest.value); }
  }

  /** The anchor a trimmed or untrimmed fresh candidate copies is the latest user message. */
  lemma FitCopiesLatest(input: Input, safe: seq<bool>, cut: Option<Cut>, start: nat, bounded: bool)
    requires |safe| == |input.messages| + 1
    requires start <= |input.messages| && (cut.Some? ==> cut.value.start <= start)
    requires cut.Some? && cut.value.anchor.Some? ==> cut.value.anchor == LatestUser(input.messages)
    ensures var r := Fit(input, safe, CandidateFor(input, cut, start, bounded));
      && r.cut == cut
      && (r.request.head.Some? && r.request.head.value.anchor.Some? ==>
            r.request.head.value.anchor == LatestUser(input.messages))
  {
    hide Archive, Suffix, LatestUser;
  }

  lemma KeptIsFresh(input: Input, safe: seq<bool>, mode: Mode)
    requires |safe| == |input.messages| + 1 && KeptCandidate(input, safe).Some? && UniqueIds(input.messages)
    requires AnchorFresh(input.messages, input.projectedThrough, input.projectedAnchor)
    ensures var o := Outcome(KeptCandidate(input, safe).value, mode);
      AnchorFresh(input.messages, ProjectedThrough(o), ProjectedAnchor(input.messages, o))
  {
    hide Archive, Suffix, BackToSafe, AfterTools;
    var ms := input.messages;
    var latest := LatestUser(ms);
    if latest.Some? { PositionIs(ms, latest.value); }
  }

  lemma SelectIsFresh(input: Input)
    requires UniqueIds(input.messages) && input.soft <= input.hard
    requires AnchorFresh(input.messages, input.projectedThrough, input.projectedAnchor)
    ensures AnchorFresh(input.messages, ProjectedThrough(Select(input)), ProjectedAnchor(input.messages, Select(input)))
  {
    hide AnchorFresh, FireCut, CutThrough, NoticeFor, Suffix, UniqueIds, LatestUser, ProjectedAnchor, ProjectedThrough;
    var ms, safe := input.messages, SafeStarts(input.messages);
    var kept := KeptCandidate(input, safe);
    if kept.Some? && kept.value.estimated <= input.soft {
      KeptIsFresh(input, safe, Kept);
    } else {
      var raw := CandidateFor(input, None, 0, true);
      FitCopiesLatest(input, safe, None, 0, true);
      LatestIsFresh(ms, Outcome(Fit(input, safe, raw), Raw));
      var cut := FireCut(input, safe);
      if cut.Some? {
        var anchored := WithAnchor(ms, cut.value, Unknown);
        FitCopiesLatest(input, safe, Some(anchored), cut.value.start, false);
        LatestIsFresh(ms, Outcome(Fit(input, safe, CandidateFor(input, Some(anchored), cut.value.start, false)), Fired));
      }
    }
  }

  /** A session: it starts without a stored cut, and each request follows the one before. */
  ghost predicate Session(inputs: seq<Input>) {
    && inputs != []
    && inputs[0].projectedThrough.None? && UniqueIds(inputs[0].messages) && inputs[0].soft <= inputs[0].hard
    && forall k :: 0 <= k < |inputs| - 1 ==> Follows(inputs[k], inputs[k + 1])
  }

  lemma {:induction false} SessionIsFresh(inputs: seq<Input>, k: nat)
    requires Session(inputs) && k < |inputs|
    ensures UniqueIds(inputs[k].messages) && inputs[k].soft <= inputs[k].hard
    ensures AnchorFresh(inputs[k].messages, inputs[k].projectedThrough, inputs[k].projectedAnchor)
  {
    if k > 0 {
      SessionIsFresh(inputs, k - 1);
      var prev, next := inputs[k - 1], inputs[k];
      assert Follows(prev, next);
      hide AnchorFresh, UniqueIds;
      SelectIsFresh(prev);
      FreshStays(prev.messages, next.messages, prev.projectedThrough, prev.projectedAnchor);
      FreshStays(prev.messages, next.messages, ProjectedThrough(Select(prev)), ProjectedAnchor(prev.messages, Select(prev)));
    }
  }

  /** Over a whole session every request holds the latest user message, in its
      tail or copied in its notice, although cuts are recomputed each time. */
  lemma LatestUserSurvives(inputs: seq<Input>, k: nat)
    requires Session(inputs) && k < |inputs|
    ensures HoldsLatestUser(inputs[k].messages, Select(inputs[k]).candidate.request)
  {
    SessionIsFresh(inputs, k);
    SelectHoldsLatestUser(inputs[k]);
  }

  // ----- budgets -----

  datatype Budget = Budget(soft: int, hard: real)

  function Min(a: real, b: real): real {
    if a <= b then a else b
  }

  /** The soft and hard input budgets of a model, or none when nothing is usable. */
  function NativeInputBudget(context: real, input: Option<real>, output: real): Option<Budget> {
    var limit := if input.Some? then input.value else context;
    if context <= 0.0 || limit <= 0.0 || output < 0.0 then None
    else
      var usable := Min(limit, context - output);
      if usable <= 0.0 then None
      else
        var hard := Min((context * 3.0 / 4.0).Floor as real, usable);
        var a, b := (context * 7.0 / 10.0).Floor, (hard * 14.0 / 15.0).Floor;
        Some(Budget(if a <= b then a else b, hard))
  }

  /** The soft budget never exceeds the hard one, so a kept request is never trimmed. */
  lemma SoftIsWithinHard(context: real, input: Option<real>, output: real)
    requires NativeInputBudget(context, input, output).Some?
    ensures var b := NativeInputBudget(context, input, output).value;
      0.0 <= b.hard && b.soft as real <= b.hard && b.soft <= b.hard.Floor
  {
  }
}
