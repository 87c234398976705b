/** The projection as it runs: arrays, moving indices and growing lists, proved to
    be the functions of CursorModel. */
module CursorProjector {
  import opened Wrappers
  import opened CursorModel
  import opened CursorTheorems

  // ----- tool safety by a difference array -----

  /** Matched pairs, one for each result, by message index. */
  datatype Pair = Pair(call: nat, result: nat)

  function Bool(b: bool): int { if b then 1 else 0 }

  /** What the pairs add to entry k of the difference array. */
  function Delta(pairs: seq<Pair>, k: int): int {
    if pairs == [] then 0
    else
      var p := pairs[|pairs| - 1];
      Delta(pairs[..|pairs| - 1], k) + Bool(p.call + 1 == k) - Bool(p.result + 1 == k)
  }

  /** How many pairs lie around i. */
  function Around(pairs: seq<Pair>, i: int): nat {
    if pairs == [] then 0
    else
      var p := pairs[|pairs| - 1];
      Around(pairs[..|pairs| - 1], i) + if p.call < i <= p.result then 1 else 0
  }

  lemma DeltaSnoc(pairs: seq<Pair>, p: Pair)
    ensures forall k :: Delta(pairs + [p], k) == Delta(pairs, k) + Bool(p.call + 1 == k) - Bool(p.result + 1 == k)
  {
    assert (pairs + [p])[..|pairs|] == pairs;
  }

  /** The running sum of the difference array counts the pairs around an index. */
  lemma {:induction false} AroundByDelta(pairs: seq<Pair>, i: nat)
    requires forall k :: 0 <= k < |pairs| ==> pairs[k].call < pairs[k].result
    ensures Around(pairs, i) == (if i == 0 then 0 else Around(pairs, i - 1)) + Delta(pairs, i)
  {
    if pairs != [] {
      AroundByDelta(pairs[..|pairs| - 1], i);
    }
  }

  lemma {:induction false} NoneAround(pairs: seq<Pair>, i: int)
    ensures Around(pairs, i) == 0 <==> forall k :: 0 <= k < |pairs| ==> !(pairs[k].call < i <= pairs[k].result)
  {
    if pairs != [] {
      var init := pairs[..|pairs| - 1];
      NoneAround(init, i);
      assert forall k :: 0 <= k < |init| ==> pairs[k] == init[k];
    }
  }

  ghost predicate IsPair(ms: seq<Message>, pair: Pair) {
    exists q: nat :: MatchedAt(ms, pair.result, q, pair.call)
  }

  /** The pairs are those of the parts before part p of message m. */
  ghost predicate PairsUpTo(ms: seq<Message>, pairs: seq<Pair>, m: nat, p: nat) {
    && (forall k :: 0 <= k < |pairs| ==> IsPair(ms, pairs[k]))
    && (forall n: nat, q: nat, c: nat :: MatchedAt(ms, n, q, c) && (n < m || (n == m && q < p)) ==> Pair(c, n) in pairs)
  }

  lemma PairsPointForward(ms: seq<Message>, pairs: seq<Pair>, m: nat, p: nat)
    requires PairsUpTo(ms, pairs, m, p)
    ensures forall k :: 0 <= k < |pairs| ==> pairs[k].call < pairs[k].result < |ms|
  {
    forall k | 0 <= k < |pairs| ensures pairs[k].call < pairs[k].result < |ms| {
      assert IsPair(ms, pairs[k]);
      var q: nat :| MatchedAt(ms, pairs[k].result, q, pairs[k].call);
      MatchesPointBack(ms, pairs[k].result, q, pairs[k].call);
    }
  }

  lemma PairsDecideSafety(ms: seq<Message>, pairs: seq<Pair>, i: nat)
    requires PairsUpTo(ms, pairs, |ms|, 0)
    ensures SafeStart(ms, i) <==> Around(pairs, i) == 0
  {
    NoneAround(pairs, i);
    if SafeStart(ms, i) {
      forall k | 0 <= k < |pairs| ensures !(pairs[k].call < i <= pairs[k].result) {
        assert IsPair(ms, pairs[k]);
        var q: nat :| MatchedAt(ms, pairs[k].result, q, pairs[k].call);
      }
    }
    if Around(pairs, i) == 0 {
      forall m: nat, p: nat, c: nat | MatchedAt(ms, m, p, c) ensures !(c < i <= m) {
        MatchedInside(ms, m, p, c);
        assert Pair(c, m) in pairs;
      }
    }
  }

  lemma MatchedInside(ms: seq<Message>, m: nat, p: nat, c: nat)
    requires MatchedAt(ms, m, p, c)
    ensures m < |ms|
  {
  }

  lemma PairsSkip(ms: seq<Message>, pairs: seq<Pair>, m: nat, p: nat)
    requires m < |ms| && p < |ms[m].parts| && PairsUpTo(ms, pairs, m, p)
    requires forall c: nat :: !MatchedAt(ms, m, p, c)
    ensures PairsUpTo(ms, pairs, m, p + 1)
  {
  }

  lemma PairsAdd(ms: seq<Message>, pairs: seq<Pair>, m: nat, p: nat, c: nat)
    requires m < |ms| && p < |ms[m].parts| && PairsUpTo(ms, pairs, m, p)
    requires MatchedAt(ms, m, p, c) && forall d: nat :: MatchedAt(ms, m, p, d) ==> d == c
    ensures PairsUpTo(ms, pairs + [Pair(c, m)], m, p + 1)
  {
    var all := pairs + [Pair(c, m)];
    assert IsPair(ms, Pair(c, m));
    forall k | 0 <= k < |all| ensures IsPair(ms, all[k]) {
      assert all[k] == if k < |pairs| then pairs[k] else Pair(c, m);
    }
    assert forall x :: x in pairs ==> x in all;
  }

  lemma PairsNextMessage(ms: seq<Message>, pairs: seq<Pair>, m: nat)
    requires m < |ms| && PairsUpTo(ms, pairs, m, |ms[m].parts|)
    ensures PairsUpTo(ms, pairs, m + 1, 0)
  {
    forall n: nat, q: nat, c: nat | MatchedAt(ms, n, q, c) && n < m + 1 ensures Pair(c, n) in pairs {
    }
  }

  /** Where a tail may start: one pass over the parts, one running sum. */
  method ToolSafeStarts(ms: seq<Message>) returns (safe: seq<bool>)
    ensures IsSafe(ms, safe)
  {
    var unsafe := new int[|ms| + 2];
    for k := 0 to |ms| + 2
      invariant forall i :: 0 <= i < k ==> unsafe[i] == 0
    {
      unsafe[k] := 0;
    }
    ghost var pairs := MarkPairs(ms, unsafe);
    PairsPointForward(ms, pairs, |ms|, 0);
    var depth := 0;
    safe := [];
    for i := 0 to |ms| + 1
      invariant |safe| == i
      invariant forall k :: 0 <= k < unsafe.Length ==> unsafe[k] == Delta(pairs, k)
      invariant depth == if i == 0 then 0 else Around(pairs, i - 1)
      invariant forall k :: 0 <= k < i ==> (safe[k] <==> SafeStart(ms, k))
    {
      AroundByDelta(pairs, i);
      PairsDecideSafety(ms, pairs, i);
      depth := depth + unsafe[i];
      ghost var before := safe;
      safe := safe + [depth == 0];
      assert forall k :: 0 <= k < i ==> safe[k] == before[k];
      assert safe[i] <==> SafeStart(ms, i);
    }
  }

  method MarkPairs(ms: seq<Message>, unsafe: array<int>) returns (ghost pairs: seq<Pair>)
    requires unsafe.Length == |ms| + 2 && forall k :: 0 <= k < unsafe.Length ==> unsafe[k] == 0
    modifies unsafe
    ensures PairsUpTo(ms, pairs, |ms|, 0)
    ensures forall k :: 0 <= k < unsafe.Length ==> unsafe[k] == Delta(pairs, k)
  {
    hide PairsUpTo;
    var calls: map<string, nat> := map[];
    pairs := [];
    NoPairs(ms);
    for m := 0 to |ms|
      invariant calls == CallsBefore(ms, m)
      invariant PairsUpTo(ms, pairs, m, 0)
      invariant forall k :: 0 <= k < unsafe.Length ==> unsafe[k] == Delta(pairs, k)
    {
      var parts := ms[m].parts;
      for p := 0 to |parts|
        invariant calls == CallsAt(ms, m, p)
        invariant PairsUpTo(ms, pairs, m, p)
        invariant forall k :: 0 <= k < unsafe.Length ==> unsafe[k] == Delta(pairs, k)
      {
        var part := parts[p];
        if part.ToolCall? { calls := calls[part.id := m]; }
        if part.ToolResult? && part.id in calls && calls[part.id] != m {
          var call := calls[part.id];
          assert MatchedAt(ms, m, p, call);
          MatchesPointBack(ms, m, p, call);
          DeltaSnoc(pairs, Pair(call, m));
          PairsAdd(ms, pairs, m, p, call);
          unsafe[call + 1] := unsafe[call + 1] + 1;
          unsafe[m + 1] := unsafe[m + 1] - 1;
          pairs := pairs + [Pair(call, m)];
        } else {
          PairsSkip(ms, pairs, m, p);
        }
      }
      PairsNextMessage(ms, pairs, m);
    }
  }

  lemma NoPairs(ms: seq<Message>)
    ensures PairsUpTo(ms, [], 0, 0)
  {
  }

  // ----- sums, cuts -----

  lemma SuffixUnfold(ms: seq<Message>, i: nat)
    requires i <= |ms|
    ensures Suffix(ms, i) == if i == |ms| then 0 else ms[i].cost + Suffix(ms, i + 1)
  {
  }

  method SuffixSums(ms: seq<Message>) returns (suffix: array<nat>)
    ensures fresh(suffix) && suffix.Length == |ms| + 1
    ensures forall i :: 0 <= i <= |ms| ==> suffix[i] == Suffix(ms, i)
  {
    suffix := new nat[|ms| + 1];
    suffix[|ms|] := 0;
    SuffixUnfold(ms, |ms|);
    hide Suffix;
    var index := |ms|;
    while index > 0
      invariant 0 <= index <= |ms|
      invariant forall i :: index <= i <= |ms| ==> suffix[i] == Suffix(ms, i)
    {
      index := index - 1;
      SuffixUnfold(ms, index);
      suffix[index] := suffix[index + 1] + ms[index].cost;
    }
  }

  method IndexIds(ms: seq<Message>) returns (positions: map<string, nat>)
    ensures positions == Positions(ms)
  {
    positions := map[];
    for i := 0 to |ms|
      invariant positions == Positions(ms[..i])
    {
      assert ms[..i + 1][..i] == ms[..i];
      if ms[i].id.Some? { positions := positions[ms[i].id.value := i]; }
    }
    assert ms[..|ms|] == ms;
  }

  method FindCut(ms: seq<Message>, positions: map<string, nat>, safe: seq<bool>, id: string) returns (cut: Option<Cut>)
    requires positions == Positions(ms) && |safe| == |ms| + 1
    ensures cut == CutThrough(ms, safe, id)
  {
    hide Positions;
    if id !in positions { return None; }
    var through := positions[id];
    var start := through + 1;
    while start < |ms| && ms[start].id.None? && ms[start].role == Tool
      invariant through + 1 <= start <= |ms|
      invariant AfterTools(ms, through + 1) == AfterTools(ms, start)
    {
      start := start + 1;
    }
    if start >= |ms| || !safe[start] {
      start := through + 1;
      while start > 0 && !safe[start]
        invariant 0 <= start <= through + 1
        invariant BackToSafe(safe, through + 1) == BackToSafe(safe, start)
      {
        start := start - 1;
      }
    }
    cut := if start > 0 then Some(Cut(id, through, start, None)) else None;
  }

  // ----- the archive -----

  /** Newest first within the budget, stopping at the first that does not fit. */
  method SelectSummaries(included: seq<Located>, budget: nat) returns (omitted: nat)
    ensures omitted == OmittedFrom(included, |included|, budget)
  {
    var remaining: nat := budget;
    omitted := |included|;
    while omitted > 0 && included[omitted - 1].summary.cost <= remaining
      invariant omitted <= |included|
      invariant OmittedFrom(included, |included|, budget) == OmittedFrom(included, omitted, remaining)
    {
      remaining := remaining - included[omitted - 1].summary.cost;
      omitted := omitted - 1;
    }
  }

  /** Every range before `range` ends before position `index`. */
  predicate Passed(ranges: seq<Located>, range: nat, index: nat) {
    range <= |ranges| && forall k :: 0 <= k < range ==> ranges[k].end < index
  }

  /** With the ranges sorted by start, only the first one that has not ended can cover a position. */
  lemma PointerDecides(ranges: seq<Located>, range: nat, index: nat)
    requires SortedLocated(ranges) && Passed(ranges, range, index)
    requires range < |ranges| ==> index <= ranges[range].end
    ensures Covered(ranges, index) <==> range < |ranges| && ranges[range].start <= index
  {
    if Covered(ranges, index) {
      var k :| 0 <= k < |ranges| && ranges[k].start <= index <= ranges[k].end;
      assert k >= range;
      assert k > range ==> NotAfter(ranges[range], ranges[k]);
    }
  }

  /** One sweep with two pointers over messages and ranges. */
  method SweepMissing(ms: seq<Message>, ranges: seq<Located>, from: nat, end: nat) returns (runs: seq<Run>)
    requires SortedLocated(ranges) && end <= |ms|
    ensures runs == if from <= end then Runs(ms, ranges, from, end, None) else []
  {
    runs := [];
    var range := 0;
    var open: Option<Run> := None;
    var index := from;
    while index < end
      invariant from <= end ==> index <= end
      invariant from <= index && range <= |ranges|
      invariant Passed(ranges, range, index)
      invariant from > end ==> runs == [] && open.None?
      invariant from <= end ==> Runs(ms, ranges, from, end, None) == runs + Runs(ms, ranges, index, end, open)
    {
      ghost var before, was := runs, open;
      if ms[index].id.Some? {
        while range < |ranges| && ranges[range].end < index
          invariant range <= |ranges| && Passed(ranges, range, index)
        {
          range := range + 1;
        }
        PointerDecides(ranges, range, index);
        hide Covered, Passed;
        if range < |ranges| && ranges[range].start <= index {
          if open.Some? { runs := runs + [open.value]; }
          open := None;
          assert before + ((if was.Some? then [was.value] else []) + Runs(ms, ranges, index + 1, end, None))
              == runs + Runs(ms, ranges, index + 1, end, None);
        } else {
          open := Some(Run(if open.Some? then open.value.first else index, index));
        }
      }
      index := index + 1;
    }
    if open.Some? { runs := runs + [open.value]; }
  }

  method BuildArchive(input: Input, located: seq<Located>, positions: map<string, nat>, cut: Option<Cut>, end: nat)
    returns (archived: Archived)
    requires positions == Positions(input.messages) && located == LocateAll(input.messages, input.summaries)
    requires end <= |input.messages|
    ensures archived == Archive(input, cut, end)
  {
    hide Positions, LocateAll, Runs, UpTo, OmittedFrom;
    var ms := input.messages;
    var parts: seq<ArchivePart> := [];
    var ranges: seq<Located> := [];
    var from, omitted := 0, 0;
    var cached := CachedThrough(input);
    if cut.Some? && cached.Some? && cached.value <= cut.value.through {
      parts := input.cachedBlock.value.parts;
      from := cached.value + 1;
    } else if cut.Some? {
      var included := UpTo(located, cut.value.through);
      omitted := SelectSummaries(included, input.contextLimit / SUMMARY_DIVISOR);
      if omitted > 0 { parts := [OlderSummariesOmitted(omitted)]; }
      parts := parts + SummaryParts(included[omitted..]);
      ranges := included;
    } else {
      NothingIncluded(input.contextLimit / SUMMARY_DIVISOR);
    }
    var runs := SweepMissing(ms, ranges, from, end);
    if from <= end { RunsAreNamed(ms, ranges, from, end, None); }
    archived := Archived(parts + MissingParts(ms, runs), omitted, |runs|);
  }

  lemma NothingIncluded(budget: nat)
    ensures OmittedFrom([], 0, budget) == 0 && SummaryParts([][0..]) == []
  {
  }

  // ----- trimming -----

  method FitBudget(input: Input, safe: seq<bool>, c: Candidate) returns (chosen: Candidate)
    requires |safe| == |input.messages| + 1 && c.request.start <= |input.messages|
    requires c.cut.Some? ==> c.cut.value.start <= c.request.start
    ensures chosen == Fit(input, safe, c)
  {
    hide CandidateFor;
    chosen := c;
    if c.estimated > input.hard {
      var ms := input.messages;
      var start, estimated := c.request.start, c.estimated;
      while start + 1 < |ms| && (estimated + input.markerCost > input.hard || !safe[start])
        invariant c.request.start <= start <= |ms|
        invariant TrimForward(input, safe, c.request.start, c.estimated) == TrimForward(input, safe, start, estimated)
      {
        estimated := estimated - ms[start].cost;
        start := start + 1;
      }
      ghost var forward := (start, estimated);
      while start > c.request.start && !safe[start]
        invariant c.request.start <= start <= |ms|
        invariant TrimBack(input, safe, c.request.start, forward.0, forward.1)
               == TrimBack(input, safe, c.request.start, start, estimated)
      {
        start := start - 1;
        estimated := estimated + ms[start].cost;
      }
      if start != c.request.start {
        var trimmed := CandidateFor(input, c.cut, start, false);
        chosen := trimmed.(estimated := estimated - c.headCost + trimmed.headCost, source := Heuristic);
      }
    }
  }

  // ----- choosing -----

  method SummaryCuts(ms: seq<Message>, positions: map<string, nat>, safe: seq<bool>, located: seq<Located>)
    returns (cuts: seq<Cut>)
    requires positions == Positions(ms) && |safe| == |ms| + 1
    ensures cuts == CutsOf(ms, safe, located)
  {
    hide CutThrough;
    cuts := [];
    for i := 0 to |located|
      invariant cuts == CutsOf(ms, safe, located[..i])
    {
      assert located[..i + 1][..i] == located[..i];
      var cut := FindCut(ms, positions, safe, located[i].summary.end);
      if cut.Some? { cuts := cuts + [cut.value]; }
    }
    assert located[..|located|] == located;
  }

  method ChooseFireCut(input: Input, positions: map<string, nat>, safe: seq<bool>, located: seq<Located>, suffix: array<nat>)
    returns (cut: Option<Cut>)
    requires positions == Positions(input.messages) && |safe| == |input.messages| + 1
    requires located == LocateAll(input.messages, input.summaries)
    requires suffix.Length == |input.messages| + 1
    requires forall i :: 0 <= i <= |input.messages| ==> suffix[i] == Suffix(input.messages, i)
    ensures cut == FireCut(input, safe)
  {
    hide CutThrough, Suffix, LocateAll, Positions, CandidateFor, WithAnchor, Further, CutsOf;
    var ms := input.messages;
    var target := input.contextLimit / TAIL_DIVISOR;
    var cuts := SummaryCuts(ms, positions, safe, located);
    var i := 0;
    while i < |cuts| && suffix[cuts[i].start] > target
      invariant 0 <= i <= |cuts|
      invariant FirstWithin(ms, cuts, 0, target) == FirstWithin(ms, cuts, i, target)
    {
      i := i + 1;
    }
    cut := if i < |cuts| then Some(cuts[i]) else if cuts == [] then None else Some(cuts[|cuts| - 1]);
    assert cut == FirstWithin(ms, cuts, 0, target);
    var lagging := cut.None?;
    if cut.Some? {
      lagging := CandidateFor(input, Some(WithAnchor(ms, cut.value, Unknown)), cut.value.start, false).estimated > input.soft;
    }
    if lagging {
      var from := if cut.Some? then cut.value.through + 1 else 0;
      var latest := SearchFurther(ms, positions, safe, cut, from, target, suffix);
      if latest.Some? { cut := latest; }
    }
  }

  method SearchFurther(
    ms: seq<Message>, positions: map<string, nat>, safe: seq<bool>, cut: Option<Cut>, from: nat, target: nat, suffix: array<nat>)
    returns (latest: Option<Cut>)
    requires positions == Positions(ms) && |safe| == |ms| + 1 && from <= |ms|
    requires suffix.Length == |ms| + 1 && forall i :: 0 <= i <= |ms| ==> suffix[i] == Suffix(ms, i)
    ensures latest == Further(ms, safe, cut, from, target, None)
  {
    hide Suffix, Positions, CutThrough;
    latest := None;
    var index := from;
    while index < |ms|
      invariant from <= index <= |ms|
      invariant latest.Some? ==> CutThrough(ms, safe, latest.value.id) == latest
      invariant Further(ms, safe, cut, from, target, None) == Further(ms, safe, cut, index, target, latest)
    {
      var next: Option<Cut> := None;
      if ms[index].id.Some? { next := FindCut(ms, positions, safe, ms[index].id.value); }
      index := index + 1;
      if next.None? || next.value.start >= |ms| || next.value.start <= (if cut.Some? then cut.value.start else 0) { continue; }
      latest := next;
      if suffix[next.value.start] <= target { return; }
    }
  }

  /** Keep the previous cut while it fits, else send everything, else archive. */
  method SelectCursorProjection(input: Input) returns (o: Outcome)
    ensures o == Select(input)
  {
    var ms := input.messages;
    var positions := IndexIds(ms);
    var safe := ToolSafeStarts(ms);
    SafetyIsUnique(ms, safe);
    var suffix := SuffixSums(ms);
    var located := LocateAll(ms, input.summaries);
    hide CutThrough, Suffix, LocateAll, Positions, CandidateFor, WithAnchor, Fit, FireCut, IsSafe;
    if input.projectedThrough.Some? {
      var previous := FindCut(ms, positions, safe, input.projectedThrough.value);
      if previous.Some? {
        var cut := WithAnchor(ms, previous.value, input.projectedAnchor);
        var kept := CandidateFor(input, Some(cut), cut.start, true);
        CandidateKeeps(input, Some(cut), cut.start, true);
        if kept.estimated <= input.soft {
          var chosen := FitBudget(input, safe, kept);
          return Outcome(chosen, Kept);
        }
      }
    }
    var raw := CandidateFor(input, None, 0, true);
    CandidateKeeps(input, None, 0, true);
    var whole := FitBudget(input, safe, raw);
    if raw.estimated <= input.soft || |ms| < 2 { return Outcome(whole, Raw); }
    var cut := ChooseFireCut(input, positions, safe, located, suffix);
    if cut.None? { return Outcome(whole, Raw); }
    var anchored := WithAnchor(ms, cut.value, Unknown);
    var fired := CandidateFor(input, Some(anchored), cut.value.start, false);
    CandidateKeeps(input, Some(anchored), cut.value.start, false);
    if fired.estimated > input.hard && raw.estimated <= input.hard { return Outcome(whole, Raw); }
    var chosen := FitBudget(input, safe, fired);
    o := Outcome(chosen, Fired);
  }

  lemma SafetyIsUnique(ms: seq<Message>, safe: seq<bool>)
    requires IsSafe(ms, safe)
    ensures safe == SafeStarts(ms)
  {
    hide SafeStart;
    var other := SafeStarts(ms);
    forall i | 0 <= i <= |ms| ensures safe[i] == other[i] {
    }
  }
}
