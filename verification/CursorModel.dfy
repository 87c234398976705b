/** Cursor projection of one request: which prefix of the transcript is archived
    behind a notice, and which tail is sent raw. Token estimates, the provider's
    size measurements and the rendering of text are parameters. */
module CursorModel {
  import opened Wrappers

  datatype Role = User | Assistant | Tool | System

  datatype Part = ToolCall(id: string) | ToolResult(id: string) | Content

  datatype Message = Message(id: Option<string>, role: Role, parts: seq<Part>, cost: nat)

  /** A committed summary; `cost` is the estimate of its text in the notice. */
  datatype Summary = Summary(id: string, start: string, end: string, cost: nat)

  /** A summary located in the transcript, both ends included. */
  datatype Located = Located(summary: Summary, start: nat, end: nat)

  datatype ArchivePart =
    | OlderSummariesOmitted(count: nat)
    | SummaryText(summary: Summary)
    | MissingSummary(first: string, last: string)

  /** A rendered archive and the last message it covers. */
  datatype Block = Block(through: string, parts: seq<ArchivePart>)

  datatype Cut = Cut(id: string, through: nat, start: nat, anchor: Option<nat>)

  /** What is known about the user message copied into the kept cut's notice. */
  datatype AnchorState = Unknown | NoAnchor | At(id: string)

  datatype Notice = Notice(parts: seq<ArchivePart>, dropped: nat, anchor: Option<nat>, omitted: nat, missing: nat)

  /** The request sent: an optional notice, then messages[start..]. */
  datatype Request = Request(head: Option<Notice>, start: nat)

  datatype EstimateSource = Provider | ProviderBound | Heuristic

  datatype Mode = Raw | Kept | Fired

  datatype Input = Input(
    messages: seq<Message>,
    summaries: seq<Summary>,
    cachedBlock: Option<Block>,
    projectedThrough: Option<string>,
    projectedAnchor: AnchorState,
    contextLimit: nat,
    soft: int,
    hard: int,
    systemTokens: nat,
    noticeCost: Notice -> nat,
    markerCost: nat,
    measure: Request -> Option<int>,
    bound: Request -> Option<int>)

  datatype Candidate = Candidate(
    request: Request, cut: Option<Cut>, estimated: int, source: EstimateSource, headCost: nat)

  datatype Outcome = Outcome(candidate: Candidate, mode: Mode)

  const TAIL_DIVISOR := 4
  const SUMMARY_DIVISOR := 20

  // ----- positions -----

  /** The last position of each message ID. */
  function Positions(ms: seq<Message>): (m: map<string, nat>)
    ensures forall id :: id in m ==> m[id] < |ms| && ms[m[id]].id == Some(id)
    ensures forall i :: 0 <= i < |ms| && ms[i].id.Some? ==> ms[i].id.value in m
  {
    if ms == [] then map[]
    else
      var last := ms[|ms| - 1];
      var before := Positions(ms[..|ms| - 1]);
      if last.id.Some? then before[last.id.value := |ms| - 1] else before
  }

  predicate IdUser(m: Message) {
    m.role == User && m.id.Some?
  }

  /** The last user message that has an ID. */
  function LatestUser(ms: seq<Message>): (r: Option<nat>)
    ensures r.Some? ==> r.value < |ms| && IdUser(ms[r.value])
    ensures forall i :: 0 <= i < |ms| && IdUser(ms[i]) ==> r.Some? && i <= r.value
  {
    if ms == [] then None
    else if IdUser(ms[|ms| - 1]) then Some(|ms| - 1)
    else LatestUser(ms[..|ms| - 1])
  }

  // ----- tool safety -----

  /** The latest call of each ID after n parts of message `index`. */
  function CallsIn(parts: seq<Part>, n: nat, index: nat, calls: map<string, nat>): map<string, nat>
    requires n <= |parts|
  {
    if n == 0 then calls
    else
      var before := CallsIn(parts, n - 1, index, calls);
      if parts[n - 1].ToolCall? then before[parts[n - 1].id := index] else before
  }

  function CallsBefore(ms: seq<Message>, m: nat): map<string, nat>
    requires m <= |ms|
  {
    if m == 0 then map[] else CallsIn(ms[m - 1].parts, |ms[m - 1].parts|, m - 1, CallsBefore(ms, m - 1))
  }

  /** The latest calls seen before part p of message m. */
  function CallsAt(ms: seq<Message>, m: nat, p: nat): map<string, nat>
    requires m < |ms| && p <= |ms[m].parts|
  {
    CallsIn(ms[m].parts, p, m, CallsBefore(ms, m))
  }

  /** Part p of message m is the result of a call in the earlier message c. */
  predicate MatchedAt(ms: seq<Message>, m: nat, p: nat, c: nat) {
    && m < |ms| && p < |ms[m].parts|
    && ms[m].parts[p].ToolResult?
    && ms[m].parts[p].id in CallsAt(ms, m, p)
    && CallsAt(ms, m, p)[ms[m].parts[p].id] == c
    && c != m
  }

  /** No matched call and result lie on different sides of i. */
  ghost predicate SafeStart(ms: seq<Message>, i: nat) {
    forall m: nat, p: nat, c: nat :: MatchedAt(ms, m, p, c) ==> !(c < i <= m)
  }

  // ----- costs -----

  /** The summed costs of messages[i..]. */
  function Suffix(ms: seq<Message>, i: nat): nat
    requires i <= |ms|
    decreases |ms| - i
  {
    if i == |ms| then 0 else ms[i].cost + Suffix(ms, i + 1)
  }

  // ----- cuts -----

  /** Past the tool messages without an ID that belong to the record before. */
  function AfterTools(ms: seq<Message>, i: nat): (r: nat)
    requires i <= |ms|
    ensures i <= r <= |ms|
    ensures forall k :: i <= k < r ==> ms[k].id.None? && ms[k].role == Tool
    decreases |ms| - i
  {
    if i < |ms| && ms[i].id.None? && ms[i].role == Tool then AfterTools(ms, i + 1) else i
  }

  /** Back to the nearest safe start. */
  function BackToSafe(safe: seq<bool>, i: nat): (r: nat)
    requires i < |safe|
    ensures r <= i && (r == 0 || safe[r])
    ensures forall k :: r < k <= i ==> !safe[k]
  {
    if i > 0 && !safe[i] then BackToSafe(safe, i - 1) else i
  }

  /** Archive through the message named `id`. */
  function CutThrough(ms: seq<Message>, safe: seq<bool>, id: string): (r: Option<Cut>)
    requires |safe| == |ms| + 1
    ensures r.Some? ==>
      && r.value.id == id && id in Positions(ms) && r.value.through == Positions(ms)[id]
      && 0 < r.value.start <= |ms| && safe[r.value.start] && r.value.anchor.None?
  {
    var positions := Positions(ms);
    if id !in positions then None
    else
      var through := positions[id];
      var after := AfterTools(ms, through + 1);
      var start := if after >= |ms| || !safe[after] then BackToSafe(safe, through + 1) else after;
      if start > 0 then Some(Cut(id, through, start, None)) else None
  }

  /** The user message to copy into the notice, when it is archived. */
  function WithAnchor(ms: seq<Message>, cut: Cut, anchor: AnchorState): (r: Cut)
    ensures r.(anchor := None) == cut.(anchor := None)
  {
    var position :=
      match anchor
      case Unknown => LatestUser(ms)
      case NoAnchor => None
      case At(id) => if id in Positions(ms) then Some(Positions(ms)[id]) else None;
    if position.Some? && position.value < cut.start then cut.(anchor := position) else cut
  }

  // ----- the archive -----

  function Locate(ms: seq<Message>, s: Summary): Option<Located> {
    var p := Positions(ms);
    if s.start in p && s.end in p && p[s.start] <= p[s.end] then Some(Located(s, p[s.start], p[s.end])) else None
  }

  predicate NotAfter(a: Located, b: Located) {
    a.start < b.start || (a.start == b.start && a.end <= b.end)
  }

  predicate SortedLocated(s: seq<Located>) {
    forall i, k :: 0 <= i < k < |s| ==> NotAfter(s[i], s[k])
  }

  function InsertLocated(s: seq<Located>, a: Located): (r: seq<Located>)
    requires SortedLocated(s)
    ensures SortedLocated(r)
    ensures forall i :: 0 <= i < |r| ==> r[i] == a || r[i] in s
  {
    if s == [] then [a]
    else if NotAfter(s[|s| - 1], a) then s + [a]
    else InsertLocated(s[..|s| - 1], a) + [s[|s| - 1]]
  }

  /** The summaries found in the transcript, by start and then by end. */
  function LocateAll(ms: seq<Message>, ss: seq<Summary>): (r: seq<Located>)
    ensures SortedLocated(r)
    ensures forall i :: 0 <= i < |r| ==> r[i].start <= r[i].end < |ms|
    ensures forall i :: 0 <= i < |r| ==> ms[r[i].end].id == Some(r[i].summary.end)
  {
    if ss == [] then []
    else
      var before := LocateAll(ms, ss[..|ss| - 1]);
      var last := Locate(ms, ss[|ss| - 1]);
      if last.Some? then InsertLocated(before, last.value) else before
  }

  function UpTo(located: seq<Located>, through: nat): (r: seq<Located>)
    requires SortedLocated(located)
    ensures SortedLocated(r)
    ensures forall i :: 0 <= i < |r| ==> r[i] in located && r[i].end <= through
  {
    if located == [] then []
    else
      var before := UpTo(located[..|located| - 1], through);
      var last := located[|located| - 1];
      if last.end <= through then before + [last] else before
  }

  function SummaryCosts(s: seq<Located>, i: nat): nat
    requires i <= |s|
    decreases |s| - i
  {
    if i == |s| then 0 else s[i].summary.cost + SummaryCosts(s, i + 1)
  }

  /** How many of the first n included summaries the newest-first walk leaves out. */
  function OmittedFrom(s: seq<Located>, n: nat, remaining: nat): (k: nat)
    requires n <= |s|
    ensures k <= n
  {
    if n == 0 || s[n - 1].summary.cost > remaining then n
    else OmittedFrom(s, n - 1, remaining - s[n - 1].summary.cost)
  }

  /** Some range holds position i. */
  predicate Covered(ranges: seq<Located>, i: nat) {
    exists k :: 0 <= k < |ranges| && ranges[k].start <= i <= ranges[k].end
  }

  /** A run of ID-bearing messages that no range covers. */
  datatype Run = Run(first: nat, last: nat)

  /** The uncovered runs between i and end; `open` is the run being collected. */
  function Runs(ms: seq<Message>, ranges: seq<Located>, i: nat, end: nat, open: Option<Run>): seq<Run>
    requires i <= end <= |ms|
    decreases end - i
  {
    if i == end then (if open.Some? then [open.value] else [])
    else if ms[i].id.None? then Runs(ms, ranges, i + 1, end, open)
    else if Covered(ranges, i) then
      (if open.Some? then [open.value] else []) + Runs(ms, ranges, i + 1, end, None)
    else Runs(ms, ranges, i + 1, end, Some(if open.Some? then Run(open.value.first, i) else Run(i, i)))
  }

  predicate RunsNamed(ms: seq<Message>, runs: seq<Run>) {
    forall k :: 0 <= k < |runs| ==>
      runs[k].first < |ms| && runs[k].last < |ms| && ms[runs[k].first].id.Some? && ms[runs[k].last].id.Some?
  }

  lemma {:induction false} RunsAreNamed(ms: seq<Message>, ranges: seq<Located>, i: nat, end: nat, open: Option<Run>)
    requires i <= end <= |ms|
    requires open.Some? ==> RunsNamed(ms, [open.value])
    ensures RunsNamed(ms, Runs(ms, ranges, i, end, open))
    decreases end - i
  {
    if open.Some? { assert [open.value][0] == open.value; }
    if i < end {
      if ms[i].id.None? {
        RunsAreNamed(ms, ranges, i + 1, end, open);
      } else if Covered(ranges, i) {
        RunsAreNamed(ms, ranges, i + 1, end, None);
      } else {
        RunsAreNamed(ms, ranges, i + 1, end, Some(if open.Some? then Run(open.value.first, i) else Run(i, i)));
      }
    }
  }

  function MissingParts(ms: seq<Message>, runs: seq<Run>): (r: seq<ArchivePart>)
    requires RunsNamed(ms, runs)
    ensures |r| == |runs|
    ensures forall k :: 0 <= k < |runs| ==>
              r[k] == MissingSummary(ms[runs[k].first].id.value, ms[runs[k].last].id.value)
  {
    seq(|runs|, k requires 0 <= k < |runs| =>
      MissingSummary(ms[runs[k].first].id.value, ms[runs[k].last].id.value))
  }

  function SummaryParts(s: seq<Located>): (r: seq<ArchivePart>)
    ensures |r| == |s| && forall k :: 0 <= k < |s| ==> r[k] == SummaryText(s[k].summary)
  {
    seq(|s|, k requires 0 <= k < |s| => SummaryText(s[k].summary))
  }

  datatype Archived = Archived(parts: seq<ArchivePart>, omitted: nat, missing: nat)

  /** The cached block stands in only when no summaries could be read. */
  function CachedThrough(input: Input): (r: Option<nat>)
    ensures r.Some? ==> input.cachedBlock.Some? && r.value < |input.messages|
  {
    if input.summaries == [] && input.cachedBlock.Some?
       && input.cachedBlock.value.through in Positions(input.messages)
    then Some(Positions(input.messages)[input.cachedBlock.value.through]) else None
  }

  /** Summaries through the cut within the budget, then markers for what none covers. */
  function Archive(input: Input, cut: Option<Cut>, end: nat): Archived
    requires end <= |input.messages|
  {
    var ms := input.messages;
    var cached := CachedThrough(input);
    if cut.Some? && cached.Some? && cached.value <= cut.value.through then
      var from := cached.value + 1;
      var runs := if from <= end then Runs(ms, [], from, end, None) else [];
      assert RunsNamed(ms, runs) by { if from <= end { RunsAreNamed(ms, [], from, end, None); } }
      Archived(input.cachedBlock.value.parts + MissingParts(ms, runs), 0, |runs|)
    else
      var included := if cut.Some? then UpTo(LocateAll(ms, input.summaries), cut.value.through) else [];
      var omitted := OmittedFrom(included, |included|, input.contextLimit / SUMMARY_DIVISOR);
      var runs := Runs(ms, included, 0, end, None);
      assert RunsNamed(ms, runs) by { RunsAreNamed(ms, included, 0, end, None); }
      Archived((if omitted > 0 then [OlderSummariesOmitted(omitted)] else [])
               + SummaryParts(included[omitted..]) + MissingParts(ms, runs),
               omitted, |runs|)
  }

  // ----- candidates -----

  function NoticeFor(input: Input, cut: Option<Cut>, start: nat): Notice
    requires (cut.Some? ==> cut.value.start <= start) && start <= |input.messages|
  {
    var end := if cut.Some? then cut.value.start else 0;
    var block := Archive(input, cut, end);
    var latest := LatestUser(input.messages);
    var anchor :=
      if cut.Some? && cut.value.anchor.Some? then cut.value.anchor
      else if latest.Some? && latest.value < start then latest
      else None;
    Notice(block.parts, start - end, anchor, block.omitted, block.missing)
  }

  /** The request for a cut and a tail start, with its size. A provider bound
      applies only where asked for, and only without an exact measurement. */
  function CandidateFor(input: Input, cut: Option<Cut>, start: nat, bounded: bool): Candidate
    requires (cut.Some? ==> cut.value.start <= start) && start <= |input.messages|
  {
    var head := if cut.None? && start == 0 then None else Some(NoticeFor(input, cut, start));
    var request := Request(head, start);
    var headCost := if head.Some? then input.noticeCost(head.value) else 0;
    var measured := input.measure(request);
    var bound := if measured.None? && bounded then input.bound(request) else None;
    if measured.Some? then Candidate(request, cut, measured.value, Provider, headCost)
    else if bound.Some? then Candidate(request, cut, bound.value, ProviderBound, headCost)
    else Candidate(request, cut, input.systemTokens + headCost + Suffix(input.messages, start), Heuristic, headCost)
  }

  // ----- trimming -----

  /** Drop messages until the rest fits at a safe start, or one message is left. */
  function TrimForward(input: Input, safe: seq<bool>, start: nat, estimated: int): (r: (nat, int))
    requires |safe| == |input.messages| + 1 && start <= |input.messages|
    ensures start <= r.0 <= |input.messages|
    ensures start < |input.messages| ==> r.0 < |input.messages|
    decreases |input.messages| - start
  {
    if start + 1 < |input.messages| && (estimated + input.markerCost > input.hard || !safe[start]) then
      TrimForward(input, safe, start + 1, estimated - input.messages[start].cost)
    else (start, estimated)
  }

  /** Keep the calls of the results that are kept. */
  function TrimBack(input: Input, safe: seq<bool>, floor: nat, start: nat, estimated: int): (r: (nat, int))
    requires |safe| == |input.messages| + 1 && floor <= start <= |input.messages|
    ensures floor <= r.0 <= start && (r.0 == floor || safe[r.0])
  {
    if start > floor && !safe[start] then TrimBack(input, safe, floor, start - 1, estimated + input.messages[start - 1].cost)
    else (start, estimated)
  }

  function Fit(input: Input, safe: seq<bool>, c: Candidate): Candidate
    requires |safe| == |input.messages| + 1 && c.request.start <= |input.messages|
    requires c.cut.Some? ==> c.cut.value.start <= c.request.start
  {
    if c.estimated <= input.hard then c
    else
      var forward := TrimForward(input, safe, c.request.start, c.estimated);
      var back := TrimBack(input, safe, c.request.start, forward.0, forward.1);
      if back.0 == c.request.start then c
      else
        var trimmed := CandidateFor(input, c.cut, back.0, false);
        trimmed.(estimated := back.1 - c.headCost + trimmed.headCost, source := Heuristic)
  }

  // ----- choosing -----

  function CutsOf(ms: seq<Message>, safe: seq<bool>, located: seq<Located>): (r: seq<Cut>)
    requires |safe| == |ms| + 1
    ensures forall i :: 0 <= i < |r| ==> CutThrough(ms, safe, r[i].id) == Some(r[i])
  {
    if located == [] then []
    else
      var before := CutsOf(ms, safe, located[..|located| - 1]);
      var last := CutThrough(ms, safe, located[|located| - 1].summary.end);
      if last.Some? then before + [last.value] else before
  }

  /** The first cut that leaves a tail within the target, otherwise the last. */
  function FirstWithin(ms: seq<Message>, cuts: seq<Cut>, i: nat, target: nat): (r: Option<Cut>)
    requires i <= |cuts| && forall k :: 0 <= k < |cuts| ==> cuts[k].start <= |ms|
    ensures r.Some? ==> r.value in cuts
    decreases |cuts| - i
  {
    if i == |cuts| then (if cuts == [] then None else Some(cuts[|cuts| - 1]))
    else if Suffix(ms, cuts[i].start) <= target then Some(cuts[i])
    else FirstWithin(ms, cuts, i + 1, target)
  }

  /** Archive beyond the summaries: the first later cut within the target, otherwise the last. */
  function Further(ms: seq<Message>, safe: seq<bool>, cut: Option<Cut>, i: nat, target: nat, latest: Option<Cut>): (r: Option<Cut>)
    requires |safe| == |ms| + 1 && i <= |ms|
    requires latest.Some? ==> CutThrough(ms, safe, latest.value.id) == latest
    ensures r.Some? ==> CutThrough(ms, safe, r.value.id) == r
    decreases |ms| - i
  {
    if i == |ms| then latest
    else
      var next := if ms[i].id.Some? then CutThrough(ms, safe, ms[i].id.value) else None;
      if next.None? || next.value.start >= |ms| || next.value.start <= (if cut.Some? then cut.value.start else 0) then
        Further(ms, safe, cut, i + 1, target, latest)
      else if Suffix(ms, next.value.start) <= target then next
      else Further(ms, safe, cut, i + 1, target, next)
  }

  /** Archive through a summary, or further when summaries lag behind. */
  function FireCut(input: Input, safe: seq<bool>): (r: Option<Cut>)
    requires |safe| == |input.messages| + 1
    ensures r.Some? ==> CutThrough(input.messages, safe, r.value.id) == r
  {
    var ms := input.messages;
    var target := input.contextLimit / TAIL_DIVISOR;
    var cuts := CutsOf(ms, safe, LocateAll(ms, input.summaries));
    var cut := FirstWithin(ms, cuts, 0, target);
    if cut.None? || CandidateFor(input, Some(WithAnchor(ms, cut.value, Unknown)), cut.value.start, false).estimated > input.soft then
      var from := if cut.Some? then cut.value.through + 1 else 0;
      var latest := Further(ms, safe, cut, from, target, None);
      if latest.Some? then latest else cut
    else cut
  }

  function KeptCandidate(input: Input, safe: seq<bool>): Option<Candidate>
    requires |safe| == |input.messages| + 1
  {
    var previous := if input.projectedThrough.Some? then CutThrough(input.messages, safe, input.projectedThrough.value) else None;
    if previous.None? then None
    else
      var cut := WithAnchor(input.messages, previous.value, input.projectedAnchor);
      Some(CandidateFor(input, Some(cut), cut.start, true))
  }

  function SelectWith(input: Input, safe: seq<bool>): Outcome
    requires |safe| == |input.messages| + 1
  {
    var kept := KeptCandidate(input, safe);
    if kept.Some? && kept.value.estimated <= input.soft then Outcome(Fit(input, safe, kept.value), Kept)
    else
      var raw := CandidateFor(input, None, 0, true);
      if raw.estimated <= input.soft || |input.messages| < 2 then Outcome(Fit(input, safe, raw), Raw)
      else
        var cut := FireCut(input, safe);
        if cut.None? then Outcome(Fit(input, safe, raw), Raw)
        else
          var fired := CandidateFor(input, Some(WithAnchor(input.messages, cut.value, Unknown)), cut.value.start, false);
          if fired.estimated > input.hard && raw.estimated <= input.hard then Outcome(Fit(input, safe, raw), Raw)
          else Outcome(Fit(input, safe, fired), Fired)
  }

  ghost predicate IsSafe(ms: seq<Message>, safe: seq<bool>) {
    |safe| == |ms| + 1 && forall i :: 0 <= i <= |ms| ==> (safe[i] <==> SafeStart(ms, i))
  }

  /** The state to persist: the cut in force, and the ID of the copied user message. */
  function ProjectedThrough(o: Outcome): Option<string> {
    if o.candidate.cut.Some? then Some(o.candidate.cut.value.id) else None
  }

  function ProjectedAnchor(ms: seq<Message>, o: Outcome): AnchorState {
    var head := o.candidate.request.head;
    if head.Some? && head.value.anchor.Some? && head.value.anchor.value < |ms| && ms[head.value.anchor.value].id.Some?
    then At(ms[head.value.anchor.value].id.value) else NoAnchor
  }
}
