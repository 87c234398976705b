/** When a request archives afresh, through which message, and when it does not. */
module CursorModes {
  import opened Wrappers
  import opened CursorModel
  import opened CursorTheorems
  import opened CursorChoice

  // ----- the cuts a request can choose from -----

  /** The cut behind the i-th located summary. */
  function SummaryCut(input: Input, safe: seq<bool>, i: nat): (r: Option<Cut>)
    requires |safe| == |input.messages| + 1
    ensures r.Some? ==> r.value.start <= |input.messages|
  {
    var located := LocateAll(input.messages, input.summaries);
    if i < |located| then CutThrough(input.messages, safe, located[i].summary.end) else None
  }

  /** The cut leaves a tail within its share of the context. */
  predicate Within(input: Input, cut: Cut) {
    cut.start <= |input.messages| && Suffix(input.messages, cut.start) <= input.contextLimit / TAIL_DIVISOR
  }

  /** Among the first n summaries, i is the first whose cut leaves a tail within the target. */
  predicate FirstSummaryWithin(input: Input, safe: seq<bool>, n: nat, i: nat)
    requires |safe| == |input.messages| + 1
  {
    && i < n && SummaryCut(input, safe, i).Some? && Within(input, SummaryCut(input, safe, i).value)
    && forall j :: 0 <= j < i && SummaryCut(input, safe, j).Some? ==> !Within(input, SummaryCut(input, safe, j).value)
  }

  /** None of them does, and i is the last that has a cut. */
  predicate LastSummary(input: Input, safe: seq<bool>, n: nat, i: nat)
    requires |safe| == |input.messages| + 1
  {
    && i < n && SummaryCut(input, safe, i).Some?
    && (forall j :: 0 <= j < n && SummaryCut(input, safe, j).Some? ==> !Within(input, SummaryCut(input, safe, j).value))
    && forall j :: i < j < n ==> SummaryCut(input, safe, j).None?
  }

  ghost predicate SummaryChoice(input: Input, safe: seq<bool>, n: nat, cut: Option<Cut>)
    requires |safe| == |input.messages| + 1
  {
    if cut.None? then forall j :: 0 <= j < n ==> SummaryCut(input, safe, j).None?
    else exists i :: SummaryCut(input, safe, i) == cut && (FirstSummaryWithin(input, safe, n, i) || LastSummary(input, safe, n, i))
  }

  /** The cut through message k, if it goes further than a given one and leaves a tail. */
  function FurtherCut(input: Input, safe: seq<bool>, cut: Option<Cut>, k: nat): (r: Option<Cut>)
    requires |safe| == |input.messages| + 1
    ensures r.Some? ==> r.value.start <= |input.messages|
  {
    var next := if k < |input.messages| && input.messages[k].id.Some?
                then CutThrough(input.messages, safe, input.messages[k].id.value) else None;
    if next.Some? && next.value.start < |input.messages| && next.value.start > (if cut.Some? then cut.value.start else 0)
    then next else None
  }

  predicate NoneWithin(input: Input, safe: seq<bool>, cut: Option<Cut>, from: nat, to: nat)
    requires |safe| == |input.messages| + 1
  {
    forall j :: from <= j < to && FurtherCut(input, safe, cut, j).Some? ==> !Within(input, FurtherCut(input, safe, cut, j).value)
  }

  /** From message i on: the first further cut that leaves a tail within the target,
      otherwise the last further cut, otherwise what was there before. */
  ghost predicate FurtherChoice(input: Input, safe: seq<bool>, cut: Option<Cut>, i: nat, latest: Option<Cut>, r: Option<Cut>)
    requires |safe| == |input.messages| + 1
  {
    || (exists k :: i <= k < |input.messages| && r.Some? && FurtherCut(input, safe, cut, k) == r
          && Within(input, r.value) && NoneWithin(input, safe, cut, i, k))
    || (NoneWithin(input, safe, cut, i, |input.messages|)
        && ((exists k :: i <= k < |input.messages| && r.Some? && FurtherCut(input, safe, cut, k) == r
               && forall j :: k < j < |input.messages| ==> FurtherCut(input, safe, cut, j).None?)
            || (r == latest && forall j :: i <= j < |input.messages| ==> FurtherCut(input, safe, cut, j).None?)))
  }

  /** The request that archives through a cut afresh. */
  function Fresh(input: Input, cut: Cut): Candidate
    requires cut.start <= |input.messages|
  {
    CandidateFor(input, Some(WithAnchor(input.messages, cut, Unknown)), cut.start, false)
  }

  /** The cut to archive through: a summary's, while its request is within the soft
      budget; otherwise one beyond the summaries, if there is any. */
  ghost predicate Chosen(input: Input, safe: seq<bool>, cut: Option<Cut>)
    requires |safe| == |input.messages| + 1
  {
    exists base: Option<Cut> ::
      && SummaryChoice(input, safe, |LocateAll(input.messages, input.summaries)|, base)
      && (base.Some? ==> base.value.start <= |input.messages|)
      && ChosenFrom(input, safe, base, cut)
  }

  ghost predicate ChosenFrom(input: Input, safe: seq<bool>, base: Option<Cut>, cut: Option<Cut>)
    requires |safe| == |input.messages| + 1 && (base.Some? ==> base.value.start <= |input.messages|)
  {
    if base.Some? && Fresh(input, base.value).estimated <= input.soft then cut == base
    else FurtherChoice(input, safe, base, if base.Some? then base.value.through + 1 else 0, base, cut)
  }

  // ----- the choice is made -----

  lemma {:induction false} FirstWithinSnoc(ms: seq<Message>, cuts: seq<Cut>, c: Cut, i: nat, target: nat)
    requires i <= |cuts| && c.start <= |ms| && forall k :: 0 <= k < |cuts| ==> cuts[k].start <= |ms|
    requires forall j :: 0 <= j < i ==> Suffix(ms, cuts[j].start) > target
    ensures var before := FirstWithin(ms, cuts, i, target);
      FirstWithin(ms, cuts + [c], i, target)
      == if before.Some? && before.value.start <= |ms| && Suffix(ms, before.value.start) <= target then before else Some(c)
    ensures FirstWithin(ms, cuts, i, target).None? <==> cuts == []
    decreases |cuts| - i
  {
    hide Suffix;
    if i < |cuts| && Suffix(ms, cuts[i].start) > target {
      FirstWithinSnoc(ms, cuts, c, i + 1, target);
    } else if i == |cuts| {
      assert (cuts + [c])[i] == c;
    }
  }

  /** The choice of the model among the first n summaries. */
  function BaseUpTo(input: Input, safe: seq<bool>, n: nat): (r: Option<Cut>)
    requires |safe| == |input.messages| + 1 && n <= |LocateAll(input.messages, input.summaries)|
    ensures r.Some? ==> r.value.start <= |input.messages|
  {
    FirstWithin(input.messages, CutsOf(input.messages, safe, LocateAll(input.messages, input.summaries)[..n]), 0,
                input.contextLimit / TAIL_DIVISOR)
  }

  lemma BaseStep(input: Input, safe: seq<bool>, n: nat)
    requires |safe| == |input.messages| + 1 && 0 < n <= |LocateAll(input.messages, input.summaries)|
    ensures var before, next := BaseUpTo(input, safe, n - 1), SummaryCut(input, safe, n - 1);
      BaseUpTo(input, safe, n) == if next.None? || (before.Some? && Within(input, before.value)) then before else next
  {
    var ms, located, target := input.messages, LocateAll(input.messages, input.summaries), input.contextLimit / TAIL_DIVISOR;
    var cuts, next := CutsOf(ms, safe, located[..n - 1]), SummaryCut(input, safe, n - 1);
    CutsSnoc(input, safe, n);
    hide LocateAll, CutThrough, Suffix, FirstWithin, CutsOf, SummaryCut;
    if next.Some? { FirstWithinSnoc(ms, cuts, next.value, 0, target); }
  }

  lemma CutsSnoc(input: Input, safe: seq<bool>, n: nat)
    requires |safe| == |input.messages| + 1 && 0 < n <= |LocateAll(input.messages, input.summaries)|
    ensures var ms, located, next := input.messages, LocateAll(input.messages, input.summaries), SummaryCut(input, safe, n - 1);
      var cuts := CutsOf(ms, safe, located[..n - 1]);
      CutsOf(ms, safe, located[..n]) == if next.Some? then cuts + [next.value] else cuts
  {
    var located := LocateAll(input.messages, input.summaries);
    hide LocateAll, CutThrough;
    assert located[..n][..n - 1] == located[..n - 1] && located[..n][n - 1] == located[n - 1];
  }

  lemma BaseOfNone(input: Input, safe: seq<bool>)
    requires |safe| == |input.messages| + 1
    ensures SummaryChoice(input, safe, 0, BaseUpTo(input, safe, 0))
  {
    hide LocateAll;
  }

  lemma {:induction false} SummaryIsChosen(input: Input, safe: seq<bool>, n: nat)
    requires |safe| == |input.messages| + 1 && n <= |LocateAll(input.messages, input.summaries)|
    ensures SummaryChoice(input, safe, n, BaseUpTo(input, safe, n))
    decreases n
  {
    hide *;
    if n == 0 {
      BaseOfNone(input, safe);
    } else {
      SummaryIsChosen(input, safe, n - 1);
      BaseStep(input, safe, n);
      OneMoreSummary(input, safe, n, BaseUpTo(input, safe, n - 1), SummaryCut(input, safe, n - 1));
    }
  }

  lemma OneMoreSummary(input: Input, safe: seq<bool>, n: nat, before: Option<Cut>, next: Option<Cut>)
    requires |safe| == |input.messages| + 1 && n > 0 && SummaryChoice(input, safe, n - 1, before)
    requires next == SummaryCut(input, safe, n - 1)
    ensures SummaryChoice(input, safe, n,
      if next.None? || (before.Some? && Within(input, before.value)) then before else next)
  {
    hide SummaryCut, Within;
    if before.Some? {
      var i :| SummaryCut(input, safe, i) == before
        && (FirstSummaryWithin(input, safe, n - 1, i) || LastSummary(input, safe, n - 1, i));
      if Within(input, before.value) {
        assert FirstSummaryWithin(input, safe, n, i);
      } else if next.None? {
        assert LastSummary(input, safe, n, i);
      } else {
        assert FirstSummaryWithin(input, safe, n, n - 1) || LastSummary(input, safe, n, n - 1);
      }
    } else if next.Some? {
      assert FirstSummaryWithin(input, safe, n, n - 1) || LastSummary(input, safe, n, n - 1);
    }
  }

  lemma {:induction false} FurtherIsChosen(input: Input, safe: seq<bool>, cut: Option<Cut>, i: nat, latest: Option<Cut>)
    requires |safe| == |input.messages| + 1 && i <= |input.messages|
    requires latest.Some? ==> CutThrough(input.messages, safe, latest.value.id) == latest
    ensures FurtherChoice(input, safe, cut, i, latest,
                          Further(input.messages, safe, cut, i, input.contextLimit / TAIL_DIVISOR, latest))
    decreases |input.messages| - i
  {
    var target := input.contextLimit / TAIL_DIVISOR;
    hide *;
    if i == |input.messages| {
      FurtherEnds(input, safe, cut, latest);
    } else {
      FurtherStep(input, safe, cut, i, latest);
      var next := FurtherCut(input, safe, cut, i);
      if next.Some? && Within(input, next.value) {
        FurtherFound(input, safe, cut, i, latest);
      } else {
        var later := if next.Some? then next else latest;
        FurtherIsChosen(input, safe, cut, i + 1, later);
        FurtherExtends(input, safe, cut, i, latest,
                       Further(input.messages, safe, cut, i + 1, target, later));
      }
    }
  }

  lemma FurtherEnds(input: Input, safe: seq<bool>, cut: Option<Cut>, latest: Option<Cut>)
    requires |safe| == |input.messages| + 1
    requires latest.Some? ==> CutThrough(input.messages, safe, latest.value.id) == latest
    ensures FurtherChoice(input, safe, cut, |input.messages|, latest,
                          Further(input.messages, safe, cut, |input.messages|, input.contextLimit / TAIL_DIVISOR, latest))
  {
    hide CutThrough, Suffix, FurtherCut, Within;
  }

  lemma FurtherFound(input: Input, safe: seq<bool>, cut: Option<Cut>, i: nat, latest: Option<Cut>)
    requires |safe| == |input.messages| + 1 && i < |input.messages|
    requires FurtherCut(input, safe, cut, i).Some? && Within(input, FurtherCut(input, safe, cut, i).value)
    ensures FurtherChoice(input, safe, cut, i, latest, FurtherCut(input, safe, cut, i))
  {
    hide FurtherCut, Within;
    assert NoneWithin(input, safe, cut, i, i);
  }

  /** One step of the search. */
  lemma FurtherStep(input: Input, safe: seq<bool>, cut: Option<Cut>, i: nat, latest: Option<Cut>)
    requires |safe| == |input.messages| + 1 && i < |input.messages|
    requires latest.Some? ==> CutThrough(input.messages, safe, latest.value.id) == latest
    ensures var target, next := input.contextLimit / TAIL_DIVISOR, FurtherCut(input, safe, cut, i);
      && (next.Some? ==> CutThrough(input.messages, safe, next.value.id) == next)
      && Further(input.messages, safe, cut, i, target, latest)
         == if next.Some? && Within(input, next.value) then next
            else Further(input.messages, safe, cut, i + 1, target, if next.Some? then next else latest)
  {
    hide Suffix;
  }

  lemma FurtherExtends(input: Input, safe: seq<bool>, cut: Option<Cut>, i: nat, latest: Option<Cut>, r: Option<Cut>)
    requires |safe| == |input.messages| + 1 && i < |input.messages|
    requires var next := FurtherCut(input, safe, cut, i);
      && (next.Some? ==> !Within(input, next.value))
      && FurtherChoice(input, safe, cut, i + 1, if next.Some? then next else latest, r)
    ensures FurtherChoice(input, safe, cut, i, latest, r)
  {
    hide FurtherCut, Within;
    var n := |input.messages|;
    var next := FurtherCut(input, safe, cut, i);
    if k :| i + 1 <= k < n && r.Some? && FurtherCut(input, safe, cut, k) == r
            && Within(input, r.value) && NoneWithin(input, safe, cut, i + 1, k) {
      assert NoneWithin(input, safe, cut, i, k);
    } else {
      assert NoneWithin(input, safe, cut, i + 1, n);
      assert NoneWithin(input, safe, cut, i, n);
      if k :| i + 1 <= k < n && r.Some? && FurtherCut(input, safe, cut, k) == r
              && forall j :: k < j < n ==> FurtherCut(input, safe, cut, j).None? {
        assert i <= k;
      } else {
        assert forall j :: i + 1 <= j < n ==> FurtherCut(input, safe, cut, j).None?;
        if next.Some? { assert i <= i < n && FurtherCut(input, safe, cut, i) == r; }
      }
    }
  }

  /** The choice of the model beyond a summary's cut. */
  function Beyond(input: Input, safe: seq<bool>, base: Option<Cut>): Option<Cut>
    requires |safe| == |input.messages| + 1
  {
    var from := if base.Some? then base.value.through + 1 else 0;
    if from > |input.messages| then base
    else
      var r := Further(input.messages, safe, base, from, input.contextLimit / TAIL_DIVISOR, None);
      if r.Some? then r else base
  }

  lemma FireCutSteps(input: Input, safe: seq<bool>, base: Option<Cut>)
    requires |safe| == |input.messages| + 1
    requires base == FirstWithin(input.messages, CutsOf(input.messages, safe, LocateAll(input.messages, input.summaries)), 0,
                                 input.contextLimit / TAIL_DIVISOR)
    ensures base.Some? ==> base.value.start <= |input.messages| && base.value.through < |input.messages|
    ensures FireCut(input, safe)
         == if base.Some? && Fresh(input, base.value).estimated <= input.soft then base else Beyond(input, safe, base)
  {
    hide Further, FirstWithin, LocateAll, Suffix, CandidateFor, WithAnchor, CutsOf, Positions;
  }

  lemma BaseOfAll(input: Input, safe: seq<bool>)
    requires |safe| == |input.messages| + 1
    ensures BaseUpTo(input, safe, |LocateAll(input.messages, input.summaries)|)
         == FirstWithin(input.messages, CutsOf(input.messages, safe, LocateAll(input.messages, input.summaries)), 0,
                        input.contextLimit / TAIL_DIVISOR)
  {
    hide LocateAll, FirstWithin, CutsOf;
    var located := LocateAll(input.messages, input.summaries);
    assert located[..|located|] == located;
  }

  lemma BeyondIsChosen(input: Input, safe: seq<bool>, base: Option<Cut>)
    requires |safe| == |input.messages| + 1 && (base.Some? ==> base.value.through < |input.messages|)
    ensures FurtherChoice(input, safe, base, if base.Some? then base.value.through + 1 else 0, base, Beyond(input, safe, base))
  {
    var from, target := if base.Some? then base.value.through + 1 else 0, input.contextLimit / TAIL_DIVISOR;
    hide Further, FurtherChoice;
    FurtherIsChosen(input, safe, base, from, None);
    FurtherWithout(input, safe, base, from, Further(input.messages, safe, base, from, target, None));
  }

  lemma FireCutIsChosen(input: Input, safe: seq<bool>)
    requires |safe| == |input.messages| + 1
    ensures Chosen(input, safe, FireCut(input, safe))
  {
    hide *;
    var n := |LocateAll(input.messages, input.summaries)|;
    var base := BaseUpTo(input, safe, n);
    SummaryIsChosen(input, safe, n);
    BaseOfAll(input, safe);
    FireCutSteps(input, safe, base);
    BeyondIsChosen(input, safe, base);
    ChosenBy(input, safe, base, FireCut(input, safe), Beyond(input, safe, base));
  }

  lemma ChosenBy(input: Input, safe: seq<bool>, base: Option<Cut>, cut: Option<Cut>, r: Option<Cut>)
    requires |safe| == |input.messages| + 1 && (base.Some? ==> base.value.start <= |input.messages|)
    requires SummaryChoice(input, safe, |LocateAll(input.messages, input.summaries)|, base)
    requires FurtherChoice(input, safe, base, if base.Some? then base.value.through + 1 else 0, base, r)
    requires cut == if base.Some? && Fresh(input, base.value).estimated <= input.soft then base else r
    ensures Chosen(input, safe, cut)
  {
    hide SummaryChoice, FurtherChoice, LocateAll, Fresh;
    assert ChosenFrom(input, safe, base, cut);
  }

  /** A search that finds nothing leaves the summary's cut. */
  lemma FurtherWithout(input: Input, safe: seq<bool>, base: Option<Cut>, from: nat, r: Option<Cut>)
    requires |safe| == |input.messages| + 1 && FurtherChoice(input, safe, base, from, None, r)
    ensures FurtherChoice(input, safe, base, from, base, if r.Some? then r else base)
  {
    hide FurtherCut, Within;
  }

  // ----- the modes -----

  /** The request that keeps the stored cut. */
  function Kept(input: Input, safe: seq<bool>): Option<Candidate>
    requires |safe| == |input.messages| + 1
  {
    if input.projectedThrough.None? then None
    else
      var previous := CutThrough(input.messages, safe, input.projectedThrough.value);
      if previous.None? then None
      else Some(CandidateFor(input, Some(WithAnchor(input.messages, previous.value, input.projectedAnchor)), previous.value.start, true))
  }

  /** The request that sends everything. */
  function Everything(input: Input): Candidate {
    CandidateFor(input, None, 0, true)
  }

  predicate KeptFits(input: Input, safe: seq<bool>)
    requires |safe| == |input.messages| + 1
  {
    Kept(input, safe).Some? && Kept(input, safe).value.estimated <= input.soft
  }

  /** Nothing is archived afresh: everything fits, there is too little to archive,
      there is no cut, or archiving would be over the hard budget and everything not. */
  predicate NotFired(input: Input, cut: Option<Cut>)
    requires cut.Some? ==> cut.value.start <= |input.messages|
  {
    || Everything(input).estimated <= input.soft || |input.messages| < 2 || cut.None?
    || (Fresh(input, cut.value).estimated > input.hard && Everything(input).estimated <= input.hard)
  }

  ghost predicate Decided(input: Input, safe: seq<bool>, cut: Option<Cut>, o: Outcome)
    requires |safe| == |input.messages| + 1 && (cut.Some? ==> cut.value.start <= |input.messages|)
  {
    && (o.mode == Mode.Kept <==> KeptFits(input, safe))
    && (o.mode == Raw <==> !KeptFits(input, safe) && NotFired(input, cut))
    && (o.mode == Fired <==> !KeptFits(input, safe) && !NotFired(input, cut))
    && (o.mode == Mode.Kept ==> o.candidate == FitOf(input, safe, Kept(input, safe).value))
    && (o.mode == Raw ==> o.candidate == FitOf(input, safe, Everything(input)) && o.candidate.cut == None)
    && (o.mode == Fired ==>
          && o.candidate == FitOf(input, safe, Fresh(input, cut.value))
          && o.candidate.cut == Some(WithAnchor(input.messages, cut.value, Unknown))
          && ProjectedThrough(o) == Some(cut.value.id))
  }

  /** On every input: the stored cut is kept exactly if its request is within the soft
      budget; otherwise everything is sent in exactly the four cases above; otherwise
      the request archives through the chosen cut, which is stored. */
  lemma ModeIsDecided(input: Input) returns (cut: Option<Cut>)
    ensures cut.Some? ==> cut.value.start <= |input.messages|
    ensures Chosen(input, SafeStarts(input.messages), cut)
    ensures Decided(input, SafeStarts(input.messages), cut, Select(input))
  {
    var safe := SafeStarts(input.messages);
    assert |safe| == |input.messages| + 1;
    hide *;
    cut := FireCut(input, safe);
    FireCutIsChosen(input, safe);
    FireCutStarts(input, safe);
    SelectSteps(input);
    StepsDecide(input, safe, cut, Select(input));
  }

  lemma FireCutStarts(input: Input, safe: seq<bool>)
    requires |safe| == |input.messages| + 1
    ensures FireCut(input, safe).Some? ==> FireCut(input, safe).value.start <= |input.messages|
  {
    hide FireCut;
  }

  /** The order of the questions. */
  ghost predicate Steps(input: Input, safe: seq<bool>, cut: Option<Cut>, o: Outcome)
    requires |safe| == |input.messages| + 1 && (cut.Some? ==> cut.value.start <= |input.messages|)
  {
    o == if KeptFits(input, safe) then Outcome(FitOf(input, safe, Kept(input, safe).value), Mode.Kept)
         else if NotFired(input, cut) then Outcome(FitOf(input, safe, Everything(input)), Raw)
         else Outcome(FitOf(input, safe, Fresh(input, cut.value)), Fired)
  }

  /** Trimming, for any candidate. */
  function FitOf(input: Input, safe: seq<bool>, c: Candidate): Candidate
    requires |safe| == |input.messages| + 1
  {
    if c.request.start <= |input.messages| && (c.cut.Some? ==> c.cut.value.start <= c.request.start) then Fit(input, safe, c) else c
  }

  lemma SelectSteps(input: Input)
    ensures var safe := SafeStarts(input.messages);
      (FireCut(input, safe).Some? ==> FireCut(input, safe).value.start <= |input.messages|)
      && Steps(input, safe, FireCut(input, safe), Select(input))
  {
    var safe := SafeStarts(input.messages);
    FireCutStarts(input, safe);
    hide FireCut, SafeStarts, Suffix, Archive, Fit, NoticeFor, Positions, LatestUser;
    assert Kept(input, safe) == KeptCandidate(input, safe);
    KeptStarts(input, safe);
    var cut := FireCut(input, safe);
    CandidateKeeps(input, None, 0, true);
    if cut.Some? { CandidateKeeps(input, Some(WithAnchor(input.messages, cut.value, Unknown)), cut.value.start, false); }
    hide CandidateFor, KeptCandidate, Kept, CutThrough, WithAnchor;
  }

  lemma KeptStarts(input: Input, safe: seq<bool>)
    requires |safe| == |input.messages| + 1
    ensures Kept(input, safe).Some? ==>
      var c := Kept(input, safe).value; c.request.start <= |input.messages| && (c.cut.Some? ==> c.cut.value.start <= c.request.start)
  {
    hide Positions, LatestUser, Suffix, Archive;
  }

  lemma StepsDecide(input: Input, safe: seq<bool>, cut: Option<Cut>, o: Outcome)
    requires |safe| == |input.messages| + 1 && (cut.Some? ==> cut.value.start <= |input.messages|)
    requires Steps(input, safe, cut, o)
    ensures Decided(input, safe, cut, o)
  {
    hide Fit, NotFired, KeptFits, NoticeFor, Suffix, LatestUser, Positions;
    KeptStarts(input, safe);
    CandidateKeeps(input, None, 0, true);
    FitKeepsCut(input, safe, Everything(input));
    if cut.Some? {
      CandidateKeeps(input, Some(WithAnchor(input.messages, cut.value, Unknown)), cut.value.start, false);
      FitKeepsCut(input, safe, Fresh(input, cut.value));
    }
    hide CandidateFor, Kept;
    NoCut(input, cut);
  }

  lemma NoCut(input: Input, cut: Option<Cut>)
    requires cut.Some? ==> cut.value.start <= |input.messages|
    ensures NotFired(input, cut) || cut.Some?
  {
  }

  lemma FitKeepsCut(input: Input, safe: seq<bool>, c: Candidate)
    requires |safe| == |input.messages| + 1 && c.request.start <= |input.messages|
    requires c.cut.Some? ==> c.cut.value.start <= c.request.start
    ensures Fit(input, safe, c).cut == c.cut
  {
    hide Suffix, NoticeFor;
    FitSize(input, safe, c);
  }

  /** No kept request fits, everything does not fit, and the first summary whose cut
      leaves a tail within the target gives a request within the soft budget: then the
      request archives through exactly this cut. */
  lemma FiresThroughEarliestSummary(input: Input, i: nat)
    requires !KeptFits(input, SafeStarts(input.messages))
    requires Everything(input).estimated > input.soft && |input.messages| >= 2 && input.soft <= input.hard
    requires FirstSummaryWithin(input, SafeStarts(input.messages), |LocateAll(input.messages, input.summaries)|, i)
    requires Fresh(input, SummaryCut(input, SafeStarts(input.messages), i).value).estimated <= input.soft
    ensures var cut := SummaryCut(input, SafeStarts(input.messages), i).value;
      && Select(input).mode == Fired
      && Select(input).candidate == Fresh(input, cut)
      && ProjectedThrough(Select(input)) == Some(cut.id)
  {
    var safe := SafeStarts(input.messages);
    var chosen := ModeIsDecided(input);
    var n := |LocateAll(input.messages, input.summaries)|;
    hide Select, LocateAll, SafeStarts, SummaryCut, Fresh, Everything, FurtherChoice, Within, KeptFits;
    var base: Option<Cut> :| SummaryChoice(input, safe, n, base) && (base.Some? ==> base.value.start <= |input.messages|)
      && ChosenFrom(input, safe, base, chosen);
    FirstDecides(input, safe, n, i, base);
    FitsAsItIs(input, safe, SummaryCut(input, safe, i).value);
  }

  /** If that request is over the soft budget, a later summary is no better: the
      request archives through the first message beyond whose cut leaves a tail within
      the target, unless it would be over the hard budget while everything is not. */
  lemma FiresBeyondSummary(input: Input, i: nat, k: nat)
    requires !KeptFits(input, SafeStarts(input.messages))
    requires Everything(input).estimated > input.soft && |input.messages| >= 2
    requires FirstSummaryWithin(input, SafeStarts(input.messages), |LocateAll(input.messages, input.summaries)|, i)
    requires var safe := SafeStarts(input.messages);
      var base := SummaryCut(input, safe, i);
      && Fresh(input, base.value).estimated > input.soft
      && base.value.through < k < |input.messages|
      && FurtherCut(input, safe, base, k).Some? && Within(input, FurtherCut(input, safe, base, k).value)
      && NoneWithin(input, safe, base, base.value.through + 1, k)
    ensures var safe := SafeStarts(input.messages);
      var cut := FurtherCut(input, safe, SummaryCut(input, safe, i), k).value;
      if Fresh(input, cut).estimated > input.hard && Everything(input).estimated <= input.hard then Select(input).mode == Raw
      else Select(input).mode == Fired && ProjectedThrough(Select(input)) == Some(cut.id)
  {
    var safe := SafeStarts(input.messages);
    var chosen := ModeIsDecided(input);
    hide Select, LocateAll, SafeStarts, SummaryCut, Fresh, Everything, FurtherCut, Within, NoneWithin, KeptFits, Chosen;
    ChosenBeyond(input, safe, i, k, chosen);
  }

  lemma ChosenBeyond(input: Input, safe: seq<bool>, i: nat, k: nat, chosen: Option<Cut>)
    requires |safe| == |input.messages| + 1 && Chosen(input, safe, chosen)
    requires FirstSummaryWithin(input, safe, |LocateAll(input.messages, input.summaries)|, i)
    requires var base := SummaryCut(input, safe, i);
      && Fresh(input, base.value).estimated > input.soft
      && base.value.through < k < |input.messages|
      && FurtherCut(input, safe, base, k).Some? && Within(input, FurtherCut(input, safe, base, k).value)
      && NoneWithin(input, safe, base, base.value.through + 1, k)
    ensures chosen == FurtherCut(input, safe, SummaryCut(input, safe, i), k)
  {
    var n := |LocateAll(input.messages, input.summaries)|;
    hide LocateAll, SummaryCut, Fresh, FurtherChoice, FurtherCut, Within, NoneWithin, SummaryChoice;
    var base: Option<Cut> :| SummaryChoice(input, safe, n, base) && (base.Some? ==> base.value.start <= |input.messages|)
      && ChosenFrom(input, safe, base, chosen);
    FirstDecides(input, safe, n, i, base);
    FurtherFirst(input, safe, base, base.value.through + 1, k, base, chosen);
  }

  lemma FurtherFirst(input: Input, safe: seq<bool>, cut: Option<Cut>, from: nat, k: nat, latest: Option<Cut>, r: Option<Cut>)
    requires |safe| == |input.messages| + 1 && from <= k < |input.messages| && FurtherChoice(input, safe, cut, from, latest, r)
    requires FurtherCut(input, safe, cut, k).Some? && Within(input, FurtherCut(input, safe, cut, k).value)
    requires NoneWithin(input, safe, cut, from, k)
    ensures r == FurtherCut(input, safe, cut, k)
  {
    hide FurtherCut, Within;
  }

  lemma FitsAsItIs(input: Input, safe: seq<bool>, cut: Cut)
    requires |safe| == |input.messages| + 1 && cut.start <= |input.messages| && Fresh(input, cut).estimated <= input.hard
    ensures FitOf(input, safe, Fresh(input, cut)) == Fresh(input, cut)
  {
    hide CandidateFor;
    CandidateKeeps(input, Some(WithAnchor(input.messages, cut, Unknown)), cut.start, false);
  }

  lemma FirstDecides(input: Input, safe: seq<bool>, n: nat, i: nat, base: Option<Cut>)
    requires |safe| == |input.messages| + 1 && FirstSummaryWithin(input, safe, n, i) && SummaryChoice(input, safe, n, base)
    ensures base == SummaryCut(input, safe, i)
  {
    hide SummaryCut, Within;
    assert base.Some?;
    var j: nat :| SummaryCut(input, safe, j) == base && (FirstSummaryWithin(input, safe, n, j) || LastSummary(input, safe, n, j));
    if FirstSummaryWithin(input, safe, n, j) { assert j == i; }
  }

  // ----- the choice is unique -----

  lemma SummaryChoiceIsUnique(input: Input, safe: seq<bool>, n: nat, a: Option<Cut>, b: Option<Cut>)
    requires |safe| == |input.messages| + 1 && SummaryChoice(input, safe, n, a) && SummaryChoice(input, safe, n, b)
    ensures a == b
  {
    hide SummaryCut, Within;
    if a.Some? && b.Some? {
      var i :| SummaryCut(input, safe, i) == a && (FirstSummaryWithin(input, safe, n, i) || LastSummary(input, safe, n, i));
      var j :| SummaryCut(input, safe, j) == b && (FirstSummaryWithin(input, safe, n, j) || LastSummary(input, safe, n, j));
      assert i == j;
    }
  }

  lemma FurtherChoiceIsUnique(input: Input, safe: seq<bool>, cut: Option<Cut>, i: nat, latest: Option<Cut>, a: Option<Cut>, b: Option<Cut>)
    requires |safe| == |input.messages| + 1
    requires FurtherChoice(input, safe, cut, i, latest, a) && FurtherChoice(input, safe, cut, i, latest, b)
    ensures a == b
  {
    hide FurtherCut, Within;
  }

  /** There is one cut to choose. */
  lemma ChosenIsUnique(input: Input, safe: seq<bool>, a: Option<Cut>, b: Option<Cut>)
    requires |safe| == |input.messages| + 1 && Chosen(input, safe, a) && Chosen(input, safe, b)
    ensures a == b
  {
    hide SummaryChoice, FurtherChoice, Fresh;
    var n := |LocateAll(input.messages, input.summaries)|;
    var x: Option<Cut> :| SummaryChoice(input, safe, n, x) && (x.Some? ==> x.value.start <= |input.messages|)
      && ChosenFrom(input, safe, x, a);
    var y: Option<Cut> :| SummaryChoice(input, safe, n, y) && (y.Some? ==> y.value.start <= |input.messages|)
      && ChosenFrom(input, safe, y, b);
    SummaryChoiceIsUnique(input, safe, n, x, y);
    if !(x.Some? && Fresh(input, x.value).estimated <= input.soft) {
      FurtherChoiceIsUnique(input, safe, x, if x.Some? then x.value.through + 1 else 0, x, a, b);
    }
  }
}
