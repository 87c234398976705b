/** Descriptions and aliases are decided in order, each on what stands before it. */
module PromptOrder {
  import opened Wrappers
  import opened AsciiJson
  import opened Batching
  import opened PromptBudget
  import opened PromptTheorems

  /** The finished prompt as far as candidate c of mention m, and bare from there on. */
  function Before(r: Prompt, mentions: Mentions, m: nat, c: nat): Prompt
    requires Matches(r, mentions) && m < |r| && c <= |r[m]|
  {
    r[..m] + [r[m][..c] + BareMention(mentions[m])[c..]] + BarePrompt(mentions)[m + 1..]
  }

  // ----- edits stay where they are made -----

  lemma TryOnly(prompt: Prompt, m: nat, c: nat, p: Projected)
    requires Inside(prompt, m, c)
    ensures OnlyAt(prompt, Try(prompt, m, c, p), m, c)
  {
    hide Size;
    OnlyAtSame(prompt, m, c);
  }

  lemma {:induction false} AliasesOnly(prompt: Prompt, m: nat, c: nat, offers: seq<Text>)
    requires Inside(prompt, m, c)
    ensures OnlyAt(prompt, AddAliases(prompt, m, c, offers), m, c)
    decreases |offers|
  {
    if offers == [] {
      OnlyAtSame(prompt, m, c);
    } else {
      var n := |offers| - 1;
      AliasesOnly(prompt, m, c, offers[..n]);
      var before := AddAliases(prompt, m, c, offers[..n]);
      hide Size, Try, AddAliases, Replace;
      if offers[n] == [] {
        OnlyAtSame(before, m, c);
      } else {
        TryOnly(before, m, c, before[m][c].(aliases := before[m][c].aliases + [offers[n]]));
      }
      OnlyAtOn(prompt, before, AddAlias(before, m, c, offers[n]), m, c);
    }
  }

  lemma CandidateOnly(prompt: Prompt, m: nat, c: nat, source: Candidate)
    requires Inside(prompt, m, c)
    ensures OnlyAt(prompt, AddCandidate(prompt, m, c, source), m, c)
  {
    var description := Truncate(source.description, MAX_DESCRIPTION_BYTES);
    hide Truncate, Offers, Try, Size, AddAliases, Replace;
    TryOnly(prompt, m, c, prompt[m][c].(description := description));
    AliasesOnly(AddDescription(prompt, m, c, description), m, c, Offers(source));
    OnlyAtOn(prompt, AddDescription(prompt, m, c, description), AddCandidate(prompt, m, c, source), m, c);
  }

  /** Candidates from c on, and the other mentions, are as they were; those before c as
      they were after their own turn. */
  predicate KeptBehind(prompt: Prompt, r: Prompt, m: nat, c: nat) {
    && OnlyMention(prompt, r, m) && |r[m]| == |prompt[m]| && c <= |r[m]|
    && r[m][c..] == prompt[m][c..]
  }

  /** One candidate more. */
  lemma MentionStepKept(prompt: Prompt, m: nat, k: nat, sources: seq<Candidate>)
    requires m < |prompt| && k < |sources| == |prompt[m]|
    requires KeptBehind(prompt, AddMention(prompt, m, k, sources), m, k)
    ensures var before, next := AddMention(prompt, m, k, sources), AddMention(prompt, m, k + 1, sources);
      KeptBehind(prompt, next, m, k + 1) && k <= |before[m]| && next[m][..k] == before[m][..k]
  {
    AddMentionStep(prompt, m, k, sources);
    var before := AddMention(prompt, m, k, sources);
    hide AddMention, AddCandidate, Replace, KeptBehind;
    CandidateOnly(before, m, k, sources[k]);
    OneKeptBehind(prompt, before, AddCandidate(before, m, k, sources[k]), m, k);
  }

  lemma NoneKept(prompt: Prompt, m: nat, sources: seq<Candidate>)
    requires m < |prompt| && |sources| == |prompt[m]|
    ensures KeptBehind(prompt, AddMention(prompt, m, 0, sources), m, 0)
  {
  }

  lemma {:induction false} MentionOnly(prompt: Prompt, m: nat, k: nat, sources: seq<Candidate>)
    requires m < |prompt| && k <= |sources| == |prompt[m]|
    ensures KeptBehind(prompt, AddMention(prompt, m, k, sources), m, k)
    decreases k
  {
    hide *;
    if k == 0 {
      NoneKept(prompt, m, sources);
    } else {
      MentionOnly(prompt, m, k - 1, sources);
      MentionStepKept(prompt, m, k - 1, sources);
    }
  }

  lemma OneKeptBehind(prompt: Prompt, before: Prompt, r: Prompt, m: nat, c: nat)
    requires KeptBehind(prompt, before, m, c) && Inside(before, m, c) && OnlyAt(before, r, m, c)
    ensures KeptBehind(prompt, r, m, c + 1)
    ensures r[m][..c] == before[m][..c]
  {
    assert r[m] == before[m][c := r[m][c]];
    hide OnlyAt, Replace;
    assert r[m][c + 1..] == before[m][c..][1..] == prompt[m][c..][1..] == prompt[m][c + 1..];
  }

  /** Both have mention m, and agree on its first c candidates. */
  predicate SameFirst(a: Prompt, b: Prompt, m: nat, c: nat) {
    m < |a| && m < |b| && c <= |a[m]| && c <= |b[m]| && b[m][..c] == a[m][..c]
  }

  lemma SameFirstOn(a: Prompt, b: Prompt, d: Prompt, m: nat, c: nat, k: nat)
    requires SameFirst(a, b, m, c) && SameFirst(b, d, m, k) && c <= k
    ensures SameFirst(a, d, m, c)
  {
    assert d[m][..c] == d[m][..k][..c] == b[m][..k][..c] == b[m][..c];
  }

  /** A longer pass through a mention leaves the earlier candidates alone. */
  lemma {:induction false} MentionExtends(prompt: Prompt, m: nat, c: nat, k: nat, sources: seq<Candidate>)
    requires m < |prompt| && c <= k <= |sources| == |prompt[m]|
    ensures SameFirst(AddMention(prompt, m, c, sources), AddMention(prompt, m, k, sources), m, c)
    decreases k
  {
    hide *;
    MentionOnly(prompt, m, c, sources);
    if k == c {
      FirstOfSame(prompt, AddMention(prompt, m, c, sources), m, c);
    } else {
      MentionExtends(prompt, m, c, k - 1, sources);
      MentionOnly(prompt, m, k - 1, sources);
      MentionStepKept(prompt, m, k - 1, sources);
      NextIsSame(prompt, AddMention(prompt, m, k - 1, sources), AddMention(prompt, m, k, sources), m, k - 1);
      SameFirstOn(AddMention(prompt, m, c, sources), AddMention(prompt, m, k - 1, sources), AddMention(prompt, m, k, sources), m, c, k - 1);
    }
  }

  lemma FirstOfSame(prompt: Prompt, r: Prompt, m: nat, c: nat)
    requires KeptBehind(prompt, r, m, c)
    ensures SameFirst(r, r, m, c)
  {
  }

  lemma NextIsSame(prompt: Prompt, before: Prompt, next: Prompt, m: nat, k: nat)
    requires KeptBehind(prompt, before, m, k) && KeptBehind(prompt, next, m, k + 1)
    requires k <= |before[m]| && next[m][..k] == before[m][..k]
    ensures SameFirst(before, next, m, k)
  {
  }

  /** A pass through mention n changes no other. */
  lemma MentionsStep(prompt: Prompt, n: nat, mentions: Mentions)
    requires Matches(prompt, mentions) && n < |mentions|
    ensures var before, r := AddMentions(prompt, n, mentions), AddMentions(prompt, n + 1, mentions);
      |before| == |r| == |prompt| && r[..n] == before[..n] && r[n + 1..] == before[n + 1..]
  {
    hide *;
    MentionsUnfold(prompt, n, mentions);
    MentionOnly(AddMentions(prompt, n, mentions), n, |mentions[n]|, mentions[n]);
    OthersStay(AddMentions(prompt, n, mentions), AddMentions(prompt, n + 1, mentions), n, |mentions[n]|);
  }

  lemma OthersStay(before: Prompt, r: Prompt, n: nat, k: nat)
    requires KeptBehind(before, r, n, k)
    ensures n < |before| == |r| && r[..n] == before[..n] && r[n + 1..] == before[n + 1..]
  {
  }

  /** After k mentions and after more of them: the first k agree, and behind them the
      shorter pass has changed nothing. */
  predicate MentionsKept(prompt: Prompt, a: Prompt, b: Prompt, k: nat) {
    k <= |a| == |b| == |prompt| && b[..k] == a[..k] && a[k..] == prompt[k..]
  }

  lemma KeptFirst(prompt: Prompt, a: Prompt, b: Prompt, d: Prompt, k: nat, n: nat)
    requires MentionsKept(prompt, a, b, k) && k <= n <= |b| == |d| && d[..n] == b[..n]
    ensures MentionsKept(prompt, a, d, k)
  {
    assert d[..k] == d[..n][..k] == b[..n][..k] == b[..k];
  }

  lemma KeptNext(prompt: Prompt, before: Prompt, r: Prompt, n: nat)
    requires MentionsKept(prompt, before, before, n) && n < |before| == |r| && r[n + 1..] == before[n + 1..]
    ensures MentionsKept(prompt, r, r, n + 1)
  {
    assert r[n + 1..] == before[n..][1..] == prompt[n..][1..];
  }

  lemma NoMentions(prompt: Prompt, mentions: Mentions)
    requires Matches(prompt, mentions)
    ensures var r := AddMentions(prompt, 0, mentions); MentionsKept(prompt, r, r, 0)
  {
  }

  lemma {:induction false} MentionsOnly(prompt: Prompt, k: nat, n: nat, mentions: Mentions)
    requires Matches(prompt, mentions) && k <= n <= |mentions|
    ensures MentionsKept(prompt, AddMentions(prompt, k, mentions), AddMentions(prompt, n, mentions), k)
    decreases n
  {
    hide *;
    if n == 0 {
      NoMentions(prompt, mentions);
    } else {
      MentionsStep(prompt, n - 1, mentions);
      MentionsUnfold(prompt, n - 1, mentions);
      if k < n {
        MentionsOnly(prompt, k, n - 1, mentions);
        KeptFirst(prompt, AddMentions(prompt, k, mentions), AddMentions(prompt, n - 1, mentions), AddMentions(prompt, n, mentions), k, n - 1);
      } else {
        MentionsOnly(prompt, n - 1, n - 1, mentions);
        KeptNext(prompt, AddMentions(prompt, n - 1, mentions), AddMentions(prompt, n, mentions), n - 1);
      }
    }
  }

  // ----- what the finished prompt says of earlier states -----

  /** The state in which the builder reaches candidate c of mention m. */
  function StateAt(mentions: Mentions, m: nat, c: nat): Prompt
    requires m < |mentions| && c <= |mentions[m]|
  {
    AddMention(AddMentions(BarePrompt(mentions), m, mentions), m, c, mentions[m])
  }

  lemma StateIsBefore(mentions: Mentions, m: nat, c: nat)
    requires m < |mentions| && c <= |mentions[m]|
    ensures Matches(Filled(mentions), mentions)
    ensures StateAt(mentions, m, c) == Before(Filled(mentions), mentions, m, c)
  {
    var bare, sources := BarePrompt(mentions), mentions[m];
    assert bare[m] == BareMention(sources);
    hide AddMentions, AddMention, BarePrompt, BareMention, KeptBehind, SameFirst;
    var start, done := AddMentions(bare, m, mentions), AddMentions(bare, m + 1, mentions);
    MentionsOnly(bare, m, |mentions|, mentions);
    MentionsOnly(bare, m + 1, |mentions|, mentions);
    MentionsUnfold(bare, m, mentions);
    assert start[m] == start[m..][0] == bare[m..][0] == BareMention(sources);
    MentionOnly(start, m, c, sources);
    MentionExtends(start, m, c, |sources|, sources);
    var r := Filled(mentions);
    assert r[m] == r[..m + 1][m] == done[..m + 1][m] == done[m];
    StatePieces(bare, start, done, r, StateAt(mentions, m, c), m, c, BareMention(sources));
  }

  lemma MentionsUnfold(prompt: Prompt, n: nat, mentions: Mentions)
    requires Matches(prompt, mentions) && n < |mentions|
    ensures var before := AddMentions(prompt, n, mentions);
      && Matches(before, mentions) && |before| == |prompt| && n < |before| && |before[n]| == |mentions[n]|
      && AddMentions(prompt, n + 1, mentions) == AddMention(before, n, |mentions[n]|, mentions[n])
  {
  }

  lemma StatePieces(bare: Prompt, start: Prompt, done: Prompt, r: Prompt, s: Prompt, m: nat, c: nat, mention: seq<Projected>)
    requires |bare| == |start| == |done| == |r| == |s| && m < |r|
    requires r[..m] == start[..m] && start[m..] == bare[m..] && start[m] == mention && r[m] == done[m]
    requires KeptBehind(start, s, m, c) && SameFirst(s, done, m, c)
    ensures c <= |r[m]| && s == r[..m] + [r[m][..c] + mention[c..]] + bare[m + 1..]
  {
    assert s[m] == s[m][..c] + s[m][c..];
    assert forall i :: 0 <= i < m ==> s[i] == start[i] == start[..m][i] == r[..m][i];
    assert forall i :: m < i < |s| ==> s[i] == start[i] == start[m..][i - m] == bare[m..][i - m];
  }

  lemma CandidateStays(mentions: Mentions, m: nat, c: nat)
    requires m < |mentions| && c < |mentions[m]|
    ensures Matches(Filled(mentions), mentions)
    ensures Inside(StateAt(mentions, m, c), m, c) && StateAt(mentions, m, c)[m][c] == Bare(mentions[m][c])
    ensures AddCandidate(StateAt(mentions, m, c), m, c, mentions[m][c])[m][c] == Filled(mentions)[m][c]
  {
    StateIsBefore(mentions, m, c);
    StateIsBefore(mentions, m, c + 1);
    var start := AddMentions(BarePrompt(mentions), m, mentions);
    AddMentionStep(start, m, c, mentions[m]);
    var r := Filled(mentions);
    hide AddMention, AddMentions, AddCandidate, Filled, BarePrompt;
    var s, next := StateAt(mentions, m, c), StateAt(mentions, m, c + 1);
    assert s[m] == r[m][..c] + BareMention(mentions[m])[c..];
    assert next[m] == r[m][..c + 1] + BareMention(mentions[m])[c + 1..];
    assert next[m][c] == r[m][..c + 1][c];
  }

  // ----- the decisions -----

  /** A description is shown exactly if it fits behind everything before it, with
      everything from there on bare. */
  lemma DescriptionIsDecided(mentions: Mentions, m: nat, c: nat)
    requires m < |mentions| && c < |mentions[m]|
    ensures Matches(Filled(mentions), mentions)
    ensures var r := Filled(mentions);
      var s, description := Before(r, mentions, m, c), Truncate(mentions[m][c].description, MAX_DESCRIPTION_BYTES);
      && Inside(s, m, c)
      && r[m][c].description
         == if Size(Replace(s, m, c, s[m][c].(description := description))) <= MAX_PAYLOAD_BYTES then description else []
  {
    StateIsBefore(mentions, m, c);
    CandidateStays(mentions, m, c);
    hide StateAt, Filled, Size, Before, Truncate, Offers;
    var s := StateAt(mentions, m, c);
    var description := Truncate(mentions[m][c].description, MAX_DESCRIPTION_BYTES);
    AliasesKeepDescription(AddDescription(s, m, c, description), m, c, Offers(mentions[m][c]));
  }

  lemma {:induction false} AliasesKeepDescription(prompt: Prompt, m: nat, c: nat, offers: seq<Text>)
    requires Inside(prompt, m, c)
    ensures var r := AddAliases(prompt, m, c, offers);
      r[m][c] == prompt[m][c].(aliases := r[m][c].aliases)
    decreases |offers|
  {
    if offers != [] {
      AliasesKeepDescription(prompt, m, c, offers[..|offers| - 1]);
      hide Size;
    }
  }

  /** The state in which the builder offers alias a of a candidate. */
  function AliasState(mentions: Mentions, m: nat, c: nat, a: nat): Prompt
    requires m < |mentions| && c < |mentions[m]| && a <= |Offers(mentions[m][c])|
    requires Inside(StateAt(mentions, m, c), m, c)
  {
    AddAliases(AddDescription(StateAt(mentions, m, c), m, c, Truncate(mentions[m][c].description, MAX_DESCRIPTION_BYTES)),
               m, c, Offers(mentions[m][c])[..a])
  }

  /** Aliases are decided one after another: an offer is added exactly if it is not empty
      and fits behind everything before it; the description and what came before stay. */
  lemma AliasIsDecided(mentions: Mentions, m: nat, c: nat, a: nat)
    requires m < |mentions| && c < |mentions[m]| && a < |Offers(mentions[m][c])|
    ensures Matches(Filled(mentions), mentions) && Inside(StateAt(mentions, m, c), m, c)
    ensures var before, after := AliasState(mentions, m, c, a), AliasState(mentions, m, c, a + 1);
      var offer := Offers(mentions[m][c])[a];
      && Inside(before, m, c)
      && before == Replace(Before(Filled(mentions), mentions, m, c), m, c, before[m][c])
      && before[m][c].description == Filled(mentions)[m][c].description
      && after[m][c].aliases
         == if offer != [] && Size(Replace(before, m, c, before[m][c].(aliases := before[m][c].aliases + [offer]))) <= MAX_PAYLOAD_BYTES
            then before[m][c].aliases + [offer] else before[m][c].aliases
    ensures AliasState(mentions, m, c, 0)[m][c].aliases == []
    ensures AliasState(mentions, m, c, |Offers(mentions[m][c])|)[m][c].aliases == Filled(mentions)[m][c].aliases
  {
    CandidateStays(mentions, m, c);
    StateIsBefore(mentions, m, c);
    var s, source, offers := StateAt(mentions, m, c), mentions[m][c], Offers(mentions[m][c]);
    var described := AddDescription(s, m, c, Truncate(source.description, MAX_DESCRIPTION_BYTES));
    assert offers[..a + 1][..a] == offers[..a] && offers[..|offers|] == offers && offers[..0] == [];
    hide StateAt, Filled, Size, Before, Truncate, Offers;
    TryOnly(s, m, c, s[m][c].(description := Truncate(source.description, MAX_DESCRIPTION_BYTES)));
    AliasesOnly(described, m, c, offers[..a]);
    OnlyAtOn(s, described, AddAliases(described, m, c, offers[..a]), m, c);
    AliasesKeepDescription(described, m, c, offers[..a]);
    AliasesKeepDescription(described, m, c, offers);
    hide OnlyAt;
  }
}
