/** The candidates of a prompt are within their budget and nothing that was left out
    would fit; candidates of a mention are told apart exactly by what is shown. */
module PromptTheorems {
  import opened Wrappers
  import opened AsciiJson
  import opened JsonScan
  import opened JsonTheorems
  import opened JsonMeaning
  import opened Batching
  import opened PromptBudget

  // ----- one candidate -----

  /** The offers that were kept. */
  function Kept(offers: seq<Text>, flags: seq<bool>): seq<Text>
    requires |flags| == |offers|
  {
    if offers == [] then []
    else
      var n := |offers| - 1;
      Kept(offers[..n], flags[..n]) + if flags[n] then [offers[n]] else []
  }

  /** An offer is kept, or empty, or does not fit behind the aliases that are there. */
  predicate OfferOk(offer: Text, flag: bool, p: Projected, size: nat) {
    if offer == [] then !flag else flag || size + AliasCost(p, offer) > MAX_PAYLOAD_BYTES
  }

  predicate AliasesOk(offers: seq<Text>, flags: seq<bool>, p: Projected, size: nat) {
    && |flags| == |offers|
    && p.aliases == Kept(offers, flags)
    && forall a :: 0 <= a < |offers| ==> OfferOk(offers[a], flags[a], p, size)
  }

  predicate DescriptionOk(c: Candidate, p: Projected, size: nat) {
    var description := Truncate(c.description, MAX_DESCRIPTION_BYTES);
    p.description == description
    || (p.description == [] && size + DescriptionCost(description) > MAX_PAYLOAD_BYTES)
  }

  ghost predicate Done(c: Candidate, p: Projected, size: nat) {
    && p.id == c.id && p.name == c.name
    && DescriptionOk(c, p, size)
    && exists flags :: AliasesOk(Offers(c), flags, p, size)
  }

  lemma DoneStays(c: Candidate, p: Projected, size: nat, more: nat)
    requires Done(c, p, size) && size <= more
    ensures Done(c, p, more)
  {
    hide Truncate, Offers, DescriptionCost, AliasCost, Kept;
    var flags :| AliasesOk(Offers(c), flags, p, size);
    assert forall a :: 0 <= a < |Offers(c)| ==> OfferOk(Offers(c)[a], flags[a], p, size);
    assert AliasesOk(Offers(c), flags, p, more);
  }

  // ----- edits -----

  /** Only candidate c of mention m differs. */
  predicate OnlyAt(prompt: Prompt, after: Prompt, m: nat, c: nat)
    requires Inside(prompt, m, c)
  {
    Inside(after, m, c) && after == Replace(prompt, m, c, after[m][c])
  }

  lemma OnlyAtOn(a: Prompt, b: Prompt, d: Prompt, m: nat, c: nat)
    requires Inside(a, m, c) && OnlyAt(a, b, m, c) && OnlyAt(b, d, m, c)
    ensures OnlyAt(a, d, m, c)
  {
    assert d == a[m := a[m][c := b[m][c]]][m := b[m][c := d[m][c]]];
    assert a[m][c := b[m][c]][c := d[m][c]] == a[m][c := d[m][c]];
  }

  lemma OnlyAtSame(prompt: Prompt, m: nat, c: nat)
    requires Inside(prompt, m, c)
    ensures OnlyAt(prompt, prompt, m, c)
  {
    assert prompt[m][c := prompt[m][c]] == prompt[m];
  }

  lemma AddDescriptionDone(prompt: Prompt, m: nat, c: nat, description: Text)
    requires Inside(prompt, m, c) && prompt[m][c].description == [] && Size(prompt) <= MAX_PAYLOAD_BYTES
    ensures var r := AddDescription(prompt, m, c, description);
      && OnlyAt(prompt, r, m, c) && Size(prompt) <= Size(r) <= MAX_PAYLOAD_BYTES
      && (r[m][c] == prompt[m][c].(description := description)
          || (r == prompt && Size(r) + DescriptionCost(description) > MAX_PAYLOAD_BYTES))
  {
    hide Size, DescriptionCost, CandidateBytes;
    var p := prompt[m][c].(description := description);
    ReplaceSize(prompt, m, c, p);
    DescriptionSize(prompt[m][c], description);
    OnlyAtSame(prompt, m, c);
    assert OnlyAt(prompt, Replace(prompt, m, c, p), m, c);
  }

  lemma AddAliasDone(prompt: Prompt, m: nat, c: nat, alias: Text)
    requires Inside(prompt, m, c) && Size(prompt) <= MAX_PAYLOAD_BYTES
    ensures var r := AddAlias(prompt, m, c, alias);
      && OnlyAt(prompt, r, m, c) && Size(prompt) <= Size(r) <= MAX_PAYLOAD_BYTES
      && ((alias != [] && r[m][c] == prompt[m][c].(aliases := prompt[m][c].aliases + [alias]))
          || (r == prompt && (alias == [] || Size(r) + AliasCost(prompt[m][c], alias) > MAX_PAYLOAD_BYTES)))
  {
    hide Size, AliasCost, CandidateBytes;
    var p := prompt[m][c].(aliases := prompt[m][c].aliases + [alias]);
    ReplaceSize(prompt, m, c, p);
    AliasSize(prompt[m][c], alias);
    OnlyAtSame(prompt, m, c);
    assert OnlyAt(prompt, Replace(prompt, m, c, p), m, c);
  }

  lemma KeptSnoc(offers: seq<Text>, flags: seq<bool>, offer: Text, flag: bool)
    requires |flags| == |offers|
    ensures Kept(offers + [offer], flags + [flag]) == Kept(offers, flags) + if flag then [offer] else []
  {
    assert (offers + [offer])[..|offers|] == offers && (flags + [flag])[..|offers|] == flags;
  }

  lemma AliasesGrow(offers: seq<Text>, flags: seq<bool>, p: Projected, size: nat, offer: Text, flag: bool, q: Projected, more: nat)
    requires AliasesOk(offers, flags, p, size) && size <= more
    requires q == if flag then p.(aliases := p.aliases + [offer]) else p
    requires OfferOk(offer, flag, q, more)
    ensures AliasesOk(offers + [offer], flags + [flag], q, more)
  {
    var allOffers, allFlags := offers + [offer], flags + [flag];
    KeptSnoc(offers, flags, offer, flag);
    hide AsciiBytes, StringText, Kept;
    forall a | 0 <= a < |allOffers| ensures OfferOk(allOffers[a], allFlags[a], q, more) {
      if a < |offers| { assert OfferOk(offers[a], flags[a], p, size); }
    }
  }

  /** The aliases of candidate c are settled after these offers; nothing else changed. */
  predicate AliasesAdded(prompt: Prompt, r: Prompt, m: nat, c: nat, offers: seq<Text>, flags: seq<bool>)
    requires Inside(prompt, m, c)
  {
    && OnlyAt(prompt, r, m, c) && Size(prompt) <= Size(r) <= MAX_PAYLOAD_BYTES
    && r[m][c] == prompt[m][c].(aliases := r[m][c].aliases)
    && AliasesOk(offers, flags, r[m][c], Size(r))
  }

  lemma OneMoreAlias(prompt: Prompt, before: Prompt, m: nat, c: nat, offers: seq<Text>, flags: seq<bool>, offer: Text)
    returns (flag: bool)
    requires Inside(prompt, m, c) && AliasesAdded(prompt, before, m, c, offers, flags)
    ensures AliasesAdded(prompt, AddAlias(before, m, c, offer), m, c, offers + [offer], flags + [flag])
  {
    var r := AddAlias(before, m, c, offer);
    AddAliasDone(before, m, c, offer);
    OnlyAtOn(prompt, before, r, m, c);
    hide AddAlias, Size, AliasCost, Replace, AliasesOk;
    flag := r[m][c] != before[m][c];
    assert r == before ==> !flag;
    AliasesGrow(offers, flags, before[m][c], Size(before), offer, flag, r[m][c], Size(r));
  }

  lemma {:induction false} AddAliasesDone(prompt: Prompt, m: nat, c: nat, offers: seq<Text>) returns (flags: seq<bool>)
    requires Inside(prompt, m, c) && prompt[m][c].aliases == [] && Size(prompt) <= MAX_PAYLOAD_BYTES
    ensures AliasesAdded(prompt, AddAliases(prompt, m, c, offers), m, c, offers, flags)
    decreases |offers|
  {
    if offers == [] {
      flags := [];
      OnlyAtSame(prompt, m, c);
    } else {
      var n := |offers| - 1;
      assert offers[..n] + [offers[n]] == offers;
      hide AddAlias, Size, AliasesAdded;
      flags := AddAliasesDone(prompt, m, c, offers[..n]);
      var flag := OneMoreAlias(prompt, AddAliases(prompt, m, c, offers[..n]), m, c, offers[..n], flags, offers[n]);
      flags := flags + [flag];
    }
  }

  lemma AddCandidateDone(prompt: Prompt, m: nat, c: nat, source: Candidate)
    requires Inside(prompt, m, c) && prompt[m][c] == Bare(source) && Size(prompt) <= MAX_PAYLOAD_BYTES
    ensures var r := AddCandidate(prompt, m, c, source);
      OnlyAt(prompt, r, m, c) && Size(prompt) <= Size(r) <= MAX_PAYLOAD_BYTES && Done(source, r[m][c], Size(r))
  {
    var description := Truncate(source.description, MAX_DESCRIPTION_BYTES);
    var middle := AddDescription(prompt, m, c, description);
    hide Size, AddDescription, AddAliases, AliasCost, DescriptionCost, Truncate, AliasesOk, Offers, Replace;
    AddDescriptionDone(prompt, m, c, description);
    var flags := AddAliasesDone(middle, m, c, Offers(source));
    OnlyAtOn(prompt, middle, AddCandidate(prompt, m, c, source), m, c);
  }

  // ----- all candidates -----

  ghost predicate MentionDone(ps: seq<Projected>, sources: seq<Candidate>, k: nat, size: nat) {
    && |ps| == |sources|
    && forall j :: 0 <= j < |ps| ==> if j < k then Done(sources[j], ps[j], size) else ps[j] == Bare(sources[j])
  }

  lemma MentionStays(ps: seq<Projected>, sources: seq<Candidate>, k: nat, size: nat, more: nat)
    requires MentionDone(ps, sources, k, size) && size <= more
    ensures MentionDone(ps, sources, k, more)
  {
    hide Done;
    forall j | 0 <= j < |ps| && j < k ensures Done(sources[j], ps[j], more) {
      DoneStays(sources[j], ps[j], size, more);
    }
  }

  /** Only mention m differs. */
  predicate OnlyMention(prompt: Prompt, after: Prompt, m: nat) {
    m < |prompt| == |after| && forall i :: 0 <= i < |prompt| && i != m ==> after[i] == prompt[i]
  }

  /** The first k candidates of mention m are settled; nothing else changed. */
  ghost predicate MentionAdded(prompt: Prompt, r: Prompt, m: nat, k: nat, sources: seq<Candidate>) {
    && OnlyMention(prompt, r, m) && Size(prompt) <= Size(r) <= MAX_PAYLOAD_BYTES
    && MentionDone(r[m], sources, k, Size(r))
  }

  lemma OneMoreCandidate(prompt: Prompt, before: Prompt, m: nat, k: nat, sources: seq<Candidate>)
    requires m < |prompt| && k < |sources| == |prompt[m]| && MentionAdded(prompt, before, m, k, sources)
    requires m < |before| && k < |before[m]|
    ensures MentionAdded(prompt, AddCandidate(before, m, k, sources[k]), m, k + 1, sources)
  {
    var r := AddCandidate(before, m, k, sources[k]);
    assert before[m][k] == Bare(sources[k]);
    hide Size, AddCandidate, Done, Replace;
    AddCandidateDone(before, m, k, sources[k]);
    hide MentionDone, OnlyMention, OnlyAt, Bare;
    MoreDone(before, r, m, k, sources, Size(before), Size(r));
    OnlyMentionOn(prompt, before, r, m);
  }

  lemma MoreDone(before: Prompt, r: Prompt, m: nat, k: nat, sources: seq<Candidate>, size: nat, more: nat)
    requires Inside(before, m, k) && OnlyAt(before, r, m, k) && |before[m]| == |sources| && size <= more
    requires MentionDone(before[m], sources, k, size) && Done(sources[k], r[m][k], more)
    ensures OnlyMention(before, r, m) && MentionDone(r[m], sources, k + 1, more)
  {
    hide Done;
    assert r[m] == before[m][k := r[m][k]];
    MentionStays(before[m], sources, k, size, more);
    hide OnlyAt, Replace;
  }

  lemma OnlyMentionOn(a: Prompt, b: Prompt, d: Prompt, m: nat)
    requires OnlyMention(a, b, m) && OnlyMention(b, d, m)
    ensures OnlyMention(a, d, m)
  {
  }

  lemma {:induction false} AddMentionDone(prompt: Prompt, m: nat, k: nat, sources: seq<Candidate>)
    requires m < |prompt| && k <= |sources| == |prompt[m]|
    requires prompt[m] == BareMention(sources) && Size(prompt) <= MAX_PAYLOAD_BYTES
    ensures MentionAdded(prompt, AddMention(prompt, m, k, sources), m, k, sources)
    decreases k
  {
    hide *;
    if k == 0 {
      NoneAdded(prompt, m, sources);
    } else {
      AddMentionStep(prompt, m, k - 1, sources);
      AddMentionDone(prompt, m, k - 1, sources);
      OneMoreCandidate(prompt, AddMention(prompt, m, k - 1, sources), m, k - 1, sources);
    }
  }

  lemma NoneAdded(prompt: Prompt, m: nat, sources: seq<Candidate>)
    requires m < |prompt| && |sources| == |prompt[m]|
    requires prompt[m] == BareMention(sources) && Size(prompt) <= MAX_PAYLOAD_BYTES
    ensures MentionAdded(prompt, AddMention(prompt, m, 0, sources), m, 0, sources)
  {
    hide Size, Done;
  }

  lemma AddMentionStep(prompt: Prompt, m: nat, k: nat, sources: seq<Candidate>)
    requires m < |prompt| && k < |sources| == |prompt[m]|
    ensures var before := AddMention(prompt, m, k, sources);
      m < |before| && k < |before[m]| && AddMention(prompt, m, k + 1, sources) == AddCandidate(before, m, k, sources[k])
  {
  }

  ghost predicate AllDone(prompt: Prompt, mentions: Mentions, k: nat, size: nat) {
    && Matches(prompt, mentions)
    && forall i :: 0 <= i < |prompt| ==>
         if i < k then MentionDone(prompt[i], mentions[i], |mentions[i]|, size) else prompt[i] == BareMention(mentions[i])
  }

  /** The first k mentions are settled. */
  ghost predicate AllAdded(r: Prompt, mentions: Mentions, k: nat) {
    Size(r) <= MAX_PAYLOAD_BYTES && AllDone(r, mentions, k, Size(r))
  }

  lemma OneMoreMention(before: Prompt, k: nat, mentions: Mentions)
    requires k < |mentions| && AllAdded(before, mentions, k) && Matches(before, mentions)
    ensures AllAdded(AddMention(before, k, |mentions[k]|, mentions[k]), mentions, k + 1)
  {
    hide Size, AddMention, MentionDone;
    AddMentionDone(before, k, |mentions[k]|, mentions[k]);
    var r := AddMention(before, k, |mentions[k]|, mentions[k]);
    forall i | 0 <= i < k ensures MentionDone(r[i], mentions[i], |mentions[i]|, Size(r)) {
      MentionStays(before[i], mentions[i], |mentions[i]|, Size(before), Size(r));
    }
    forall i | 0 <= i < |r| ensures |r[i]| == |mentions[i]| { assert i != k ==> r[i] == before[i]; }
  }

  lemma {:induction false} AddMentionsDone(k: nat, mentions: Mentions)
    requires k <= |mentions| && Size(BarePrompt(mentions)) <= MAX_PAYLOAD_BYTES
    ensures AllAdded(AddMentions(BarePrompt(mentions), k, mentions), mentions, k)
    decreases k
  {
    if k == 0 {
      hide Size, MentionDone;
    } else {
      hide Size, BarePrompt, AddMention, AllAdded;
      AddMentionsDone(k - 1, mentions);
      OneMoreMention(AddMentions(BarePrompt(mentions), k - 1, mentions), k - 1, mentions);
    }
  }

  function Filled(mentions: Mentions): Prompt {
    AddMentions(BarePrompt(mentions), |mentions|, mentions)
  }

  /** The prompt is within its budget and each candidate shows all it can. */
  lemma FilledIsMaximal(mentions: Mentions)
    requires Size(BarePrompt(mentions)) <= MAX_PAYLOAD_BYTES
    ensures var r := Filled(mentions);
      && Size(r) <= MAX_PAYLOAD_BYTES && Matches(r, mentions)
      && forall m, c :: 0 <= m < |r| && 0 <= c < |r[m]| ==> Done(mentions[m][c], r[m][c], Size(r))
  {
    AddMentionsDone(|mentions|, mentions);
    var r := Filled(mentions);
    forall m, c | 0 <= m < |r| && 0 <= c < |r[m]| ensures Done(mentions[m][c], r[m][c], Size(r)) {
      assert MentionDone(r[m], mentions[m], |mentions[m]|, Size(r));
    }
  }

  /** A description that was left out does not fit into the finished prompt. */
  lemma DroppedDescriptionDoesNotFit(mentions: Mentions, m: nat, c: nat)
    requires Size(BarePrompt(mentions)) <= MAX_PAYLOAD_BYTES
    requires Matches(Filled(mentions), mentions) && Inside(Filled(mentions), m, c)
    requires Filled(mentions)[m][c].description != Truncate(mentions[m][c].description, MAX_DESCRIPTION_BYTES)
    ensures var r, description := Filled(mentions), Truncate(mentions[m][c].description, MAX_DESCRIPTION_BYTES);
      r[m][c].description == [] && Size(Replace(r, m, c, r[m][c].(description := description))) > MAX_PAYLOAD_BYTES
  {
    FilledIsMaximal(mentions);
    var r, description := Filled(mentions), Truncate(mentions[m][c].description, MAX_DESCRIPTION_BYTES);
    assert Done(mentions[m][c], r[m][c], Size(r));
    hide Size, DescriptionCost, Filled, Truncate, CandidateBytes;
    DescriptionSize(r[m][c], description);
    ReplaceSize(r, m, c, r[m][c].(description := description));
  }

  /** The aliases shown are the offered ones in order, but for those that do not
      fit into the finished prompt. */
  lemma DroppedAliasDoesNotFit(mentions: Mentions, m: nat, c: nat) returns (flags: seq<bool>)
    requires Size(BarePrompt(mentions)) <= MAX_PAYLOAD_BYTES
    requires Matches(Filled(mentions), mentions) && Inside(Filled(mentions), m, c)
    ensures var r, offers := Filled(mentions), Offers(mentions[m][c]);
      && |flags| == |offers| && r[m][c].aliases == Kept(offers, flags)
      && forall a :: 0 <= a < |offers| && !flags[a] && offers[a] != [] ==>
           Size(Replace(r, m, c, r[m][c].(aliases := r[m][c].aliases + [offers[a]]))) > MAX_PAYLOAD_BYTES
  {
    FilledIsMaximal(mentions);
    var r, offers := Filled(mentions), Offers(mentions[m][c]);
    assert Done(mentions[m][c], r[m][c], Size(r));
    hide Size, Filled, AliasCost, CandidateBytes, Offers, Kept;
    flags :| AliasesOk(offers, flags, r[m][c], Size(r));
    forall a | 0 <= a < |offers| && !flags[a] && offers[a] != []
      ensures Size(Replace(r, m, c, r[m][c].(aliases := r[m][c].aliases + [offers[a]]))) > MAX_PAYLOAD_BYTES
    {
      assert OfferOk(offers[a], flags[a], r[m][c], Size(r));
      AliasSize(r[m][c], offers[a]);
      ReplaceSize(r, m, c, r[m][c].(aliases := r[m][c].aliases + [offers[a]]));
    }
  }

  // ----- truncation -----

  /** A run from the front within a limit, which the next character would break. */
  predicate Longest(t: Text, r: Text, maximum: nat) {
    && r <= t && Utf8Length(r) <= maximum
    && Utf8Length(t) == Utf8Length(r) + Utf8Length(t[|r|..])
    && (r != t ==> Utf8Length(r) + Utf8Length(NextCharacter(t[|r|..])) > maximum)
  }

  function NextCharacter(t: Text): Text {
    if t == [] then [] else t[..FirstUnits(t)]
  }

  lemma LongestGrows(t: Text, r: Text, maximum: nat)
    requires t != [] && Utf8Length(NextCharacter(t)) <= maximum
    requires Longest(t[FirstUnits(t)..], r, maximum - Utf8Length(NextCharacter(t)))
    ensures Longest(t, NextCharacter(t) + r, maximum)
  {
    var first, rest := NextCharacter(t), t[FirstUnits(t)..];
    assert t == first + rest;
    FirstLength(t);
    FirstAndMore(t, r);
    hide Utf8Length, FirstUnits;
    assert rest == r + rest[|r|..];
    assert t[|first + r|..] == rest[|r|..];
    hide NextCharacter;
    assert r == rest ==> first + r == t;
  }

  /** What is kept is a whole number of characters from the front, within the limit,
      and one character more would not be. */
  lemma {:induction false} TruncateIsLongest(t: Text, maximum: nat)
    ensures Longest(t, Truncate(t, maximum), maximum)
    decreases |t|
  {
    if t != [] {
      var n := FirstUnits(t);
      if Utf8Length(t[..n]) <= maximum {
        TruncateIsLongest(t[n..], maximum - Utf8Length(t[..n]));
        LongestGrows(t, Truncate(t[n..], maximum - Utf8Length(t[..n])), maximum);
      } else {
        assert t[0..] == t;
      }
    }
  }

  lemma FirstLength(t: Text)
    requires t != []
    ensures Utf8Length(t) == Utf8Length(t[..FirstUnits(t)]) + Utf8Length(t[FirstUnits(t)..])
  {
    var first := t[..FirstUnits(t)];
    if FirstUnits(t) == 2 {
      assert first[2..] == [];
    } else {
      assert first[1..] == [];
    }
  }

  /** A first character stays one when whole characters follow it. */
  lemma FirstAndMore(t: Text, r: Text)
    requires t != [] && r <= t[FirstUnits(t)..]
    ensures Utf8Length(t[..FirstUnits(t)] + r) == Utf8Length(t[..FirstUnits(t)]) + Utf8Length(r)
  {
    var first := t[..FirstUnits(t)];
    var both := first + r;
    assert both <= t;
    assert FirstUnits(both) == FirstUnits(t);
    FirstLength(both);
    assert both[..FirstUnits(t)] == first && both[FirstUnits(t)..] == r;
  }

  // ----- telling candidates apart -----

  /** A quoted string ends where it ends, whatever follows. */
  lemma QuotedCut(a: Text, s: Text, b: Text, t: Text)
    requires StringOk(a) && StringOk(b) && Quoted(a) + s == Quoted(b) + t
    ensures a == b && s == t
  {
    QuotedIsExact([], a, s);
    QuotedIsExact([], b, t);
    assert [] + Quoted(a) + s == Quoted(a) + s && [] + Quoted(b) + t == Quoted(b) + t;
    hide FirstValue, StringOk;
    assert |Quoted(a)| == |Quoted(b)|;
    assert Quoted(a) == (Quoted(a) + s)[..|Quoted(a)|] == Quoted(b);
    assert a == Quoted(a)[1..|a| + 1] == b;
    assert s == (Quoted(a) + s)[|Quoted(a)|..] == t;
  }

  lemma StringCut(a: Text, s: Text, b: Text, t: Text)
    requires Ascii(StringText(a) + s) == Ascii(StringText(b) + t)
    ensures a == b && Ascii(s) == Ascii(t)
  {
    StringRoundTrip(a);
    StringRoundTrip(b);
    PrintedDecodes(a, 0);
    PrintedDecodes(b, 0);
    QuotedEscapes(PrintString(a));
    QuotedEscapes(PrintString(b));
    AsciiAppends(StringText(a), s);
    AsciiAppends(StringText(b), t);
    hide Ascii, Decode, PrintString, Quoted;
    QuotedCut(Ascii(PrintString(a)), Ascii(s), Ascii(PrintString(b)), Ascii(t));
  }

  lemma PrefixCut(p: Text, s: Text, t: Text)
    requires Ascii(p + s) == Ascii(p + t)
    ensures Ascii(s) == Ascii(t)
  {
    AsciiAppends(p, s);
    AsciiAppends(p, t);
    assert Ascii(s) == (Ascii(p) + Ascii(s))[|Ascii(p)|..];
    assert Ascii(t) == (Ascii(p) + Ascii(t))[|Ascii(p)|..];
  }

  /** Joined strings, read from the front. */
  lemma {:induction false} JoinedFront(items: seq<Text>)
    requires items != []
    ensures Joined(items) == if |items| == 1 then items[0] else items[0] + ([COMMA] + Joined(items[1..]))
  {
    var n := |items| - 1;
    if n == 1 {
      assert items[..1] == [items[0]] && items[1..] == [items[1]];
    } else if n > 1 {
      JoinedFront(items[..n]);
      var middle := items[..n][1..];
      assert items[1..] == middle + [items[n]] && items[1..][..n - 1] == middle;
      assert Joined(items[1..]) == Joined(middle) + [COMMA] + items[n];
    }
  }

  lemma FirstOfAscii(u: CodeUnit, t: Text)
    requires u <= 0x7f
    ensures Ascii([u] + t) == [u] + Ascii(t)
  {
    AsciiAppends([u], t);
    AsciiOfUnit(u);
  }

  lemma AsciiOfString(a: Text, t: Text)
    ensures Ascii(StringText(a) + t) != [] && Ascii(StringText(a) + t)[0] == QUOTE
  {
    hide Ascii;
    assert StringText(a) + t == [QUOTE] + (PrintString(a) + [QUOTE] + t);
    FirstOfAscii(QUOTE, PrintString(a) + [QUOTE] + t);
  }

  /** What follows the opening bracket of a list of strings. */
  function AfterBracket(strings: seq<Text>, rest: Text): Text {
    Joined(StringTexts(strings)) + ([CLOSE_BRACKET] + rest)
  }

  lemma AfterBracketFront(strings: seq<Text>, rest: Text)
    requires strings != []
    ensures AfterBracket(strings, rest) == StringText(strings[0])
      + Continues(strings, rest)
  {
    var texts, after := StringTexts(strings), [CLOSE_BRACKET] + rest;
    JoinedFront(texts);
    assert texts[1..] == StringTexts(strings[1..]) && texts[0] == StringText(strings[0]);
    hide Joined, StringText, StringTexts;
    if |strings| > 1 {
      Associate(texts[0], [COMMA] + Joined(texts[1..]), after);
      Associate([COMMA], Joined(texts[1..]), after);
    }
  }

  lemma FirstCut(a: seq<Text>, b: seq<Text>, rest: Text)
    requires a != [] && b != [] && Ascii(AfterBracket(a, rest)) == Ascii(AfterBracket(b, rest))
    ensures a[0] == b[0] && (|a| == 1 <==> |b| == 1)
    ensures |a| > 1 ==> Ascii(AfterBracket(a[1..], rest)) == Ascii(AfterBracket(b[1..], rest))
  {
    hide Ascii, AfterBracket, StringText;
    AfterBracketFront(a, rest);
    AfterBracketFront(b, rest);
    StringCut(a[0], Continues(a, rest), b[0], Continues(b, rest));
    ContinuesAs(a, rest);
    ContinuesAs(b, rest);
    if |a| > 1 { PrefixCut([COMMA], AfterBracket(a[1..], rest), AfterBracket(b[1..], rest)); }
  }

  lemma {:induction false} ListCut(a: seq<Text>, b: seq<Text>, rest: Text)
    requires Ascii(AfterBracket(a, rest)) == Ascii(AfterBracket(b, rest))
    ensures a == b
    decreases |a|
  {
    hide *;
    if a == [] || b == [] {
      EmptyCut(a, b, rest);
    } else {
      FirstCut(a, b, rest);
      if |a| == 1 {
        assert a == [a[0]] && b == [b[0]];
      } else {
        ListCut(a[1..], b[1..], rest);
        assert a == [a[0]] + a[1..] && b == [b[0]] + b[1..];
      }
    }
  }

  /** What follows the first string of a list. */
  function Continues(strings: seq<Text>, rest: Text): Text {
    if |strings| <= 1 then [CLOSE_BRACKET] + rest else [COMMA] + AfterBracket(strings[1..], rest)
  }

  lemma ContinuesAs(strings: seq<Text>, rest: Text)
    ensures var t := Ascii(Continues(strings, rest)); t != [] && t[0] == if |strings| <= 1 then CLOSE_BRACKET else COMMA
  {
    hide Ascii, AfterBracket;
    if |strings| <= 1 {
      FirstOfAscii(CLOSE_BRACKET, rest);
    } else {
      FirstOfAscii(COMMA, AfterBracket(strings[1..], rest));
    }
  }

  lemma EmptyCut(a: seq<Text>, b: seq<Text>, rest: Text)
    requires Ascii(AfterBracket(a, rest)) == Ascii(AfterBracket(b, rest)) && (a == [] || b == [])
    ensures a == b
  {
    hide Ascii;
    FirstOfAscii(CLOSE_BRACKET, rest);
    assert [] + ([CLOSE_BRACKET] + rest) == [CLOSE_BRACKET] + rest;
    if a != [] {
      AfterBracketFront(a, rest);
      AsciiOfString(a[0], Continues(a, rest));
    }
    if b != [] {
      AfterBracketFront(b, rest);
      AsciiOfString(b[0], Continues(b, rest));
    }
  }

  predicate Alike(a: Projected, b: Projected) {
    a.name == b.name && a.description == b.description && a.aliases == b.aliases
  }

  /** The identity texts of two candidates are equal exactly if both show the same. */
  lemma IdentityIsWhatIsShown(a: Projected, b: Projected)
    ensures Ascii(IdentityText(a)) == Ascii(IdentityText(b)) <==> Alike(a, b)
  {
    if Ascii(IdentityText(a)) == Ascii(IdentityText(b)) {
      hide Ascii, StringText, AfterBracket, Joined, ListText;
      var s := ALIASES + ListText(StringTexts(a.aliases)) + [CLOSE_BRACE];
      var t := ALIASES + ListText(StringTexts(b.aliases)) + [CLOSE_BRACE];
      PrefixCut(NAME_FIRST, StringText(a.name) + (DESCRIPTION + (StringText(a.description) + s)),
                StringText(b.name) + (DESCRIPTION + (StringText(b.description) + t)));
      StringCut(a.name, DESCRIPTION + (StringText(a.description) + s), b.name, DESCRIPTION + (StringText(b.description) + t));
      PrefixCut(DESCRIPTION, StringText(a.description) + s, StringText(b.description) + t);
      StringCut(a.description, s, b.description, t);
      ListBegins(a.aliases);
      ListBegins(b.aliases);
      PrefixCut(ALIASES + [OPEN_BRACKET], AfterBracket(a.aliases, [CLOSE_BRACE]), AfterBracket(b.aliases, [CLOSE_BRACE]));
      ListCut(a.aliases, b.aliases, [CLOSE_BRACE]);
    }
  }

  lemma ListBegins(strings: seq<Text>)
    ensures ALIASES + ListText(StringTexts(strings)) + [CLOSE_BRACE] == (ALIASES + [OPEN_BRACKET]) + AfterBracket(strings, [CLOSE_BRACE])
  {
    hide Joined, StringTexts;
  }
}
