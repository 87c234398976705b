/** The candidates of a resolution prompt and the bytes they take up as ASCII JSON. */
module PromptBudget {
  import opened Wrappers
  import opened AsciiJson
  import opened JsonScan
  import opened JsonTheorems
  import opened JsonMeaning
  import opened Batching

  const MAX_PAYLOAD_BYTES := 1_000_000
  const MAX_NAME := 500
  const MAX_DESCRIPTION_BYTES := 1_000
  const MAX_ALIAS_BYTES := 256
  const MAX_ALIASES := 10

  datatype Candidate = Candidate(id: Text, name: Text, description: Text, aliases: seq<Text>)

  /** What the prompt shows of a candidate. */
  datatype Projected = Projected(id: Text, name: Text, description: Text, aliases: seq<Text>)

  type Mentions = seq<seq<Candidate>>
  type Prompt = seq<seq<Projected>>

  // ----- characters -----

  /** The units of the first character: a surrogate pair is one character. */
  function FirstUnits(t: Text): (n: nat)
    requires t != []
    ensures 1 <= n <= |t|
  {
    if |t| >= 2 && HighSurrogate(t[0]) && LowSurrogate(t[1]) then 2 else 1
  }

  function CodePoints(t: Text): nat
    decreases |t|
  {
    if t == [] then 0 else 1 + CodePoints(t[FirstUnits(t)..])
  }

  /** The longest run of whole characters from the front within so many bytes. */
  function Truncate(t: Text, maximum: nat): Text
    decreases |t|
  {
    if t == [] then []
    else
      var n := FirstUnits(t);
      if Utf8Length(t[..n]) > maximum then [] else t[..n] + Truncate(t[n..], maximum - Utf8Length(t[..n]))
  }

  // ----- JSON text -----

  predicate AsciiString(s: string) {
    forall i :: 0 <= i < |s| ==> s[i] as int < 0x80
  }

  function Units(s: string): Text
    requires AsciiString(s)
  {
    seq(|s|, i requires 0 <= i < |s| => s[i] as int)
  }

  function StringText(s: Text): Text {
    Quoted(PrintString(s))
  }

  function Joined(items: seq<Text>): Text {
    if items == [] then []
    else if |items| == 1 then items[0]
    else Joined(items[..|items| - 1]) + [COMMA] + items[|items| - 1]
  }

  function ListText(items: seq<Text>): Text {
    [OPEN_BRACKET] + Joined(items) + [CLOSE_BRACKET]
  }

  function StringTexts(strings: seq<Text>): (r: seq<Text>) {
    seq(|strings|, i requires 0 <= i < |strings| => StringText(strings[i]))
  }

  const ENTITY_ID: Text := Units("{\"entity_id\":")
  const CANONICAL_NAME: Text := Units(",\"canonical_name\":")
  const DESCRIPTION: Text := Units(",\"description\":")
  const ALIASES: Text := Units(",\"aliases\":")
  const NAME_FIRST: Text := Units("{\"canonical_name\":")

  /** How JSON.stringify writes a projected candidate. */
  function CandidateText(p: Projected): Text {
    ENTITY_ID + StringText(p.id) + CANONICAL_NAME + StringText(p.name)
    + (DESCRIPTION + StringText(p.description)) + (ALIASES + ListText(StringTexts(p.aliases))) + [CLOSE_BRACE]
  }

  /** The text by which candidates of a mention are told apart. */
  function IdentityText(p: Projected): Text {
    NAME_FIRST + (StringText(p.name) + (DESCRIPTION + (StringText(p.description)
    + (ALIASES + ListText(StringTexts(p.aliases)) + [CLOSE_BRACE]))))
  }

  function CandidateTexts(ps: seq<Projected>): seq<Text> {
    seq(|ps|, i requires 0 <= i < |ps| => CandidateText(ps[i]))
  }

  function MentionTexts(prompt: Prompt): seq<Text> {
    seq(|prompt|, i requires 0 <= i < |prompt| => ListText(CandidateTexts(prompt[i])))
  }

  /** The length in UTF-8 of the ASCII form of a text. */
  function AsciiBytes(t: Text): nat {
    Utf8Length(Ascii(t))
  }

  /** What the candidates take up, counted from scratch. */
  function Size(prompt: Prompt): nat {
    AsciiBytes(ListText(MentionTexts(prompt)))
  }

  // ----- the reference: every edit is measured from scratch -----

  function Bare(c: Candidate): Projected {
    Projected(c.id, c.name, [], [])
  }

  function BareMention(cs: seq<Candidate>): seq<Projected> {
    seq(|cs|, i requires 0 <= i < |cs| => Bare(cs[i]))
  }

  function BarePrompt(mentions: Mentions): Prompt {
    seq(|mentions|, i requires 0 <= i < |mentions| => BareMention(mentions[i]))
  }

  predicate Inside(prompt: Prompt, m: nat, c: nat) {
    m < |prompt| && c < |prompt[m]|
  }

  function Replace(prompt: Prompt, m: nat, c: nat, p: Projected): Prompt
    requires Inside(prompt, m, c)
  {
    prompt[m := prompt[m][c := p]]
  }

  /** An edit is kept if the whole prompt stays within its budget. */
  function Try(prompt: Prompt, m: nat, c: nat, p: Projected): Prompt
    requires Inside(prompt, m, c)
  {
    if Size(Replace(prompt, m, c, p)) <= MAX_PAYLOAD_BYTES then Replace(prompt, m, c, p) else prompt
  }

  predicate SameShape(a: Prompt, b: Prompt) {
    |a| == |b| && forall m :: 0 <= m < |a| ==> |a[m]| == |b[m]|
  }

  function Offers(c: Candidate): seq<Text> {
    var first := if |c.aliases| > MAX_ALIASES then c.aliases[..MAX_ALIASES] else c.aliases;
    seq(|first|, i requires 0 <= i < |first| => Truncate(first[i], MAX_ALIAS_BYTES))
  }

  function AddDescription(prompt: Prompt, m: nat, c: nat, description: Text): (r: Prompt)
    requires Inside(prompt, m, c)
    ensures SameShape(prompt, r)
  {
    Try(prompt, m, c, prompt[m][c].(description := description))
  }

  function AddAlias(prompt: Prompt, m: nat, c: nat, alias: Text): (r: Prompt)
    requires Inside(prompt, m, c)
    ensures SameShape(prompt, r)
  {
    if alias == [] then prompt else Try(prompt, m, c, prompt[m][c].(aliases := prompt[m][c].aliases + [alias]))
  }

  function AddAliases(prompt: Prompt, m: nat, c: nat, offers: seq<Text>): (r: Prompt)
    requires Inside(prompt, m, c)
    ensures SameShape(prompt, r)
    decreases |offers|
  {
    if offers == [] then prompt
    else AddAlias(AddAliases(prompt, m, c, offers[..|offers| - 1]), m, c, offers[|offers| - 1])
  }

  function AddCandidate(prompt: Prompt, m: nat, c: nat, source: Candidate): (r: Prompt)
    requires Inside(prompt, m, c)
    ensures SameShape(prompt, r)
  {
    AddAliases(AddDescription(prompt, m, c, Truncate(source.description, MAX_DESCRIPTION_BYTES)), m, c, Offers(source))
  }

  /** The first k candidates of mention m. */
  function AddMention(prompt: Prompt, m: nat, k: nat, sources: seq<Candidate>): (r: Prompt)
    requires m < |prompt| && k <= |sources| == |prompt[m]|
    ensures SameShape(prompt, r)
    decreases k
  {
    if k == 0 then prompt else AddCandidate(AddMention(prompt, m, k - 1, sources), m, k - 1, sources[k - 1])
  }

  predicate Matches(prompt: Prompt, mentions: Mentions) {
    |prompt| == |mentions| && forall m :: 0 <= m < |prompt| ==> |prompt[m]| == |mentions[m]|
  }

  function AddMentions(prompt: Prompt, k: nat, mentions: Mentions): (r: Prompt)
    requires Matches(prompt, mentions) && k <= |mentions|
    ensures Matches(r, mentions)
    decreases k
  {
    if k == 0 then prompt else AddMention(AddMentions(prompt, k - 1, mentions), k - 1, |mentions[k - 1]|, mentions[k - 1])
  }

  // ----- sizes add up -----

  lemma {:induction false} AsciiTextBytes(t: Text)
    requires IsAscii(t)
    ensures Utf8Length(t) == |t|
  {
    if t != [] { AsciiTextBytes(t[1..]); }
  }

  lemma BytesAreUnits(t: Text)
    ensures AsciiBytes(t) == |Ascii(t)|
  {
    AsciiIsAscii(t);
    AsciiTextBytes(Ascii(t));
  }

  lemma BytesAddUp(a: Text, b: Text)
    ensures AsciiBytes(a + b) == AsciiBytes(a) + AsciiBytes(b)
  {
    BytesAreUnits(a + b);
    BytesAreUnits(a);
    BytesAreUnits(b);
    hide AsciiBytes, Ascii;
    AsciiAppends(a, b);
  }

  lemma BytesOfAscii(u: CodeUnit)
    requires u <= 0x7f
    ensures AsciiBytes([u]) == 1
  {
    BytesAreUnits([u]);
    AsciiOfUnit(u);
  }

  lemma BytesOfNothing()
    ensures AsciiBytes([]) == 0
  {
    BytesAreUnits([]);
    AsciiOfNone();
  }

  lemma JoinedStep(items: seq<Text>, x: Text)
    ensures AsciiBytes(Joined(items + [x])) == AsciiBytes(Joined(items)) + AsciiBytes(x) + if items == [] then 0 else 1
  {
    assert (items + [x])[..|items|] == items;
    if items == [] {
      BytesOfNothing();
    } else {
      hide AsciiBytes;
      BytesAddUp(Joined(items) + [COMMA], x);
      BytesAddUp(Joined(items), [COMMA]);
      BytesOfAscii(COMMA);
    }
  }

  lemma {:induction false} JoinedUpdate(items: seq<Text>, i: nat, x: Text)
    requires i < |items|
    ensures AsciiBytes(Joined(items[i := x])) == AsciiBytes(Joined(items)) - AsciiBytes(items[i]) + AsciiBytes(x)
    decreases |items|
  {
    hide AsciiBytes, Joined;
    var n := |items| - 1;
    var front := items[..n];
    assert items == front + [items[n]];
    JoinedStep(front, items[n]);
    if i == n {
      assert items[i := x] == front + [x];
      JoinedStep(front, x);
    } else {
      assert items[i := x] == front[i := x] + [items[n]];
      JoinedUpdate(front, i, x);
      JoinedStep(front[i := x], items[n]);
    }
  }

  lemma ListBytes(items: seq<Text>)
    ensures AsciiBytes(ListText(items)) == AsciiBytes(Joined(items)) + 2
  {
    hide AsciiBytes, Joined;
    BytesAddUp([OPEN_BRACKET] + Joined(items), [CLOSE_BRACKET]);
    BytesAddUp([OPEN_BRACKET], Joined(items));
    BytesOfAscii(OPEN_BRACKET);
    BytesOfAscii(CLOSE_BRACKET);
  }

  lemma ListUpdate(items: seq<Text>, i: nat, x: Text)
    requires i < |items|
    ensures AsciiBytes(ListText(items[i := x])) == AsciiBytes(ListText(items)) - AsciiBytes(items[i]) + AsciiBytes(x)
  {
    hide AsciiBytes, ListText, Joined;
    ListBytes(items);
    ListBytes(items[i := x]);
    JoinedUpdate(items, i, x);
  }

  function CandidateBytes(p: Projected): nat {
    AsciiBytes(CandidateText(p))
  }

  /** Replacing a candidate changes the size of the prompt by what it changes of
      the candidate: the running counter is right. */
  lemma ReplaceSize(prompt: Prompt, m: nat, c: nat, p: Projected)
    requires Inside(prompt, m, c)
    ensures Size(Replace(prompt, m, c, p)) == Size(prompt) - CandidateBytes(prompt[m][c]) + CandidateBytes(p)
  {
    hide AsciiBytes, ListText, CandidateText;
    var texts := CandidateTexts(prompt[m]);
    assert CandidateTexts(prompt[m][c := p]) == texts[c := CandidateText(p)];
    ListUpdate(texts, c, CandidateText(p));
    var all := MentionTexts(prompt);
    assert MentionTexts(Replace(prompt, m, c, p)) == all[m := ListText(texts[c := CandidateText(p)])];
    ListUpdate(all, m, ListText(texts[c := CandidateText(p)]));
  }

  function DescriptionCost(description: Text): int {
    AsciiBytes(StringText(description)) - 2
  }

  function AliasCost(p: Projected, alias: Text): int {
    AsciiBytes(StringText(alias)) + if p.aliases == [] then 0 else 1
  }

  lemma StringBytes(s: Text)
    ensures AsciiBytes(StringText(s)) >= 2 && (s == [] ==> AsciiBytes(StringText(s)) == 2)
  {
    hide AsciiBytes;
    BytesAddUp([QUOTE] + PrintString(s), [QUOTE]);
    BytesAddUp([QUOTE], PrintString(s));
    BytesOfAscii(QUOTE);
    BytesOfNothing();
  }

  lemma CandidateParts(p: Projected)
    ensures CandidateBytes(p)
         == AsciiBytes(ENTITY_ID + StringText(p.id) + CANONICAL_NAME + StringText(p.name))
          + AsciiBytes(DESCRIPTION) + AsciiBytes(StringText(p.description))
          + AsciiBytes(ALIASES) + AsciiBytes(ListText(StringTexts(p.aliases))) + 1
  {
    hide AsciiBytes, StringText, ListText, StringTexts;
    var front := ENTITY_ID + StringText(p.id) + CANONICAL_NAME + StringText(p.name);
    var description := DESCRIPTION + StringText(p.description);
    var aliases := ALIASES + ListText(StringTexts(p.aliases));
    BytesAddUp(front + description + aliases, [CLOSE_BRACE]);
    BytesAddUp(front + description, aliases);
    BytesAddUp(front, description);
    BytesAddUp(DESCRIPTION, StringText(p.description));
    BytesAddUp(ALIASES, ListText(StringTexts(p.aliases)));
    BytesOfAscii(CLOSE_BRACE);
  }

  lemma DescriptionSize(p: Projected, description: Text)
    requires p.description == []
    ensures CandidateBytes(p.(description := description)) == CandidateBytes(p) + DescriptionCost(description)
    ensures DescriptionCost(description) >= 0
  {
    hide AsciiBytes, CandidateBytes, StringText;
    CandidateParts(p);
    CandidateParts(p.(description := description));
    StringBytes([]);
    StringBytes(description);
  }

  lemma AliasSize(p: Projected, alias: Text)
    ensures CandidateBytes(p.(aliases := p.aliases + [alias])) == CandidateBytes(p) + AliasCost(p, alias)
    ensures AliasCost(p, alias) >= 0
  {
    hide AsciiBytes, CandidateBytes, StringText, ListText, Joined;
    var more := p.(aliases := p.aliases + [alias]);
    CandidateParts(p);
    CandidateParts(more);
    assert StringTexts(more.aliases) == StringTexts(p.aliases) + [StringText(alias)];
    ListBytes(StringTexts(p.aliases));
    ListBytes(StringTexts(more.aliases));
    JoinedStep(StringTexts(p.aliases), StringText(alias));
  }
}
