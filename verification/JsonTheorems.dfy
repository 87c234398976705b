/** The scanner ends exactly where the first value of the grammar ends, whatever
    follows; and ASCII escaping a printed value keeps the value. */
module JsonTheorems {
  import opened Wrappers
  import opened AsciiJson
  import opened JsonScan

  // ----- text that leaves the scanner where it was -----

  /** Reading t in front of any text leaves the open brackets as they are. */
  ghost predicate Neutral(t: Text) {
    forall post: Text, at: nat, stack: seq<CodeUnit> :: stack != [] ==>
      ScanNested(t + post, at, stack, false, false) == ScanNested(post, at + |t|, stack, false, false)
  }

  lemma NeutralIs(t: Text, post: Text, at: nat, stack: seq<CodeUnit>)
    requires Neutral(t) && stack != []
    ensures ScanNested(t + post, at, stack, false, false) == ScanNested(post, at + |t|, stack, false, false)
  {
  }

  lemma NeutralJoin(a: Text, b: Text)
    requires Neutral(a) && Neutral(b)
    ensures Neutral(a + b)
  {
    forall post: Text, at: nat, stack: seq<CodeUnit> | stack != []
      ensures ScanNested((a + b) + post, at, stack, false, false) == ScanNested(post, at + |a + b|, stack, false, false)
    {
      hide ScanNested, Neutral;
      Associate(a, b, post);
      NeutralIs(a, b + post, at, stack);
      NeutralIs(b, post, at + |a|, stack);
    }
  }

  predicate PlainUnit(u: CodeUnit) {
    u != QUOTE && !Opening(u) && !Closing(u)
  }

  predicate Plain(t: Text) {
    forall i :: 0 <= i < |t| ==> PlainUnit(t[i])
  }

  lemma ScanStep(u: CodeUnit, rest: Text, at: nat, stack: seq<CodeUnit>)
    requires PlainUnit(u)
    ensures ScanNested([u] + rest, at, stack, false, false) == ScanNested(rest, at + 1, stack, false, false)
  {
    assert ([u] + rest)[1..] == rest;
  }

  lemma {:induction false} PlainScans(t: Text, post: Text, at: nat, stack: seq<CodeUnit>)
    requires Plain(t)
    ensures ScanNested(t + post, at, stack, false, false) == ScanNested(post, at + |t|, stack, false, false)
    decreases |t|
  {
    if t == [] {
      assert t + post == post;
    } else {
      assert t + post == [t[0]] + (t[1..] + post);
      ScanStep(t[0], t[1..] + post, at, stack);
      PlainScans(t[1..], post, at + 1, stack);
    }
  }

  lemma PlainIsNeutral(t: Text)
    requires Plain(t)
    ensures Neutral(t)
  {
    forall post: Text, at: nat, stack: seq<CodeUnit> | stack != []
      ensures ScanNested(t + post, at, stack, false, false) == ScanNested(post, at + |t|, stack, false, false)
    {
      PlainScans(t, post, at, stack);
    }
  }

  // ----- strings -----

  lemma EscapeScans(a: CodeUnit, rest: Text, at: nat, stack: seq<CodeUnit>)
    ensures ScanNested([BACKSLASH, a] + rest, at, stack, true, false) == ScanNested(rest, at + 2, stack, true, false)
    ensures ScanString([BACKSLASH, a] + rest, at, false) == ScanString(rest, at + 2, false)
  {
    var all := [BACKSLASH, a] + rest;
    assert all[1..] == [a] + rest && ([a] + rest)[1..] == rest;
  }

  lemma InsideScans(u: CodeUnit, rest: Text, at: nat, stack: seq<CodeUnit>)
    requires u != BACKSLASH && u != QUOTE
    ensures ScanNested([u] + rest, at, stack, true, false) == ScanNested(rest, at + 1, stack, true, false)
    ensures ScanString([u] + rest, at, false) == ScanString(rest, at + 1, false)
  {
    assert ([u] + rest)[1..] == rest;
  }

  lemma {:induction false} BodyScans(body: Text, post: Text, at: nat, stack: seq<CodeUnit>)
    requires StringOk(body)
    ensures ScanNested(body + post, at, stack, true, false) == ScanNested(post, at + |body|, stack, true, false)
    ensures ScanString(body + post, at, false) == ScanString(post, at + |body|, false)
    decreases |body|
  {
    hide ScanNested, ScanString;
    if body == [] {
      assert body + post == post;
    } else if body[0] == BACKSLASH {
      var a, rest := body[1], body[2..];
      assert body + post == [BACKSLASH, a] + (rest + post);
      EscapeScans(a, rest + post, at, stack);
      if |body| >= 6 && a == LOWER_U {
        HexScans(body[2..6], body[6..] + post, at + 2, stack);
        assert rest + post == body[2..6] + (body[6..] + post);
        BodyScans(body[6..], post, at + 6, stack);
      } else {
        BodyScans(rest, post, at + 2, stack);
      }
    } else {
      assert body + post == [body[0]] + (body[1..] + post);
      InsideScans(body[0], body[1..] + post, at, stack);
      BodyScans(body[1..], post, at + 1, stack);
    }
  }

  lemma HexScans(h: Text, rest: Text, at: nat, stack: seq<CodeUnit>)
    requires |h| == 4 && forall i :: 0 <= i < 4 ==> HexValue(h[i]).Some?
    ensures ScanNested(h + rest, at, stack, true, false) == ScanNested(rest, at + 4, stack, true, false)
    ensures ScanString(h + rest, at, false) == ScanString(rest, at + 4, false)
  {
    hide ScanNested, ScanString;
    assert h + rest == [h[0]] + ([h[1]] + ([h[2]] + ([h[3]] + rest)));
    InsideScans(h[3], rest, at + 3, stack);
    InsideScans(h[2], [h[3]] + rest, at + 2, stack);
    InsideScans(h[1], [h[2]] + ([h[3]] + rest), at + 1, stack);
    InsideScans(h[0], [h[1]] + ([h[2]] + ([h[3]] + rest)), at, stack);
  }

  lemma QuoteScans(rest: Text, at: nat, stack: seq<CodeUnit>)
    ensures ScanNested([QUOTE] + rest, at, stack, false, false) == ScanNested(rest, at + 1, stack, true, false)
    ensures ScanNested([QUOTE] + rest, at, stack, true, false) == ScanNested(rest, at + 1, stack, false, false)
    ensures ScanString([QUOTE] + rest, at, false) == Ok(at + 1)
  {
    assert ([QUOTE] + rest)[1..] == rest;
  }

  lemma QuotedIsNeutral(body: Text)
    requires StringOk(body)
    ensures Neutral(Quoted(body))
  {
    forall post: Text, at: nat, stack: seq<CodeUnit> | stack != []
      ensures ScanNested(Quoted(body) + post, at, stack, false, false)
           == ScanNested(post, at + |Quoted(body)|, stack, false, false)
    {
      hide ScanNested;
      assert Quoted(body) + post == [QUOTE] + (body + ([QUOTE] + post));
      QuoteScans(body + ([QUOTE] + post), at, stack);
      BodyScans(body, [QUOTE] + post, at + 1, stack);
      QuoteScans(post, at + 1 + |body|, stack);
    }
  }

  // ----- values -----

  lemma LiteralIsPlain(l: Literal)
    requires LiteralOk(l)
    ensures Plain(LiteralText(l))
  {
    if l.Number? {
      var front := (if l.negative then [MINUS] else []) + l.whole;
      var fraction := if l.fraction.Some? then [DOT] + l.fraction.value else [];
      var exponent := if l.exponent.Some? then [l.exponent.value.letter] + l.exponent.value.sign + l.exponent.value.digits else [];
      assert Plain(front) && Plain(fraction) && Plain(exponent);
      assert LiteralText(l) == front + fraction + exponent;
      hide LiteralText, Digits;
    }
  }

  lemma SpacesArePlain(t: Text)
    requires IsSpaces(t)
    ensures Plain(t)
  {
  }

  predicate Bracketed(first: CodeUnit, last: CodeUnit) {
    Opening(first) && Closes(first, last)
  }

  lemma OpenScans(u: CodeUnit, rest: Text, at: nat, stack: seq<CodeUnit>)
    requires Opening(u)
    ensures ScanNested([u] + rest, at, stack, false, false) == ScanNested(rest, at + 1, stack + [u], false, false)
  {
    assert ([u] + rest)[1..] == rest;
  }

  lemma CloseScans(open: CodeUnit, u: CodeUnit, rest: Text, at: nat, stack: seq<CodeUnit>)
    requires Closes(open, u)
    ensures ScanNested([u] + rest, at, stack + [open], false, false)
         == if stack == [] then Ok(at + 1) else ScanNested(rest, at + 1, stack, false, false)
  {
    assert ([u] + rest)[1..] == rest;
    assert (stack + [open])[..|stack|] == stack;
  }

  lemma BracketedIsNeutral(first: CodeUnit, inner: Text, last: CodeUnit)
    requires Bracketed(first, last) && Neutral(inner)
    ensures Neutral([first] + inner + [last])
  {
    forall post: Text, at: nat, stack: seq<CodeUnit> | stack != []
      ensures ScanNested([first] + inner + [last] + post, at, stack, false, false)
           == ScanNested(post, at + |[first] + inner + [last]|, stack, false, false)
    {
      hide ScanNested, Neutral;
      assert [first] + inner + [last] + post == [first] + (inner + ([last] + post));
      OpenScans(first, inner + ([last] + post), at, stack);
      NeutralIs(inner, [last] + post, at + 1, stack + [first]);
      CloseScans(first, last, post, at + 1 + |inner|, stack);
    }
  }

  /** Every printed value is neutral inside another. */
  lemma {:induction false} ValueIsNeutral(j: Json)
    requires JsonOk(j)
    ensures Neutral(Print(j))
    decreases j
  {
    hide Neutral;
    match j
    case Lit(l) =>
      LiteralIsPlain(l);
      PlainIsNeutral(LiteralText(l));
    case Str(body) =>
      QuotedIsNeutral(body);
    case Arr(lead, items) =>
      ItemsAreNeutral(items);
      LeadIsNeutral(lead, PrintItems(items));
      BracketedIsNeutral(OPEN_BRACKET, lead + PrintItems(items), CLOSE_BRACKET);
    case Obj(lead, members) =>
      MembersAreNeutral(members);
      LeadIsNeutral(lead, PrintMembers(members));
      BracketedIsNeutral(OPEN_BRACE, lead + PrintMembers(members), CLOSE_BRACE);
  }

  lemma LeadIsNeutral(lead: Text, t: Text)
    requires IsSpaces(lead) && Neutral(t)
    ensures Neutral(lead + t)
  {
    hide Neutral;
    SpacesArePlain(lead);
    PlainIsNeutral(lead);
    NeutralJoin(lead, t);
  }

  lemma SeparatorIsNeutral(trail: Text, last: bool, next: Text)
    requires IsSpaces(trail) && IsSpaces(next)
    ensures Neutral(trail + Separator(last, next))
  {
    hide Neutral;
    PlainIsNeutral(trail + Separator(last, next));
  }

  lemma {:induction false} ItemsAreNeutral(items: Items)
    requires ItemsOk(items)
    ensures Neutral(PrintItems(items))
    decreases items
  {
    hide Neutral;
    match items
    case NoItems =>
      PlainIsNeutral([]);
    case Items(value, trail, next, more) =>
      var gap := trail + Separator(more.NoItems?, next);
      ValueIsNeutral(value);
      SeparatorIsNeutral(trail, more.NoItems?, next);
      ItemsAreNeutral(more);
      NeutralJoin(Print(value), gap);
      NeutralJoin(Print(value) + gap, PrintItems(more));
  }

  lemma ColonIsNeutral(before: Text, after: Text)
    requires IsSpaces(before) && IsSpaces(after)
    ensures Neutral(before + [COLON] + after)
  {
    hide Neutral;
    PlainIsNeutral(before + [COLON] + after);
  }

  lemma {:induction false} MembersAreNeutral(members: Members)
    requires MembersOk(members)
    ensures Neutral(PrintMembers(members))
    decreases members
  {
    hide Neutral;
    match members
    case NoMembers =>
      PlainIsNeutral([]);
    case Members(key, beforeColon, afterColon, value, trail, next, more) =>
      var colon, gap := beforeColon + [COLON] + afterColon, trail + Separator(more.NoMembers?, next);
      QuotedIsNeutral(key);
      ColonIsNeutral(beforeColon, afterColon);
      ValueIsNeutral(value);
      SeparatorIsNeutral(trail, more.NoMembers?, next);
      MembersAreNeutral(more);
      NeutralJoin(Quoted(key), colon);
      NeutralJoin(Quoted(key) + colon, Print(value));
      NeutralJoin(Quoted(key) + colon + Print(value), gap);
      NeutralJoin(Quoted(key) + colon + Print(value) + gap, PrintMembers(more));
  }

  // ----- the first value -----

  lemma {:induction false} SkipsSpaces(lead: Text, content: Text, at: nat)
    requires at <= |lead| && lead <= content
    requires forall i :: 0 <= i < |lead| ==> PatternSpace(lead[i])
    requires |lead| < |content| && !PatternSpace(content[|lead|])
    ensures SkipSpace(content, at) == |lead|
    decreases |lead| - at
  {
    if at < |lead| {
      assert content[at] == lead[at];
      SkipsSpaces(lead, content, at + 1);
    }
  }

  predicate Container(j: Json) {
    j.Arr? || j.Obj? || j.Str?
  }

  lemma BracketedEnds(first: CodeUnit, inner: Text, last: CodeUnit, trailing: Text, at: nat)
    requires Bracketed(first, last) && Neutral(inner)
    ensures ScanNested(inner + ([last] + trailing), at, [first], false, false) == Ok(at + |inner| + 1)
  {
    hide ScanNested, Neutral;
    NeutralIs(inner, [last] + trailing, at, [first]);
    CloseScans(first, last, trailing, at + |inner|, []);
    assert [] + [first] == [first];
  }

  predicate PatternSpaces(t: Text) {
    forall i :: 0 <= i < |t| ==> PatternSpace(t[i])
  }

  /** A value that opens with a bracket or a quote: the scan starts behind it. */
  lemma FirstStarts(lead: Text, first: CodeUnit, rest: Text)
    requires PatternSpaces(lead) && (Opening(first) || first == QUOTE)
    ensures var end := if Opening(first) then ScanNested(rest, |lead| + 1, [first], false, false) else ScanString(rest, |lead| + 1, false);
      FirstValue(lead + ([first] + rest)) == if end.Ok? then Ok((|lead|, end.value)) else Err(end.error)
  {
    hide ScanNested, ScanString;
    var content := lead + ([first] + rest);
    assert content[|lead|] == first;
    SkipsSpaces(lead, content, 0);
    assert content[|lead| + 1..] == rest;
  }

  lemma BracketedIsExact(lead: Text, first: CodeUnit, inner: Text, last: CodeUnit, trailing: Text)
    requires PatternSpaces(lead) && Bracketed(first, last) && Neutral(inner)
    ensures FirstValue(lead + ([first] + inner + [last]) + trailing) == Ok((|lead|, |lead| + |[first] + inner + [last]|))
  {
    hide ScanNested, Neutral, FirstValue;
    assert lead + ([first] + inner + [last]) + trailing == lead + ([first] + (inner + ([last] + trailing)));
    FirstStarts(lead, first, inner + ([last] + trailing));
    BracketedEnds(first, inner, last, trailing, |lead| + 1);
  }

  lemma QuotedIsExact(lead: Text, body: Text, trailing: Text)
    requires PatternSpaces(lead) && StringOk(body)
    ensures FirstValue(lead + Quoted(body) + trailing) == Ok((|lead|, |lead| + |Quoted(body)|))
  {
    hide ScanNested, ScanString, FirstValue, Decode, StringOk;
    assert lead + Quoted(body) + trailing == lead + ([QUOTE] + (body + ([QUOTE] + trailing)));
    FirstStarts(lead, QUOTE, body + ([QUOTE] + trailing));
    BodyScans(body, [QUOTE] + trailing, |lead| + 1, []);
    QuoteScans(trailing, |lead| + 1 + |body|, []);
  }

  /** For every object, array or string of the grammar, with white space before
      and any text after, the first value is exactly that value. */
  lemma FirstValueIsExact(lead: Text, j: Json, trailing: Text)
    requires JsonOk(j) && Container(j) && PatternSpaces(lead)
    ensures FirstValue(lead + Print(j) + trailing) == Ok((|lead|, |lead| + |Print(j)|))
  {
    hide FirstValue, Neutral, ScanNested, PatternSpaces, StringOk, IsSpaces;
    match j
    case Str(body) =>
      QuotedIsExact(lead, body, trailing);
    case Arr(space, items) =>
      ItemsAreNeutral(items);
      LeadIsNeutral(space, PrintItems(items));
      BracketedIsExact(lead, OPEN_BRACKET, space + PrintItems(items), CLOSE_BRACKET, trailing);
    case Obj(space, members) =>
      MembersAreNeutral(members);
      LeadIsNeutral(space, PrintMembers(members));
      BracketedIsExact(lead, OPEN_BRACE, space + PrintMembers(members), CLOSE_BRACE, trailing);
  }

  // ----- what follows never matters -----

  lemma {:induction false} NestedStops(rest: Text, trailing: Text, at: nat, stack: seq<CodeUnit>, inString: bool, escaped: bool)
    requires ScanNested(rest, at, stack, inString, escaped).Ok?
    ensures var end := ScanNested(rest, at, stack, inString, escaped).value;
      && at < end <= at + |rest|
      && ScanNested(rest[..end - at] + trailing, at, stack, inString, escaped) == Ok(end)
    decreases |rest|
  {
    var end := ScanNested(rest, at, stack, inString, escaped).value;
    var u := rest[0];
    var stack' :=
      if inString then stack
      else if Opening(u) then stack + [u]
      else if Closing(u) then stack[..|stack| - 1]
      else stack;
    var inString' := if inString then escaped || u != QUOTE else u == QUOTE;
    var escaped' := inString && !escaped && u == BACKSLASH;
    if !inString && Closing(u) && |stack| == 1 {
    } else {
      assert ScanNested(rest, at, stack, inString, escaped) == ScanNested(rest[1..], at + 1, stack', inString', escaped');
      NestedStops(rest[1..], trailing, at + 1, stack', inString', escaped');
      var cut := rest[..end - at] + trailing;
      assert cut[1..] == rest[1..][..end - at - 1] + trailing;
    }
  }

  lemma {:induction false} StringStops(rest: Text, trailing: Text, at: nat, escaped: bool)
    requires ScanString(rest, at, escaped).Ok?
    ensures var end := ScanString(rest, at, escaped).value;
      && at < end <= at + |rest|
      && ScanString(rest[..end - at] + trailing, at, escaped) == Ok(end)
    decreases |rest|
  {
    var end := ScanString(rest, at, escaped).value;
    if escaped || rest[0] != QUOTE {
      StringStops(rest[1..], trailing, at + 1, !escaped && rest[0] == BACKSLASH);
      var cut := rest[..end - at] + trailing;
      assert cut[1..] == rest[1..][..end - at - 1] + trailing;
    }
  }

  lemma {:induction false} SkipStops(content: Text, other: Text, at: nat)
    requires at <= |content| && at <= |other| && SkipSpace(content, at) < |content|
    requires |other| > SkipSpace(content, at) && other[..SkipSpace(content, at) + 1] == content[..SkipSpace(content, at) + 1]
    ensures SkipSpace(other, at) == SkipSpace(content, at)
    decreases |content| - at
  {
    var n := SkipSpace(content, at);
    assert other[at] == other[..n + 1][at] == content[..n + 1][at] == content[at];
    if PatternSpace(content[at]) { SkipStops(content, other, at + 1); }
  }

  /** Once an object, array or string has ended, any other text may follow it. */
  lemma TrailingTextIsIrrelevant(content: Text, trailing: Text)
    requires FirstValue(content).Ok?
    requires Opening(content[FirstValue(content).value.0]) || content[FirstValue(content).value.0] == QUOTE
    ensures var (start, end) := FirstValue(content).value;
      && start < end <= |content|
      && FirstValue(content[..end] + trailing) == FirstValue(content)
  {
    var (start, end) := FirstValue(content).value;
    var first, rest := content[start], content[start + 1..];
    if Opening(first) {
      NestedStops(rest, trailing, start + 1, [first], false, false);
    } else {
      StringStops(rest, trailing, start + 1, false);
    }
    hide ScanNested, ScanString;
    var other := content[..end] + trailing;
    assert content[..end] == content[..start + 1] + rest[..end - start - 1];
    assert other == content[..start + 1] + (rest[..end - start - 1] + trailing);
    assert other[..start + 1] == content[..start + 1];
    assert other[start + 1..] == rest[..end - start - 1] + trailing;
    SkipStops(content, other, 0);
    assert other[start] == other[..start + 1][start] == first;
  }
}
