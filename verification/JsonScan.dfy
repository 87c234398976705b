/** Finding the end of the first JSON value in a model response. */
module JsonScan {
  import opened Wrappers
  import opened AsciiJson

  const OPEN_BRACE: CodeUnit := 0x7b
  const CLOSE_BRACE: CodeUnit := 0x7d
  const OPEN_BRACKET: CodeUnit := 0x5b
  const CLOSE_BRACKET: CodeUnit := 0x5d
  const COMMA: CodeUnit := 0x2c
  const COLON: CodeUnit := 0x3a
  const MINUS: CodeUnit := 0x2d
  const PLUS: CodeUnit := 0x2b
  const DOT: CodeUnit := 0x2e
  const ZERO: CodeUnit := 0x30

  datatype ScanError = NoValue | Mismatched | Unterminated | UnterminatedString | Invalid

  // ----- the grammar, sections 2 to 7 of RFC 8259 -----

  predicate JsonSpace(u: CodeUnit) {
    u == 0x20 || u == 0x09 || u == 0x0a || u == 0x0d
  }

  predicate IsSpaces(t: Text) {
    forall i :: 0 <= i < |t| ==> JsonSpace(t[i])
  }

  predicate Digit(u: CodeUnit) {
    0x30 <= u <= 0x39
  }

  predicate Digits(t: Text) {
    forall i :: 0 <= i < |t| ==> Digit(t[i])
  }

  /** An exponent: its letter, an optional sign and its digits. */
  datatype Exponent = Exponent(letter: CodeUnit, sign: Text, digits: Text)

  datatype Literal =
    | True
    | False
    | Null
    | Number(negative: bool, whole: Text, fraction: Option<Text>, exponent: Option<Exponent>)

  const TRUE_TEXT: Text := [0x74, 0x72, 0x75, 0x65]
  const FALSE_TEXT: Text := [0x66, 0x61, 0x6c, 0x73, 0x65]
  const NULL_TEXT: Text := [0x6e, 0x75, 0x6c, 0x6c]

  predicate LiteralOk(l: Literal) {
    l.Number? ==>
      && l.whole != [] && Digits(l.whole) && (l.whole[0] == ZERO ==> |l.whole| == 1)
      && (l.fraction.Some? ==> l.fraction.value != [] && Digits(l.fraction.value))
      && (l.exponent.Some? ==>
            && (l.exponent.value.letter == 0x65 || l.exponent.value.letter == 0x45)
            && (l.exponent.value.sign == [] || l.exponent.value.sign == [PLUS] || l.exponent.value.sign == [MINUS])
            && l.exponent.value.digits != [] && Digits(l.exponent.value.digits))
  }

  function LiteralText(l: Literal): Text {
    match l
    case True => TRUE_TEXT
    case False => FALSE_TEXT
    case Null => NULL_TEXT
    case Number(negative, whole, fraction, exponent) =>
      (if negative then [MINUS] else []) + whole
      + (if fraction.Some? then [DOT] + fraction.value else [])
      + (if exponent.Some? then [exponent.value.letter] + exponent.value.sign + exponent.value.digits else [])
  }

  /** A value with the white space it is written with. A string is what stands
      between its quotes. */
  datatype Json =
    | Lit(literal: Literal)
    | Str(body: Text)
    | Arr(lead: Text, items: Items)
    | Obj(lead: Text, members: Members)

  datatype Items = NoItems | Items(value: Json, trail: Text, next: Text, more: Items)

  datatype Members =
    | NoMembers
    | Members(key: Text, beforeColon: Text, afterColon: Text, value: Json, trail: Text, next: Text, more: Members)

  predicate StringOk(body: Text) {
    Decode(body).Some?
  }

  predicate JsonOk(j: Json) {
    match j
    case Lit(l) => LiteralOk(l)
    case Str(body) => StringOk(body)
    case Arr(lead, items) => IsSpaces(lead) && ItemsOk(items)
    case Obj(lead, members) => IsSpaces(lead) && MembersOk(members)
  }

  predicate ItemsOk(items: Items) {
    items.Items? ==> JsonOk(items.value) && IsSpaces(items.trail) && IsSpaces(items.next) && ItemsOk(items.more)
  }

  predicate MembersOk(m: Members) {
    m.Members? ==>
      && StringOk(m.key) && IsSpaces(m.beforeColon) && IsSpaces(m.afterColon)
      && JsonOk(m.value) && IsSpaces(m.trail) && IsSpaces(m.next) && MembersOk(m.more)
  }

  function Quoted(body: Text): Text {
    [QUOTE] + body + [QUOTE]
  }

  function Print(j: Json): Text {
    match j
    case Lit(l) => LiteralText(l)
    case Str(body) => Quoted(body)
    case Arr(lead, items) => [OPEN_BRACKET] + (lead + PrintItems(items)) + [CLOSE_BRACKET]
    case Obj(lead, members) => [OPEN_BRACE] + (lead + PrintMembers(members)) + [CLOSE_BRACE]
  }

  /** What stands before the next element, if there is one. */
  function Separator(last: bool, next: Text): Text {
    if last then [] else [COMMA] + next
  }

  function PrintItems(items: Items): Text {
    match items
    case NoItems => []
    case Items(value, trail, next, more) => Print(value) + (trail + Separator(more.NoItems?, next)) + PrintItems(more)
  }

  function PrintMembers(members: Members): Text {
    match members
    case NoMembers => []
    case Members(key, beforeColon, afterColon, value, trail, next, more) =>
      Quoted(key) + (beforeColon + [COLON] + afterColon)
      + Print(value) + (trail + Separator(more.NoMembers?, next)) + PrintMembers(more)
  }

  // ----- scanning -----

  predicate Opening(u: CodeUnit) {
    u == OPEN_BRACE || u == OPEN_BRACKET
  }

  predicate Closing(u: CodeUnit) {
    u == CLOSE_BRACE || u == CLOSE_BRACKET
  }

  predicate Closes(open: CodeUnit, close: CodeUnit) {
    (open == OPEN_BRACE && close == CLOSE_BRACE) || (open == OPEN_BRACKET && close == CLOSE_BRACKET)
  }

  /** Scan the rest of an object or array from position `at`; the open brackets
      are on the stack, and nothing in a string counts. */
  function ScanNested(rest: Text, at: nat, stack: seq<CodeUnit>, inString: bool, escaped: bool): Result<nat, ScanError>
    decreases |rest|
  {
    if rest == [] then Err(Unterminated)
    else
      var u := rest[0];
      if inString then
        if escaped then ScanNested(rest[1..], at + 1, stack, true, false)
        else if u == BACKSLASH then ScanNested(rest[1..], at + 1, stack, true, true)
        else ScanNested(rest[1..], at + 1, stack, u != QUOTE, false)
      else if u == QUOTE then ScanNested(rest[1..], at + 1, stack, true, false)
      else if Opening(u) then ScanNested(rest[1..], at + 1, stack + [u], false, false)
      else if Closing(u) then
        if stack == [] || !Closes(stack[|stack| - 1], u) then Err(Mismatched)
        else if |stack| == 1 then Ok(at + 1)
        else ScanNested(rest[1..], at + 1, stack[..|stack| - 1], false, false)
      else ScanNested(rest[1..], at + 1, stack, false, false)
  }

  /** Scan the rest of a string. */
  function ScanString(rest: Text, at: nat, escaped: bool): Result<nat, ScanError>
    decreases |rest|
  {
    if rest == [] then Err(UnterminatedString)
    else if escaped then ScanString(rest[1..], at + 1, false)
    else if rest[0] == BACKSLASH then ScanString(rest[1..], at + 1, true)
    else if rest[0] == QUOTE then Ok(at + 1)
    else ScanString(rest[1..], at + 1, false)
  }

  /** White space as the regular expression class \s has it. */
  predicate PatternSpace(u: CodeUnit) {
    || 0x09 <= u <= 0x0d || u == 0x20 || u == 0xa0 || u == 0x1680 || 0x2000 <= u <= 0x200a
    || u == 0x2028 || u == 0x2029 || u == 0x202f || u == 0x205f || u == 0x3000 || u == 0xfeff
  }

  function SkipSpace(content: Text, at: nat): (r: nat)
    requires at <= |content|
    ensures at <= r <= |content|
    decreases |content| - at
  {
    if at < |content| && PatternSpace(content[at]) then SkipSpace(content, at + 1) else at
  }

  function DigitsEnd(content: Text, at: nat): (r: nat)
    requires at <= |content|
    ensures at <= r <= |content|
    decreases |content| - at
  {
    if at < |content| && Digit(content[at]) then DigitsEnd(content, at + 1) else at
  }

  predicate StartsWith(content: Text, at: nat, word: Text) {
    at + |word| <= |content| && content[at..at + |word|] == word
  }

  /** The end of the longest match of the number pattern. */
  function NumberEnd(content: Text, at: nat): Option<nat>
    requires at <= |content|
  {
    var first := if at < |content| && content[at] == MINUS then at + 1 else at;
    if first >= |content| || !Digit(content[first]) then None
    else
      var whole := if content[first] == ZERO then first + 1 else DigitsEnd(content, first);
      var fraction :=
        if whole + 1 < |content| && content[whole] == DOT && Digit(content[whole + 1]) then DigitsEnd(content, whole + 1) else whole;
      Some(ExponentEnd(content, fraction))
  }

  function ExponentEnd(content: Text, at: nat): (r: nat)
    requires at <= |content|
    ensures at <= r <= |content|
  {
    if at < |content| && (content[at] == 0x65 || content[at] == 0x45) then
      var digits := if at + 1 < |content| && (content[at + 1] == PLUS || content[at + 1] == MINUS) then at + 2 else at + 1;
      if digits < |content| && Digit(content[digits]) then DigitsEnd(content, digits) else at
    else at
  }

  function PrimitiveEnd(content: Text, at: nat): Option<nat>
    requires at <= |content|
  {
    if StartsWith(content, at, TRUE_TEXT) then Some(at + |TRUE_TEXT|)
    else if StartsWith(content, at, FALSE_TEXT) then Some(at + |FALSE_TEXT|)
    else if StartsWith(content, at, NULL_TEXT) then Some(at + |NULL_TEXT|)
    else NumberEnd(content, at)
  }

  /** Where the first value starts and ends. */
  function FirstValue(content: Text): Result<(nat, nat), ScanError> {
    var start := SkipSpace(content, 0);
    if start == |content| then Err(NoValue)
    else
      var first := content[start];
      var rest := content[start + 1..];
      if Opening(first) then
        var end := ScanNested(rest, start + 1, [first], false, false);
        if end.Ok? then Ok((start, end.value)) else Err(end.error)
      else if first == QUOTE then
        var end := ScanString(rest, start + 1, false);
        if end.Ok? then Ok((start, end.value)) else Err(end.error)
      else
        var end := PrimitiveEnd(content, start);
        if end.Some? then Ok((start, end.value)) else Err(Invalid)
  }

  // ----- the scanner as it runs -----

  method ParseFirst(content: Text) returns (r: Result<(nat, nat), ScanError>)
    ensures r == FirstValue(content)
  {
    var start := 0;
    while start < |content| && PatternSpace(content[start])
      invariant start <= |content|
      invariant SkipSpace(content, 0) == SkipSpace(content, start)
    {
      start := start + 1;
    }
    if start == |content| { return Err(NoValue); }
    var first := content[start];
    if Opening(first) {
      var end := FindClose(content, start, first);
      if end.Err? { return Err(end.error); }
      return Ok((start, end.value));
    }
    if first == QUOTE {
      var end := FindQuote(content, start);
      if end.Err? { return Err(end.error); }
      return Ok((start, end.value));
    }
    var end := PrimitiveEnd(content, start);
    if end.None? { return Err(Invalid); }
    r := Ok((start, end.value));
  }

  method FindClose(content: Text, start: nat, first: CodeUnit) returns (r: Result<nat, ScanError>)
    requires start < |content|
    ensures r == ScanNested(content[start + 1..], start + 1, [first], false, false)
  {
    var stack := [first];
    var inString, escaped := false, false;
    var index := start + 1;
    while index < |content|
      invariant start + 1 <= index <= |content|
      invariant escaped ==> inString
      invariant ScanNested(content[start + 1..], start + 1, [first], false, false)
             == ScanNested(content[index..], index, stack, inString, escaped)
    {
      var character := content[index];
      assert content[index..][1..] == content[index + 1..];
      index := index + 1;
      if inString {
        if escaped {
          escaped := false;
        } else if character == BACKSLASH {
          escaped := true;
        } else if character == QUOTE {
          inString := false;
        }
        continue;
      }
      if character == QUOTE {
        inString := true;
      } else if Opening(character) {
        stack := stack + [character];
      } else if Closing(character) {
        if stack == [] || !Closes(stack[|stack| - 1], character) { return Err(Mismatched); }
        stack := stack[..|stack| - 1];
        if stack == [] { return Ok(index); }
      }
    }
    r := Err(Unterminated);
  }

  method FindQuote(content: Text, start: nat) returns (r: Result<nat, ScanError>)
    requires start < |content|
    ensures r == ScanString(content[start + 1..], start + 1, false)
  {
    var escaped := false;
    var index := start + 1;
    while index < |content|
      invariant start + 1 <= index <= |content|
      invariant ScanString(content[start + 1..], start + 1, false) == ScanString(content[index..], index, escaped)
    {
      var character := content[index];
      assert content[index..][1..] == content[index + 1..];
      index := index + 1;
      if escaped {
        escaped := false;
      } else if character == BACKSLASH {
        escaped := true;
      } else if character == QUOTE {
        return Ok(index);
      }
    }
    r := Err(UnterminatedString);
  }
}
