/** What the scanner refuses: nothing, the beginning of a value, a closing bracket of
    the wrong kind, and what is no value. */
module JsonErrors {
  import opened Wrappers
  import opened AsciiJson
  import opened JsonScan
  import opened JsonTheorems
  import opened JsonLiterals

  lemma {:induction false} MismatchStays(rest: Text, more: Text, at: nat, stack: seq<CodeUnit>, inString: bool, escaped: bool)
    requires ScanNested(rest, at, stack, inString, escaped) == Err(Mismatched)
    ensures ScanNested(rest + more, at, stack, inString, escaped) == Err(Mismatched)
    decreases |rest|
  {
    var u := rest[0];
    assert (rest + more)[0] == u && (rest + more)[1..] == rest[1..] + more;
    var stack' :=
      if inString then stack
      else if Opening(u) then stack + [u]
      else if Closing(u) && stack != [] then stack[..|stack| - 1]
      else stack;
    var inString' := if inString then escaped || u != QUOTE else u == QUOTE;
    var escaped' := inString && !escaped && u == BACKSLASH;
    if !inString && Closing(u) && (stack == [] || !Closes(stack[|stack| - 1], u)) {
    } else {
      assert ScanNested(rest, at, stack, inString, escaped) == ScanNested(rest[1..], at + 1, stack', inString', escaped');
      MismatchStays(rest[1..], more, at + 1, stack', inString', escaped');
    }
  }

  lemma {:induction false} NestedErrors(rest: Text, at: nat, stack: seq<CodeUnit>, inString: bool, escaped: bool)
    requires ScanNested(rest, at, stack, inString, escaped).Err?
    ensures ScanNested(rest, at, stack, inString, escaped).error in {Mismatched, Unterminated}
    decreases |rest|
  {
    if rest != [] {
      var u := rest[0];
      var stack' :=
        if inString then stack
        else if Opening(u) then stack + [u]
        else if Closing(u) && stack != [] then stack[..|stack| - 1]
        else stack;
      var inString' := if inString then escaped || u != QUOTE else u == QUOTE;
      var escaped' := inString && !escaped && u == BACKSLASH;
      if !inString && Closing(u) && (stack == [] || !Closes(stack[|stack| - 1], u)) {
      } else {
        assert ScanNested(rest, at, stack, inString, escaped) == ScanNested(rest[1..], at + 1, stack', inString', escaped');
        NestedErrors(rest[1..], at + 1, stack', inString', escaped');
      }
    }
  }

  lemma {:induction false} StringErrors(rest: Text, at: nat, escaped: bool)
    requires ScanString(rest, at, escaped).Err?
    ensures ScanString(rest, at, escaped).error == UnterminatedString
    decreases |rest|
  {
    if rest != [] { StringErrors(rest[1..], at + 1, !escaped && rest[0] == BACKSLASH); }
  }

  // ----- unfinished values -----

  /** The error of a value that opens with this unit and does not end. */
  function Unfinished(first: CodeUnit): ScanError {
    if Opening(first) then Unterminated else UnterminatedString
  }

  lemma PrintStarts(j: Json)
    requires Container(j)
    ensures Print(j) != [] && (Opening(Print(j)[0]) || Print(j)[0] == QUOTE)
  {
  }

  /** Every proper beginning of an object, array or string is refused as unfinished. */
  lemma BeginningIsUnfinished(lead: Text, j: Json, k: nat)
    requires JsonOk(j) && Container(j) && PatternSpaces(lead) && 0 < k < |Print(j)|
    ensures FirstValue(lead + Print(j)[..k]) == Err(Unfinished(Print(j)[0]))
  {
    PrintStarts(j);
    FirstValueIsExact(lead, j, []);
    hide *;
    BeginningOf(lead, Print(j), k);
  }

  lemma BeginningOf(lead: Text, t: Text, k: nat)
    requires PatternSpaces(lead) && 0 < k < |t| && (Opening(t[0]) || t[0] == QUOTE)
    requires FirstValue(lead + t + []) == Ok((|lead|, |lead| + |t|))
    ensures FirstValue(lead + t[..k]) == Err(Unfinished(t[0]))
  {
    var first, part, more := t[0], t[1..k], t[k..];
    assert t[..k] == [first] + part && t == [first] + (part + more);
    assert lead + t + [] == lead + t;
    hide FirstValue, PatternSpaces;
    FirstStarts(lead, first, part);
    FirstStarts(lead, first, part + more);
    hide ScanNested, ScanString;
    if Opening(first) {
      NestedUnfinished(part, more, |lead| + 1, [first]);
    } else {
      StringUnfinished(part, more, |lead| + 1);
    }
  }

  lemma NestedUnfinished(part: Text, more: Text, at: nat, stack: seq<CodeUnit>)
    requires more != [] && ScanNested(part + more, at, stack, false, false) == Ok(at + |part| + |more|)
    ensures ScanNested(part, at, stack, false, false) == Err(Unterminated)
  {
    var r := ScanNested(part, at, stack, false, false);
    hide ScanNested;
    if r.Ok? {
      NestedStops(part, [], at, stack, false, false);
      var rest := part[r.value - at..] + more;
      assert part[..r.value - at] + rest == part + more;
      NestedStops(part, rest, at, stack, false, false);
    } else {
      NestedErrors(part, at, stack, false, false);
      if r.error == Mismatched { MismatchStays(part, more, at, stack, false, false); }
    }
  }

  lemma StringUnfinished(part: Text, more: Text, at: nat)
    requires more != [] && ScanString(part + more, at, false) == Ok(at + |part| + |more|)
    ensures ScanString(part, at, false) == Err(UnterminatedString)
  {
    var r := ScanString(part, at, false);
    hide ScanString;
    if r.Ok? {
      StringStops(part, [], at, false);
      var rest := part[r.value - at..] + more;
      assert part[..r.value - at] + rest == part + more;
      StringStops(part, rest, at, false);
    } else {
      StringErrors(part, at, false);
    }
  }

  // ----- other refusals -----

  /** A bracket that is closed by one of the other kind is refused, whatever values
      stand before it and whatever text behind. */
  lemma WrongBracketIsRefused(lead: Text, first: CodeUnit, inner: Text, wrong: CodeUnit, trailing: Text)
    requires PatternSpaces(lead) && Opening(first) && Closing(wrong) && !Closes(first, wrong) && Neutral(inner)
    ensures FirstValue(lead + ([first] + (inner + ([wrong] + trailing)))) == Err(Mismatched)
  {
    FirstStarts(lead, first, inner + ([wrong] + trailing));
    hide FirstValue, Neutral;
    NeutralIs(inner, [wrong] + trailing, |lead| + 1, [first]);
    WrongCloses(first, wrong, trailing, |lead| + 1 + |inner|);
  }

  lemma WrongCloses(first: CodeUnit, wrong: CodeUnit, trailing: Text, at: nat)
    requires Closing(wrong) && !Closes(first, wrong)
    ensures ScanNested([wrong] + trailing, at, [first], false, false) == Err(Mismatched)
  {
  }

  /** White space alone holds no value. */
  lemma BlankHoldsNoValue(t: Text)
    requires PatternSpaces(t)
    ensures FirstValue(t) == Err(NoValue)
  {
    AllSkipped(t, 0);
  }

  lemma {:induction false} AllSkipped(t: Text, at: nat)
    requires PatternSpaces(t) && at <= |t|
    ensures SkipSpace(t, at) == |t|
    decreases |t| - at
  {
    if at < |t| { AllSkipped(t, at + 1); }
  }

  /** Text that starts like no value is refused as invalid. */
  lemma OtherTextIsInvalid(lead: Text, t: Text)
    requires PatternSpaces(lead) && t != [] && !PatternSpace(t[0])
    requires !Opening(t[0]) && t[0] != QUOTE && t[0] != MINUS && !Digit(t[0])
    requires t[0] != TRUE_TEXT[0] && t[0] != FALSE_TEXT[0] && t[0] != NULL_TEXT[0]
    ensures FirstValue(lead + t) == Err(Invalid)
  {
    PrimitiveStarts(lead, t);
    assert (lead + t)[|lead|] == t[0];
    WordBegins(lead + t, |lead|, TRUE_TEXT);
    WordBegins(lead + t, |lead|, FALSE_TEXT);
    WordBegins(lead + t, |lead|, NULL_TEXT);
    hide FirstValue, StartsWith, DigitsEnd, ExponentEnd;
  }
}
