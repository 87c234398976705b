/** Where the scan of a literal ends: a word ends where it ends, and a number ends
    there exactly if what follows does not continue it. */
module JsonLiterals {
  import opened Wrappers
  import opened AsciiJson
  import opened JsonScan
  import opened JsonTheorems

  predicate StartsDigit(t: Text) {
    t != [] && Digit(t[0])
  }

  predicate StartsFraction(t: Text) {
    |t| >= 2 && t[0] == DOT && Digit(t[1])
  }

  predicate StartsExponent(t: Text) {
    && |t| >= 2 && (t[0] == 0x65 || t[0] == 0x45)
    && (Digit(t[1]) || (|t| >= 3 && (t[1] == PLUS || t[1] == MINUS) && Digit(t[2])))
  }

  /** The text behind a literal is no part of a longer one. */
  predicate Ends(l: Literal, trailing: Text) {
    l.Number? ==>
      if l.exponent.Some? then !StartsDigit(trailing)
      else if l.fraction.Some? then !StartsDigit(trailing) && !StartsExponent(trailing)
      else
        && (l.whole != [ZERO] ==> !StartsDigit(trailing))
        && !StartsFraction(trailing) && !StartsExponent(trailing)
  }

  // ----- runs of digits -----

  lemma NextIs(content: Text, at: nat, t: Text)
    requires at <= |content| && content[at..] == t && t != []
    ensures at < |content| && content[at] == t[0] && content[at + 1..] == t[1..]
  {
    assert content[at..][0] == t[0];
    assert content[at + 1..] == content[at..][1..];
  }

  lemma Behind(content: Text, at: nat, part: Text, rest: Text)
    requires at <= |content| && content[at..] == part + rest
    ensures at + |part| <= |content| && content[at + |part|..] == rest
  {
    assert content[at + |part|..] == content[at..][|part|..];
  }

  /** Digits are read to their end, and further exactly if more follow. */
  lemma {:induction false} DigitsRun(content: Text, at: nat, digits: Text, rest: Text)
    requires at <= |content| && content[at..] == digits + rest && Digits(digits)
    ensures at + |digits| <= DigitsEnd(content, at)
    ensures DigitsEnd(content, at) == at + |digits| <==> !StartsDigit(rest)
    decreases |digits|
  {
    if digits == [] {
      assert digits + rest == rest;
      if rest != [] { NextIs(content, at, rest); }
    } else {
      NextIs(content, at, digits + rest);
      assert (digits + rest)[1..] == digits[1..] + rest;
      DigitsRun(content, at + 1, digits[1..], rest);
    }
  }

  // ----- exponents and fractions -----

  function ExponentText(e: Option<Exponent>): Text {
    if e.Some? then [e.value.letter] + e.value.sign + e.value.digits else []
  }

  function FractionText(f: Option<Text>): Text {
    if f.Some? then [DOT] + f.value else []
  }

  lemma NoExponent(content: Text, at: nat, trailing: Text)
    requires at <= |content| && content[at..] == trailing
    ensures at <= ExponentEnd(content, at)
    ensures ExponentEnd(content, at) == at <==> !StartsExponent(trailing)
  {
    if trailing != [] {
      NextIs(content, at, trailing);
      if |trailing| >= 2 {
        NextIs(content, at + 1, trailing[1..]);
        if |trailing| >= 3 { NextIs(content, at + 2, trailing[2..]); }
      }
    }
  }

  lemma SignedDigits(content: Text, at: nat, e: Exponent, trailing: Text)
    requires at <= |content| && content[at..] == e.sign + (e.digits + trailing)
    requires e.sign == [] || e.sign == [PLUS] || e.sign == [MINUS]
    requires e.digits != [] && Digits(e.digits)
    ensures at < |content|
    ensures (if content[at] == PLUS || content[at] == MINUS then at + 1 else at) == at + |e.sign|
    ensures at + |e.sign| < |content| && Digit(content[at + |e.sign|])
    ensures at + |e.sign| + |e.digits| <= DigitsEnd(content, at + |e.sign|)
    ensures DigitsEnd(content, at + |e.sign|) == at + |e.sign| + |e.digits| <==> !StartsDigit(trailing)
  {
    hide DigitsEnd, StartsDigit;
    NextIs(content, at, e.sign + (e.digits + trailing));
    Behind(content, at, e.sign, e.digits + trailing);
    NextIs(content, at + |e.sign|, e.digits + trailing);
    DigitsRun(content, at + |e.sign|, e.digits, trailing);
    assert Digit(e.digits[0]);
    if e.sign == [] { assert e.sign + (e.digits + trailing) == e.digits + trailing; }
  }

  lemma SomeExponent(content: Text, at: nat, l: Literal, trailing: Text)
    requires LiteralOk(l) && l.Number? && l.exponent.Some?
    requires at <= |content| && content[at..] == ExponentText(l.exponent) + trailing
    ensures at + |ExponentText(l.exponent)| <= ExponentEnd(content, at)
    ensures ExponentEnd(content, at) == at + |ExponentText(l.exponent)| <==> !StartsDigit(trailing)
  {
    var e := l.exponent.value;
    var signed := e.sign + (e.digits + trailing);
    assert ExponentText(l.exponent) + trailing == [e.letter] + signed;
    NextIs(content, at, [e.letter] + signed);
    Behind(content, at, [e.letter], signed);
    hide DigitsEnd, StartsDigit, Digits;
    SignedDigits(content, at + 1, e, trailing);
  }

  lemma ExponentIs(content: Text, at: nat, l: Literal, trailing: Text)
    requires LiteralOk(l) && l.Number?
    requires at <= |content| && content[at..] == ExponentText(l.exponent) + trailing
    ensures at + |ExponentText(l.exponent)| <= ExponentEnd(content, at)
    ensures ExponentEnd(content, at) == at + |ExponentText(l.exponent)|
      <==> if l.exponent.Some? then !StartsDigit(trailing) else !StartsExponent(trailing)
  {
    if l.exponent.Some? {
      SomeExponent(content, at, l, trailing);
    } else {
      assert ExponentText(l.exponent) + trailing == trailing;
      NoExponent(content, at, trailing);
    }
  }

  /** What the pattern takes for a fraction. */
  function FractionEnd(content: Text, at: nat): (r: nat)
    requires at <= |content|
    ensures at <= r <= |content|
  {
    if at + 1 < |content| && content[at] == DOT && Digit(content[at + 1]) then DigitsEnd(content, at + 1) else at
  }

  lemma FractionIs(content: Text, at: nat, fraction: Option<Text>, rest: Text)
    requires fraction.Some? ==> fraction.value != [] && Digits(fraction.value)
    requires at <= |content| && content[at..] == FractionText(fraction) + rest
    ensures at + |FractionText(fraction)| <= FractionEnd(content, at)
    ensures FractionEnd(content, at) == at + |FractionText(fraction)|
      <==> if fraction.Some? then !StartsDigit(rest) else !StartsFraction(rest)
  {
    if fraction.Some? {
      SomeFraction(content, at, fraction.value, rest);
    } else {
      assert FractionText(fraction) + rest == rest;
      NoFraction(content, at, rest);
    }
  }

  lemma SomeFraction(content: Text, at: nat, digits: Text, rest: Text)
    requires digits != [] && Digits(digits)
    requires at <= |content| && content[at..] == [DOT] + digits + rest
    ensures at + |digits| + 1 <= FractionEnd(content, at)
    ensures FractionEnd(content, at) == at + |digits| + 1 <==> !StartsDigit(rest)
  {
    hide DigitsEnd, StartsDigit;
    assert Digit(digits[0]);
    Associate([DOT], digits, rest);
    NextIs(content, at, [DOT] + (digits + rest));
    Behind(content, at, [DOT], digits + rest);
    NextIs(content, at + 1, digits + rest);
    DigitsRun(content, at + 1, digits, rest);
  }

  lemma NoFraction(content: Text, at: nat, rest: Text)
    requires at <= |content| && content[at..] == rest
    ensures at <= FractionEnd(content, at)
    ensures FractionEnd(content, at) == at <==> !StartsFraction(rest)
  {
    hide DigitsEnd;
    if rest != [] {
      NextIs(content, at, rest);
      if |rest| >= 2 {
        NextIs(content, at + 1, rest[1..]);
      }
    }
  }

  // ----- numbers -----

  function SignText(negative: bool): Text {
    if negative then [MINUS] else []
  }

  /** What the pattern takes for the whole part. */
  function WholeEnd(content: Text, at: nat): (r: nat)
    requires at < |content|
    ensures at <= r <= |content|
  {
    if content[at] == ZERO then at + 1 else DigitsEnd(content, at)
  }

  predicate WholeEnds(content: Text, at: nat, whole: Text, rest: Text)
    requires at < |content|
  {
    WholeEnd(content, at) == at + |whole| <==> (whole == [ZERO] || !StartsDigit(rest))
  }

  lemma WholeIs(content: Text, at: nat, whole: Text, rest: Text)
    requires whole != [] && Digits(whole) && (whole[0] == ZERO ==> |whole| == 1)
    requires at <= |content| && content[at..] == whole + rest
    ensures at < |content| && Digit(content[at])
    ensures at + |whole| <= WholeEnd(content, at)
    ensures WholeEnds(content, at, whole, rest)
  {
    NextIs(content, at, whole + rest);
    hide DigitsEnd;
    DigitsRun(content, at, whole, rest);
    assert Digit(whole[0]);
  }

  /** The pattern, part by part. */
  lemma NumberEndParts(content: Text, at: nat)
    requires at <= |content|
    ensures var first := if at < |content| && content[at] == MINUS then at + 1 else at;
      NumberEnd(content, at)
      == if first >= |content| || !Digit(content[first]) then None
         else Some(ExponentEnd(content, FractionEnd(content, WholeEnd(content, first))))
  {
    hide DigitsEnd, ExponentEnd;
  }

  /** What follows one part of a number decides whether that part ends there. */
  lemma RestStops(fraction: Option<Text>, exponent: Option<Exponent>, trailing: Text)
    requires exponent.Some? ==> exponent.value.letter == 0x65 || exponent.value.letter == 0x45
    ensures var afterFraction := ExponentText(exponent) + trailing;
      && (StartsDigit(afterFraction) <==> exponent.None? && StartsDigit(trailing))
      && (StartsFraction(afterFraction) <==> exponent.None? && StartsFraction(trailing))
      && (StartsDigit(FractionText(fraction) + afterFraction) <==> fraction.None? && exponent.None? && StartsDigit(trailing))
  {
    var afterFraction := ExponentText(exponent) + trailing;
    if exponent.None? {
      assert afterFraction == trailing;
    } else {
      assert afterFraction[0] == exponent.value.letter;
    }
    if fraction.None? {
      assert FractionText(fraction) + afterFraction == afterFraction;
    } else {
      assert (FractionText(fraction) + afterFraction)[0] == DOT;
    }
  }

  lemma NumberText(l: Literal, trailing: Text)
    requires l.Number?
    ensures LiteralText(l) + trailing
         == SignText(l.negative) + Unsigned(l, trailing)
    ensures |LiteralText(l)| == |SignText(l.negative)| + SizeOf(l)
  {
    var a, b, c, d := SignText(l.negative), l.whole, FractionText(l.fraction), ExponentText(l.exponent);
    assert LiteralText(l) == a + b + c + d;
    hide LiteralText, SignText, FractionText, ExponentText;
    Associate(a + b + c, d, trailing);
    Associate(a + b, c, d + trailing);
    Associate(a, b, c + (d + trailing));
  }

  lemma SignIs(content: Text, at: nat, negative: bool, rest: Text)
    requires at <= |content| && content[at..] == SignText(negative) + rest && StartsDigit(rest)
    ensures (if at < |content| && content[at] == MINUS then at + 1 else at) == at + |SignText(negative)|
    ensures at + |SignText(negative)| <= |content| && content[at + |SignText(negative)|..] == rest
  {
    NextIs(content, at, SignText(negative) + rest);
    Behind(content, at, SignText(negative), rest);
    if !negative { assert SignText(negative) + rest == rest; }
  }

  /** A number is scanned exactly if what follows does not continue it. */
  lemma NumberIsExact(content: Text, at: nat, l: Literal, trailing: Text)
    requires LiteralOk(l) && l.Number?
    requires at <= |content| && content[at..] == LiteralText(l) + trailing
    ensures NumberEnd(content, at) == Some(at + |LiteralText(l)|) <==> Ends(l, trailing)
  {
    hide *;
    NumberText(l, trailing);
    var first := SignedNumber(content, at, l, trailing);
    NumberFrom(content, at, first, l, trailing);
  }

  /** Where the digits start. */
  predicate FirstDigit(content: Text, at: nat, first: nat) {
    first == if at < |content| && content[at] == MINUS then at + 1 else at
  }

  function SizeOf(l: Literal): nat
    requires l.Number?
  {
    |l.whole| + |FractionText(l.fraction)| + |ExponentText(l.exponent)|
  }

  function Unsigned(l: Literal, trailing: Text): Text
    requires l.Number?
  {
    l.whole + (FractionText(l.fraction) + (ExponentText(l.exponent) + trailing))
  }

  lemma SignedNumber(content: Text, at: nat, l: Literal, trailing: Text) returns (first: nat)
    requires LiteralOk(l) && l.Number?
    requires at <= |content| && content[at..] == SignText(l.negative) + Unsigned(l, trailing)
    ensures FirstDigit(content, at, first) && first == at + |SignText(l.negative)|
    ensures first <= |content| && content[first..] == Unsigned(l, trailing)
  {
    first := at + |SignText(l.negative)|;
    assert Digit(l.whole[0]) && Unsigned(l, trailing)[0] == l.whole[0];
    hide Unsigned, SignText, LiteralOk;
    SignIs(content, at, l.negative, Unsigned(l, trailing));
  }

  lemma NumberFrom(content: Text, at: nat, first: nat, l: Literal, trailing: Text)
    requires LiteralOk(l) && l.Number? && at <= |content| && FirstDigit(content, at, first)
    requires first <= |content| && content[first..] == Unsigned(l, trailing)
    ensures NumberEnd(content, at) == Some(first + SizeOf(l)) <==> Ends(l, trailing)
  {
    hide *;
    WholeStarts(content, first, l, trailing);
    NumberEndFrom(content, at, first);
    NumberSettles(content, first, l, trailing);
  }

  lemma NumberEndFrom(content: Text, at: nat, first: nat)
    requires at <= |content| && FirstDigit(content, at, first) && first < |content| && Digit(content[first])
    ensures NumberEnd(content, at) == Some(ExponentEnd(content, FractionEnd(content, WholeEnd(content, first))))
  {
    NumberEndParts(content, at);
    hide NumberEnd, WholeEnd, FractionEnd, ExponentEnd;
  }

  /** The whole part of the number was read, and further exactly if it goes on. */
  predicate WholeRead(content: Text, first: nat, l: Literal, trailing: Text)
    requires l.Number? && first < |content|
  {
    first + |l.whole| <= WholeEnd(content, first)
    && WholeEnds(content, first, l.whole, FractionText(l.fraction) + (ExponentText(l.exponent) + trailing))
  }

  lemma WholeStarts(content: Text, first: nat, l: Literal, trailing: Text)
    requires LiteralOk(l) && l.Number?
    requires first <= |content| && content[first..] == Unsigned(l, trailing)
    ensures first < |content| && Digit(content[first]) && WholeRead(content, first, l, trailing)
  {
    hide WholeEnds, WholeEnd, FractionText, ExponentText;
    WholeIs(content, first, l.whole, FractionText(l.fraction) + (ExponentText(l.exponent) + trailing));
  }

  lemma NumberSettles(content: Text, first: nat, l: Literal, trailing: Text)
    requires LiteralOk(l) && l.Number? && first < |content|
    requires content[first..] == Unsigned(l, trailing) && WholeRead(content, first, l, trailing)
    ensures ExponentEnd(content, FractionEnd(content, WholeEnd(content, first))) == first + SizeOf(l) <==> Ends(l, trailing)
  {
    var afterFraction := ExponentText(l.exponent) + trailing;
    RestStops(l.fraction, l.exponent, trailing);
    var whole := WholeEnd(content, first);
    hide StartsDigit, StartsFraction, StartsExponent, WholeEnd, FractionEnd, ExponentEnd;
    if whole == first + |l.whole| {
      Behind(content, first, l.whole, FractionText(l.fraction) + afterFraction);
      FractionIs(content, whole, l.fraction, afterFraction);
      var fraction := FractionEnd(content, whole);
      if fraction == whole + |FractionText(l.fraction)| {
        Behind(content, whole, FractionText(l.fraction), afterFraction);
        ExponentIs(content, fraction, l, trailing);
      }
    }
  }

  // ----- the first value -----

  lemma WordIsExact(content: Text, at: nat, l: Literal, trailing: Text)
    requires !l.Number?
    requires at <= |content| && content[at..] == LiteralText(l) + trailing
    ensures PrimitiveEnd(content, at) == Some(at + |LiteralText(l)|)
  {
    var word := LiteralText(l);
    Behind(content, at, word, trailing);
    NextIs(content, at, word + trailing);
    assert content[at..at + |word|] == content[at..][..|word|] == word;
    assert StartsWith(content, at, word) && content[at] == word[0];
    hide NumberEnd;
    WordBegins(content, at, TRUE_TEXT);
    WordBegins(content, at, FALSE_TEXT);
    WordBegins(content, at, NULL_TEXT);
    hide StartsWith;
  }

  lemma NumberIsNoWord(content: Text, at: nat, l: Literal, trailing: Text)
    requires LiteralOk(l) && l.Number?
    requires at <= |content| && content[at..] == LiteralText(l) + trailing
    ensures at < |content| && (Digit(content[at]) || content[at] == MINUS)
    ensures PrimitiveEnd(content, at) == NumberEnd(content, at)
  {
    NumberStarts(l);
    hide LiteralText, LiteralOk, NumberEnd, PrimitiveEnd, Digit;
    NextIs(content, at, LiteralText(l) + trailing);
    NoWordHere(content, at);
  }

  lemma NumberStarts(l: Literal)
    requires LiteralOk(l) && l.Number?
    ensures LiteralText(l) != [] && (Digit(LiteralText(l)[0]) || LiteralText(l)[0] == MINUS)
  {
    assert Digit(l.whole[0]);
    NumberText(l, []);
    assert LiteralText(l)[0] == if l.negative then MINUS else l.whole[0];
  }

  lemma NoWordHere(content: Text, at: nat)
    requires at < |content| && (Digit(content[at]) || content[at] == MINUS)
    ensures PrimitiveEnd(content, at) == NumberEnd(content, at)
  {
    hide NumberEnd;
    WordBegins(content, at, TRUE_TEXT);
    WordBegins(content, at, FALSE_TEXT);
    WordBegins(content, at, NULL_TEXT);
    hide StartsWith;
  }

  lemma WordBegins(content: Text, at: nat, word: Text)
    requires at < |content| && word != []
    ensures StartsWith(content, at, word) ==> content[at] == word[0]
  {
    assert at + |word| <= |content| ==> content[at..at + |word|][0] == content[at];
  }

  /** For every literal of the grammar the first value is exactly that literal,
      unless it is a number which the text behind it continues. */
  lemma FirstLiteralIsExact(lead: Text, l: Literal, trailing: Text)
    requires LiteralOk(l) && PatternSpaces(lead)
    ensures FirstValue(lead + LiteralText(l) + trailing) == Ok((|lead|, |lead| + |LiteralText(l)|)) <==> Ends(l, trailing)
  {
    hide *;
    var t := LiteralText(l) + trailing;
    Associate(lead, LiteralText(l), trailing);
    assert (lead + t)[|lead|..] == t;
    LiteralEnds(lead + t, |lead|, l, trailing);
    PrimitiveStarts(lead, t);
  }

  lemma LiteralEnds(content: Text, at: nat, l: Literal, trailing: Text)
    requires LiteralOk(l)
    requires at <= |content| && content[at..] == LiteralText(l) + trailing
    ensures PrimitiveEnd(content, at) == Some(at + |LiteralText(l)|) <==> Ends(l, trailing)
    ensures var t := LiteralText(l) + trailing; t != [] && !PatternSpace(t[0]) && !Opening(t[0]) && t[0] != QUOTE
  {
    if l.Number? {
      NumberStarts(l);
      hide PrimitiveEnd, NumberEnd, Ends, LiteralOk, LiteralText;
      NumberIsNoWord(content, at, l, trailing);
      NumberIsExact(content, at, l, trailing);
    } else {
      WordIsExact(content, at, l, trailing);
      assert (LiteralText(l) + trailing)[0] == LiteralText(l)[0];
      hide PrimitiveEnd, NumberEnd;
    }
  }

  /** A value that opens with no bracket and no quote is scanned as a primitive. */
  lemma PrimitiveStarts(lead: Text, t: Text)
    requires PatternSpaces(lead) && t != [] && !PatternSpace(t[0]) && !Opening(t[0]) && t[0] != QUOTE
    ensures var end := PrimitiveEnd(lead + t, |lead|);
      FirstValue(lead + t) == if end.Some? then Ok((|lead|, end.value)) else Err(Invalid)
  {
    hide PrimitiveEnd, ScanNested, ScanString;
    assert (lead + t)[|lead|] == t[0];
    SkipsSpaces(lead, lead + t, 0);
  }
}
