/** The two ways of counting agree: over UTF-16 units as the server does, and over
    characters as the older service does. */
module Utf8Agreement {
  import opened Wrappers
  import A = AsciiJson
  import F = Framing
  import B = Batching
  import P = PromptBudget

  /** A character in UTF-16. */
  function Utf16(c: F.Scalar): A.Text {
    if c < 0x1_0000 then [c] else [0xd800 + (c - 0x1_0000) / 0x400, 0xdc00 + (c - 0x1_0000) % 0x400]
  }

  function Utf16All(t: F.Text): A.Text {
    if t == [] then [] else Utf16(t[0]) + Utf16All(t[1..])
  }

  /** The first character of a text is its own units. */
  lemma FirstCharacter(c: F.Scalar, rest: A.Text)
    ensures P.FirstUnits(Utf16(c) + rest) == |Utf16(c)|
    ensures B.Utf8Length(Utf16(c) + rest) == |F.Utf8(c)| + B.Utf8Length(rest)
    ensures P.CodePoints(Utf16(c) + rest) == 1 + P.CodePoints(rest)
  {
    var t := Utf16(c) + rest;
    assert t[|Utf16(c)|..] == rest;
    if c < 0x1_0000 {
      assert t[0] == c && !B.HighSurrogate(t[0]);
    } else {
      assert t[0] == Utf16(c)[0] && t[1] == Utf16(c)[1];
      assert B.HighSurrogate(t[0]) && B.LowSurrogate(t[1]);
    }
  }

  /** For every text of characters, the bytes and the characters that are counted over
      its UTF-16 units are those of its UTF-8 encoding. */
  lemma {:induction false} CountsAgree(t: F.Text)
    ensures B.Utf8Length(Utf16All(t)) == |F.Encode(t)|
    ensures P.CodePoints(Utf16All(t)) == |t|
  {
    if t != [] {
      hide B.Utf8Length, P.CodePoints, F.Utf8, Utf16;
      FirstCharacter(t[0], Utf16All(t[1..]));
      CountsAgree(t[1..]);
    }
  }
}
