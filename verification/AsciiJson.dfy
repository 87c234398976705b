/** JSON text as UTF-16 code units: escaping to ASCII, and the strings of
    section 7 of RFC 8259. */
module AsciiJson {
  import opened Wrappers

  /** A UTF-16 code unit. */
  type CodeUnit = u: int | 0 <= u < 0x1_0000

  type Text = seq<CodeUnit>

  const QUOTE: CodeUnit := 0x22
  const BACKSLASH: CodeUnit := 0x5c
  const LOWER_U: CodeUnit := 0x75

  // ----- hexadecimal -----

  function HexDigit(d: int): (r: CodeUnit)
    requires 0 <= d < 16
    ensures r <= 0x7f
  {
    if d < 10 then 0x30 + d else 0x61 + d - 10
  }

  /** Upper and lower case are both digits. */
  function HexValue(u: CodeUnit): (r: Option<int>)
    ensures r.Some? ==> 0 <= r.value < 16
  {
    if 0x30 <= u <= 0x39 then Some(u - 0x30)
    else if 0x61 <= u <= 0x66 then Some(u - 0x61 + 10)
    else if 0x41 <= u <= 0x46 then Some(u - 0x41 + 10)
    else None
  }

  /** The six units of an escaped code unit. */
  function UnicodeEscape(u: CodeUnit): Text {
    [BACKSLASH, LOWER_U, HexDigit(u / 0x1000), HexDigit(u / 0x100 % 0x10), HexDigit(u / 0x10 % 0x10), HexDigit(u % 0x10)]
  }

  function FourHex(a: CodeUnit, b: CodeUnit, c: CodeUnit, d: CodeUnit): (r: Option<CodeUnit>) {
    hide HexValue;
    var w, x, y, z := HexValue(a), HexValue(b), HexValue(c), HexValue(d);
    if w.Some? && x.Some? && y.Some? && z.Some? then
      Some(w.value * 0x1000 + x.value * 0x100 + y.value * 0x10 + z.value)
    else None
  }

  lemma DigitRoundTrip(d: int)
    requires 0 <= d < 16
    ensures HexValue(HexDigit(d)) == Some(d)
  {
  }

  lemma HexRoundTrip(u: CodeUnit)
    ensures var e := UnicodeEscape(u); FourHex(e[2], e[3], e[4], e[5]) == Some(u)
  {
    DigitRoundTrip(u / 0x1000);
    DigitRoundTrip(u / 0x100 % 0x10);
    DigitRoundTrip(u / 0x10 % 0x10);
    DigitRoundTrip(u % 0x10);
    hide HexValue, HexDigit;
    assert u / 0x100 == u / 0x1000 * 0x10 + u / 0x100 % 0x10;
    assert u / 0x10 == u / 0x100 * 0x10 + u / 0x10 % 0x10;
  }

  // ----- strings -----

  /** The unit that a two-unit escape stands for. */
  function ShortEscape(u: CodeUnit): Option<CodeUnit> {
    if u == QUOTE || u == BACKSLASH || u == 0x2f then Some(u)
    else if u == 0x62 then Some(8)
    else if u == 0x66 then Some(12)
    else if u == 0x6e then Some(10)
    else if u == 0x72 then Some(13)
    else if u == 0x74 then Some(9)
    else None
  }

  /** The string value of what stands between the quotes, if that is valid. */
  function Decode(body: Text): Option<Text>
    decreases |body|
  {
    if body == [] then Some([])
    else if body[0] == BACKSLASH then
      if |body| >= 6 && body[1] == LOWER_U then
        var u := FourHex(body[2], body[3], body[4], body[5]);
        var rest := Decode(body[6..]);
        if u.Some? && rest.Some? then Some([u.value] + rest.value) else None
      else if |body| >= 2 then
        var u := ShortEscape(body[1]);
        var rest := Decode(body[2..]);
        if u.Some? && rest.Some? then Some([u.value] + rest.value) else None
      else None
    else if body[0] == QUOTE || body[0] < 0x20 then None
    else
      var rest := Decode(body[1..]);
      if rest.Some? then Some([body[0]] + rest.value) else None
  }

  /** Escape every unit above 0x7f. */
  function AsciiUnit(u: CodeUnit): Text {
    if u > 0x7f then UnicodeEscape(u) else [u]
  }

  function Ascii(json: Text): Text {
    if json == [] then [] else Ascii(json[..|json| - 1]) + AsciiUnit(json[|json| - 1])
  }

  predicate IsAscii(t: Text) {
    forall i :: 0 <= i < |t| ==> t[i] <= 0x7f
  }

  method CompactAscii(json: Text) returns (result: Text)
    ensures result == Ascii(json)
    ensures IsAscii(result)
  {
    result := [];
    hide Ascii, IsAscii, HexDigit;
    AsciiOfNone();
    for index := 0 to |json|
      invariant result == Ascii(json[..index])
    {
      AsciiSnoc(json[..index], json[index]);
      assert json[..index + 1] == json[..index] + [json[index]];
      var codeUnit := json[index];
      if codeUnit > 0x7f {
        result := result + UnicodeEscape(codeUnit);
      } else {
        result := result + [codeUnit];
      }
    }
    assert json[..|json|] == json;
    AsciiIsAscii(json);
  }

  lemma {:induction false} AsciiIsAscii(json: Text)
    ensures IsAscii(Ascii(json))
  {
    if json != [] { AsciiIsAscii(json[..|json| - 1]); }
  }

  lemma AsciiOfNone()
    ensures Ascii([]) == []
  {
  }

  lemma AsciiSnoc(t: Text, u: CodeUnit)
    ensures Ascii(t + [u]) == Ascii(t) + AsciiUnit(u)
  {
    assert (t + [u])[..|t|] == t;
  }

  lemma Associate(a: Text, b: Text, c: Text)
    ensures (a + b) + c == a + (b + c)
  {
  }

  lemma {:induction false} AsciiAppends(a: Text, b: Text)
    ensures Ascii(a + b) == Ascii(a) + Ascii(b)
  {
    hide Ascii, AsciiUnit;
    if b == [] {
      assert a + b == a;
      AsciiOfNone();
      assert Ascii(a) + [] == Ascii(a);
    } else {
      var n := |b| - 1;
      AsciiAppends(a, b[..n]);
      assert b[..n] + [b[n]] == b;
      Associate(a, b[..n], [b[n]]);
      AsciiSnoc(a + b[..n], b[n]);
      AsciiSnoc(b[..n], b[n]);
      Associate(Ascii(a), Ascii(b[..n]), AsciiUnit(b[n]));
    }
  }

  lemma {:induction false} AsciiKeeps(t: Text)
    requires IsAscii(t)
    ensures Ascii(t) == t
  {
    if t != [] {
      AsciiKeeps(t[..|t| - 1]);
      assert t == t[..|t| - 1] + [t[|t| - 1]];
    }
  }

  lemma AsciiOfUnit(u: CodeUnit)
    ensures Ascii([u]) == AsciiUnit(u)
  {
    assert [u][..0] == [];
  }

  /** Reading one escape or one plain unit off the front. */
  lemma DecodeUnicode(e: Text, rest: Text)
    requires |e| == 6 && e[0] == BACKSLASH && e[1] == LOWER_U
    ensures Decode(e + rest) ==
      var u := FourHex(e[2], e[3], e[4], e[5]);
      if u.Some? && Decode(rest).Some? then Some([u.value] + Decode(rest).value) else None
  {
    assert (e + rest)[6..] == rest;
  }

  lemma DecodeShort(a: CodeUnit, rest: Text)
    requires a != LOWER_U
    ensures Decode([BACKSLASH, a] + rest) ==
      if ShortEscape(a).Some? && Decode(rest).Some? then Some([ShortEscape(a).value] + Decode(rest).value) else None
  {
    assert ([BACKSLASH, a] + rest)[2..] == rest;
  }

  lemma DecodePlain(u: CodeUnit, rest: Text)
    requires u != BACKSLASH && u != QUOTE && u >= 0x20
    ensures Decode([u] + rest) == if Decode(rest).Some? then Some([u] + Decode(rest).value) else None
  {
    assert ([u] + rest)[1..] == rest;
  }

  /** ASCII escaping of a valid string body keeps the string it stands for. */
  lemma {:induction false} AsciiDecodesToTheSame(body: Text)
    requires Decode(body).Some?
    ensures Decode(Ascii(body)) == Decode(body)
    decreases |body|
  {
    hide Ascii;
    if body == [] {
      AsciiOfNone();
    } else {
      var u := body[0];
      if u == BACKSLASH && |body| >= 6 && body[1] == LOWER_U {
        var e, rest := body[..6], body[6..];
        assert body == e + rest;
        assert IsAscii(e);
        AsciiKeeps(e);
        AsciiAppends(e, rest);
        AsciiDecodesToTheSame(rest);
        DecodeUnicode(e, Ascii(rest));
      } else if u == BACKSLASH {
        var e, rest := [BACKSLASH, body[1]], body[2..];
        assert body == e + rest;
        assert IsAscii(e);
        AsciiKeeps(e);
        AsciiAppends(e, rest);
        AsciiDecodesToTheSame(rest);
        DecodeShort(body[1], Ascii(rest));
      } else {
        var rest := body[1..];
        assert body == [u] + rest;
        AsciiOfUnit(u);
        AsciiAppends([u], rest);
        AsciiDecodesToTheSame(rest);
        if u > 0x7f {
          HexRoundTrip(u);
          DecodeUnicode(UnicodeEscape(u), Ascii(rest));
        } else {
          DecodePlain(u, Ascii(rest));
        }
      }
    }
  }

  // ----- printing strings -----

  predicate Surrogate(u: CodeUnit) {
    0xd800 <= u <= 0xdfff
  }

  /** How JSON.stringify writes one unit; `lone` says that it is half of no pair. */
  function PrintUnit(u: CodeUnit, lone: bool): Text {
    if u == QUOTE || u == BACKSLASH then [BACKSLASH, u]
    else if u == 8 then [BACKSLASH, 0x62]
    else if u == 9 then [BACKSLASH, 0x74]
    else if u == 10 then [BACKSLASH, 0x6e]
    else if u == 12 then [BACKSLASH, 0x66]
    else if u == 13 then [BACKSLASH, 0x72]
    else if u < 0x20 || lone then UnicodeEscape(u)
    else [u]
  }

  /** The first unit is half of no surrogate pair. */
  predicate Lone(s: Text, i: nat)
    requires i < |s|
  {
    && Surrogate(s[i])
    && !(s[i] <= 0xdbff && i + 1 < |s| && 0xdc00 <= s[i + 1] <= 0xdfff)
    && !(s[i] >= 0xdc00 && i > 0 && 0xd800 <= s[i - 1] <= 0xdbff)
  }

  function PrintFrom(s: Text, i: nat): Text
    requires i <= |s|
    decreases |s| - i
  {
    if i == |s| then [] else PrintUnit(s[i], Lone(s, i)) + PrintFrom(s, i + 1)
  }

  /** What JSON.stringify writes between the quotes. */
  function PrintString(s: Text): Text {
    PrintFrom(s, 0)
  }

  lemma PrintedUnitDecodes(u: CodeUnit, lone: bool, rest: Text)
    requires Surrogate(u) || !lone
    ensures Decode(PrintUnit(u, lone) + rest) == if Decode(rest).Some? then Some([u] + Decode(rest).value) else None
  {
    hide Decode;
    var printed := PrintUnit(u, lone);
    if |printed| == 6 {
      HexRoundTrip(u);
      DecodeUnicode(printed, rest);
    } else if |printed| == 2 {
      assert printed == [BACKSLASH, printed[1]];
      DecodeShort(printed[1], rest);
    } else {
      DecodePlain(u, rest);
    }
  }

  lemma {:induction false} PrintedDecodes(s: Text, i: nat)
    requires i <= |s|
    ensures Decode(PrintFrom(s, i)) == Some(s[i..])
    decreases |s| - i
  {
    if i == |s| {
      assert s[i..] == [];
    } else {
      PrintedDecodes(s, i + 1);
      PrintedUnitDecodes(s[i], Lone(s, i), PrintFrom(s, i + 1));
      assert s[i..] == [s[i]] + s[i + 1..];
    }
  }

  /** Every string survives printing and ASCII escaping. */
  lemma StringRoundTrip(s: Text)
    ensures Decode(Ascii(PrintString(s))) == Some(s)
    ensures IsAscii(Ascii(PrintString(s)))
  {
    PrintedDecodes(s, 0);
    assert s[0..] == s;
    AsciiDecodesToTheSame(PrintString(s));
    AsciiIsAscii(PrintString(s));
  }
}
