/** The text that identifies a source snapshot or a projection, before hashing:
    decimal lengths frame every part, so nothing in a part can pass for a frame. */
module Framing {
  import opened Wrappers

  /** A character that UTF-8 can encode. */
  type Scalar = c: int | 0 <= c < 0xd800 || 0xe000 <= c < 0x11_0000

  type Text = seq<Scalar>

  const COLON: Scalar := 0x3a
  const HYPHEN: Scalar := 0x2d
  const ZERO: Scalar := 0x30

  // ----- UTF-8 -----

  function Utf8(c: Scalar): seq<int> {
    if c < 0x80 then [c]
    else if c < 0x800 then [0xc0 + c / 0x40, 0x80 + c % 0x40]
    else if c < 0x1_0000 then [0xe0 + c / 0x1000, 0x80 + c / 0x40 % 0x40, 0x80 + c % 0x40]
    else [0xf0 + c / 0x4_0000, 0x80 + c / 0x1000 % 0x40, 0x80 + c / 0x40 % 0x40, 0x80 + c % 0x40]
  }

  function Encode(t: Text): seq<int> {
    if t == [] then [] else Utf8(t[0]) + Encode(t[1..])
  }

  function ByteLength(t: Text): nat {
    |Encode(t)|
  }

  /** Read one character off the front. */
  function ReadUtf8(bytes: seq<int>): (int, nat)
    requires bytes != []
  {
    var b := bytes[0];
    if b < 0x80 then (b, 1)
    else if b < 0xe0 && |bytes| >= 2 then ((b - 0xc0) * 0x40 + bytes[1] - 0x80, 2)
    else if b < 0xf0 && |bytes| >= 3 then ((b - 0xe0) * 0x1000 + (bytes[1] - 0x80) * 0x40 + bytes[2] - 0x80, 3)
    else if |bytes| >= 4 then
      ((b - 0xf0) * 0x4_0000 + (bytes[1] - 0x80) * 0x1000 + (bytes[2] - 0x80) * 0x40 + bytes[3] - 0x80, 4)
    else (0, 0)
  }

  lemma Utf8RoundTrip(c: Scalar, rest: seq<int>)
    ensures ReadUtf8(Utf8(c) + rest) == (c, |Utf8(c)|)
  {
    var bytes := Utf8(c) + rest;
    assert bytes[0] == Utf8(c)[0];
    if c >= 0x80 {
      assert bytes[1] == Utf8(c)[1];
      if c >= 0x800 {
        assert bytes[2] == Utf8(c)[2];
        assert c / 0x40 == c / 0x1000 * 0x40 + c / 0x40 % 0x40;
        if c >= 0x1_0000 {
          assert bytes[3] == Utf8(c)[3];
          assert c / 0x1000 == c / 0x4_0000 * 0x40 + c / 0x1000 % 0x40;
        }
      }
    }
  }

  lemma {:induction false} EncodeInjective(a: Text, b: Text)
    requires Encode(a) == Encode(b)
    ensures a == b
  {
    if a != [] && b != [] {
      Utf8RoundTrip(a[0], Encode(a[1..]));
      Utf8RoundTrip(b[0], Encode(b[1..]));
      var n := |Utf8(a[0])|;
      assert Encode(a)[n..] == Encode(a[1..]) && Encode(b)[n..] == Encode(b[1..]);
      EncodeInjective(a[1..], b[1..]);
      assert a == [a[0]] + a[1..] && b == [b[0]] + b[1..];
    }
  }

  // ----- decimal numbers -----

  predicate Digit(c: Scalar) {
    ZERO <= c < ZERO + 10
  }

  function Decimal(n: nat): Text {
    (if n < 10 then [] else Decimal(n / 10)) + [ZERO + n % 10]
  }

  /** Read digits up to the colon, which is taken too. */
  function ReadNumber(t: Text, soFar: nat): Option<(nat, Text)>
    decreases |t|
  {
    if t == [] then None
    else if t[0] == COLON then Some((soFar, t[1..]))
    else if Digit(t[0]) then ReadNumber(t[1..], soFar * 10 + t[0] - ZERO)
    else None
  }

  lemma ReadDigit(d: Scalar, t: Text, soFar: nat)
    requires Digit(d)
    ensures ReadNumber([d] + t, soFar) == ReadNumber(t, soFar * 10 + d - ZERO)
  {
    assert ([d] + t)[1..] == t;
  }

  lemma {:induction false} NumberRoundTrip(n: nat, t: Text)
    ensures ReadNumber(Decimal(n) + t, 0) == ReadNumber(t, n)
    decreases n
  {
    hide ReadNumber;
    ReadDigit(ZERO + n % 10, t, n / 10);
    if n >= 10 {
      assert Decimal(n) + t == Decimal(n / 10) + ([ZERO + n % 10] + t);
      NumberRoundTrip(n / 10, [ZERO + n % 10] + t);
    } else {
      assert Decimal(n) + t == [ZERO + n % 10] + t;
    }
  }

  /** A number followed by a colon is read back with what follows. */
  lemma ReadsBack(n: nat, t: Text)
    ensures ReadNumber(Decimal(n) + [COLON] + t, 0) == Some((n, t))
  {
    assert Decimal(n) + [COLON] + t == Decimal(n) + ([COLON] + t);
    NumberRoundTrip(n, [COLON] + t);
    assert ([COLON] + t)[1..] == t;
  }

  // ----- frames -----

  /** A part behind the number of bytes it has in UTF-8. */
  function Frame(value: Text): Text {
    Decimal(ByteLength(value)) + [COLON] + value
  }

  /** The characters that take up the next `bytes` bytes. */
  function TakeBytes(t: Text, bytes: nat): Option<(Text, Text)>
    decreases |t|
  {
    if bytes == 0 then Some(([], t))
    else if t == [] || |Utf8(t[0])| > bytes then None
    else
      match TakeBytes(t[1..], bytes - |Utf8(t[0])|)
      case None => None
      case Some((value, rest)) => Some(([t[0]] + value, rest))
  }

  function Unframe(t: Text): Option<(Text, Text)> {
    match ReadNumber(t, 0)
    case None => None
    case Some((bytes, rest)) => TakeBytes(rest, bytes)
  }

  lemma {:induction false} TakesBack(value: Text, rest: Text)
    ensures TakeBytes(value + rest, ByteLength(value)) == Some((value, rest))
  {
    if value == [] {
      assert value + rest == rest;
    } else {
      TakesBack(value[1..], rest);
      assert (value + rest)[1..] == value[1..] + rest;
      assert [value[0]] + value[1..] == value;
    }
  }

  /** Whatever a part holds, digits and colons too, it is read back exactly. */
  lemma UnframesBack(value: Text, rest: Text)
    ensures Unframe(Frame(value) + rest) == Some((value, rest))
  {
    hide ReadNumber, TakeBytes, Decimal, ByteLength;
    assert Frame(value) + rest == Decimal(ByteLength(value)) + [COLON] + (value + rest);
    ReadsBack(ByteLength(value), value + rest);
    TakesBack(value, rest);
  }

  /** Parts are framed by bytes: one character of two bytes, and a part that looks like a frame. */
  lemma FrameExamples()
    ensures Frame([0xe9]) == [0x32, COLON, 0xe9]
    ensures Frame([0x32, COLON, 0x61]) == [0x33, COLON, 0x32, COLON, 0x61]
    ensures Frame([]) == [0x30, COLON]
  {
    assert [0xe9][1..] == [] && [0x61][1..] == [];
    assert [COLON, 0x61][1..] == [0x61] && [0x32, COLON, 0x61][1..] == [COLON, 0x61];
    assert ByteLength([0xe9]) == 2;
    assert Encode([0x61]) == [0x61] && Encode([COLON, 0x61]) == [COLON, 0x61];
    assert Encode([0x32, COLON, 0x61]) == [0x32, COLON, 0x61];
  }

  // ----- the source -----

  datatype Message = Message(role: Text, text: Text)

  datatype Source = Source(session: Text, start: Text, end: Text, messages: seq<Message>)

  /** "reflection-source-v1:" */
  const SOURCE_PREFIX: Text :=
    [0x72, 0x65, 0x66, 0x6c, 0x65, 0x63, 0x74, 0x69, 0x6f, 0x6e, 0x2d,
     0x73, 0x6f, 0x75, 0x72, 0x63, 0x65, 0x2d, 0x76, 0x31, 0x3a]

  function MessagesText(messages: seq<Message>): Text {
    if messages == [] then []
    else Frame(messages[0].role) + Frame(messages[0].text) + MessagesText(messages[1..])
  }

  function SourceText(s: Source): Text {
    SOURCE_PREFIX + (Frame(s.session) + Frame(s.start) + Frame(s.end) + Decimal(|s.messages|) + [COLON]
                     + MessagesText(s.messages))
  }

  function ReadMessages(t: Text, count: nat): Option<(seq<Message>, Text)>
    decreases count
  {
    if count == 0 then Some(([], t))
    else
      match Unframe(t)
      case None => None
      case Some((role, afterRole)) =>
        match Unframe(afterRole)
        case None => None
        case Some((text, afterText)) =>
          match ReadMessages(afterText, count - 1)
          case None => None
          case Some((messages, rest)) => Some(([Message(role, text)] + messages, rest))
  }

  function ReadSource(t: Text): Option<Source> {
    if !(SOURCE_PREFIX <= t) then None
    else
      match Unframe(t[|SOURCE_PREFIX|..])
      case None => None
      case Some((session, afterSession)) =>
        match Unframe(afterSession)
        case None => None
        case Some((start, afterStart)) =>
          match Unframe(afterStart)
          case None => None
          case Some((end, afterEnd)) =>
            match ReadNumber(afterEnd, 0)
            case None => None
            case Some((count, afterCount)) =>
              match ReadMessages(afterCount, count)
              case None => None
              case Some((messages, rest)) => if rest == [] then Some(Source(session, start, end, messages)) else None
  }

  lemma {:induction false} MessagesReadBack(messages: seq<Message>, rest: Text)
    ensures ReadMessages(MessagesText(messages) + rest, |messages|) == Some((messages, rest))
  {
    hide Unframe, Frame;
    if messages == [] {
      assert [] + rest == rest;
    } else {
      var m, more := messages[0], messages[1..];
      assert MessagesText(messages) + rest == Frame(m.role) + (Frame(m.text) + (MessagesText(more) + rest));
      UnframesBack(m.role, Frame(m.text) + (MessagesText(more) + rest));
      UnframesBack(m.text, MessagesText(more) + rest);
      MessagesReadBack(more, rest);
      assert [m] + more == messages;
    }
  }

  /** Reading gives back exactly the source that was written. */
  lemma SourceRoundTrip(s: Source)
    ensures ReadSource(SourceText(s)) == Some(s)
  {
    hide Unframe, Frame, ReadNumber, ReadMessages, MessagesText, Decimal;
    var messages := MessagesText(s.messages);
    var counted := Decimal(|s.messages|) + [COLON] + messages;
    var t := SourceText(s);
    assert t[|SOURCE_PREFIX|..] == Frame(s.session) + (Frame(s.start) + (Frame(s.end) + counted));
    UnframesBack(s.session, Frame(s.start) + (Frame(s.end) + counted));
    UnframesBack(s.start, Frame(s.end) + counted);
    UnframesBack(s.end, counted);
    ReadsBack(|s.messages|, messages);
    MessagesReadBack(s.messages, []);
    assert messages + [] == messages;
  }

  /** Different sources are hashed from different bytes. */
  lemma SourceInjective(a: Source, b: Source)
    ensures Encode(SourceText(a)) == Encode(SourceText(b)) <==> a == b
  {
    hide SourceText, ReadSource, Encode;
    if Encode(SourceText(a)) == Encode(SourceText(b)) {
      EncodeInjective(SourceText(a), SourceText(b));
      SourceRoundTrip(a);
      SourceRoundTrip(b);
    }
  }

  // ----- the projection -----

  predicate HexDigit(c: Scalar) {
    Digit(c) || 0x61 <= c <= 0x66
  }

  predicate UuidText(t: Text) {
    |t| == 36 &&
    forall i :: 0 <= i < 36 ==> if i == 8 || i == 13 || i == 18 || i == 23 then t[i] == HYPHEN else HexDigit(t[i])
  }

  datatype Projection = Projection(segment: Text, end: Text, summary: Text, version: int)

  function Integer(n: int): Text {
    if n < 0 then [HYPHEN] + Decimal(-n) else Decimal(n)
  }

  function ProjectionText(p: Projection): Text {
    p.segment + [COLON] + Decimal(|p.end|) + [COLON] + p.end + [COLON]
    + Decimal(|p.summary|) + [COLON] + p.summary + [COLON] + Integer(p.version)
  }

  /** A part behind the number of its characters, and the colon after it. */
  function ReadCounted(t: Text): Option<(Text, Text)> {
    match ReadNumber(t, 0)
    case None => None
    case Some((count, rest)) =>
      if count < |rest| && rest[count] == COLON then Some((rest[..count], rest[count + 1..])) else None
  }

  function ReadInteger(t: Text): Option<int> {
    var negative := t != [] && t[0] == HYPHEN;
    match ReadNumber((if negative then t[1..] else t) + [COLON], 0)
    case None => None
    case Some((n, rest)) => if rest == [] then Some(if negative then 0 - n else n) else None
  }

  function ReadProjection(t: Text): Option<Projection> {
    if |t| < 37 || t[36] != COLON then None
    else
      match ReadCounted(t[37..])
      case None => None
      case Some((end, afterEnd)) =>
        match ReadCounted(afterEnd)
        case None => None
        case Some((summary, afterSummary)) =>
          match ReadInteger(afterSummary)
          case None => None
          case Some(version) => Some(Projection(t[..36], end, summary, version))
  }

  lemma Reassociate(a: Text, b: Text, c: Text, d: Text)
    ensures a + b + c + d == a + (b + (c + d))
  {
  }

  lemma CountedReadsBack(value: Text, rest: Text)
    ensures ReadCounted(Decimal(|value|) + [COLON] + value + [COLON] + rest) == Some((value, rest))
  {
    hide ReadNumber, Decimal;
    var after := value + ([COLON] + rest);
    assert after[|value|] == COLON && after[|value| + 1..] == rest && after[..|value|] == value;
    ReadsBack(|value|, after);
    Reassociate(Decimal(|value|) + [COLON], value, [COLON], rest);
  }

  lemma {:induction false} DecimalStarts(n: nat)
    ensures Decimal(n) != [] && Digit(Decimal(n)[0])
  {
    if n >= 10 { DecimalStarts(n / 10); }
  }

  lemma IntegerReadsBack(n: int)
    ensures ReadInteger(Integer(n)) == Some(n)
  {
    hide ReadNumber, Decimal;
    var m := if n < 0 then -n else n;
    DecimalStarts(m);
    ReadsBack(m, []);
    assert Decimal(m) + [COLON] + [] == Decimal(m) + [COLON];
    if n < 0 { assert Integer(n)[1..] == Decimal(m); }
  }

  lemma ProjectionRoundTrip(p: Projection)
    requires UuidText(p.segment)
    ensures ReadProjection(ProjectionText(p)) == Some(p)
  {
    hide ReadCounted, Decimal, Integer, ReadInteger;
    var t := ProjectionText(p);
    var second := Decimal(|p.summary|) + [COLON] + p.summary + [COLON] + Integer(p.version);
    var first := Decimal(|p.end|) + [COLON] + p.end + [COLON] + second;
    assert t == p.segment + [COLON] + first;
    hide ProjectionText;
    assert t[..36] == p.segment && t[36] == COLON && t[37..] == first;
    CountedReadsBack(p.end, second);
    CountedReadsBack(p.summary, Integer(p.version));
    IntegerReadsBack(p.version);
  }

  /** Different projections are hashed from different bytes. */
  lemma ProjectionInjective(a: Projection, b: Projection)
    requires UuidText(a.segment) && UuidText(b.segment)
    ensures Encode(ProjectionText(a)) == Encode(ProjectionText(b)) <==> a == b
  {
    hide ProjectionText, ReadProjection, Encode;
    if Encode(ProjectionText(a)) == Encode(ProjectionText(b)) {
      EncodeInjective(ProjectionText(a), ProjectionText(b));
      ProjectionRoundTrip(a);
      ProjectionRoundTrip(b);
    }
  }
}
