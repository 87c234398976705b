/** Escaping a printed value to ASCII changes how it is written and not what it means. */
module JsonMeaning {
  import opened Wrappers
  import opened AsciiJson
  import opened JsonScan

  /** What a text means: white space and the writing of strings are gone. */
  datatype Value =
    | Plain(literal: Literal)
    | String(text: Text)
    | Array(elements: seq<Value>)
    | Object(entries: seq<(Text, Value)>)

  function Meaning(j: Json): Value
    requires JsonOk(j)
  {
    match j
    case Lit(l) => Plain(l)
    case Str(body) => String(Decode(body).value)
    case Arr(_, items) => Array(ItemsMeaning(items))
    case Obj(_, members) => Object(MembersMeaning(members))
  }

  function ItemsMeaning(items: Items): seq<Value>
    requires ItemsOk(items)
  {
    if items.NoItems? then [] else [Meaning(items.value)] + ItemsMeaning(items.more)
  }

  function MembersMeaning(members: Members): seq<(Text, Value)>
    requires MembersOk(members)
  {
    if members.NoMembers? then []
    else [(Decode(members.key).value, Meaning(members.value))] + MembersMeaning(members.more)
  }

  /** The same value with its strings escaped. */
  function Escaped(j: Json): Json {
    match j
    case Lit(l) => j
    case Str(body) => Str(Ascii(body))
    case Arr(lead, items) => Arr(lead, EscapedItems(items))
    case Obj(lead, members) => Obj(lead, EscapedMembers(members))
  }

  function EscapedItems(items: Items): Items {
    match items
    case NoItems => NoItems
    case Items(value, trail, next, more) => Items(Escaped(value), trail, next, EscapedItems(more))
  }

  function EscapedMembers(members: Members): Members {
    match members
    case NoMembers => NoMembers
    case Members(key, beforeColon, afterColon, value, trail, next, more) =>
      Members(Ascii(key), beforeColon, afterColon, Escaped(value), trail, next, EscapedMembers(more))
  }

  lemma QuotedEscapes(body: Text)
    requires StringOk(body)
    ensures Ascii(Quoted(body)) == Quoted(Ascii(body)) && StringOk(Ascii(body)) && Decode(Ascii(body)) == Decode(body)
  {
    hide Ascii, Decode;
    AsciiAppends([QUOTE] + body, [QUOTE]);
    AsciiAppends([QUOTE], body);
    AsciiKeeps([QUOTE]);
    AsciiDecodesToTheSame(body);
  }

  lemma Around(first: CodeUnit, lead: Text, inner: Text, last: CodeUnit)
    requires first <= 0x7f && last <= 0x7f && IsSpaces(lead)
    ensures Ascii([first] + (lead + inner) + [last]) == [first] + (lead + Ascii(inner)) + [last]
  {
    AsciiKeeps([first]);
    AsciiKeeps([last]);
    AsciiKeeps(lead);
    hide *;
    AsciiAppends([first] + (lead + inner), [last]);
    AsciiAppends([first], lead + inner);
    AsciiAppends(lead, inner);
  }

  lemma LiteralIsAscii(l: Literal)
    requires LiteralOk(l)
    ensures Ascii(LiteralText(l)) == LiteralText(l)
  {
    hide Ascii;
    if l.Number? {
      var front := (if l.negative then [MINUS] else []) + l.whole;
      var fraction := if l.fraction.Some? then [DOT] + l.fraction.value else [];
      var exponent := if l.exponent.Some? then [l.exponent.value.letter] + l.exponent.value.sign + l.exponent.value.digits else [];
      assert IsAscii(front) && IsAscii(fraction) && IsAscii(exponent);
      assert LiteralText(l) == front + fraction + exponent;
      hide LiteralText, Digits;
      AsciiKeeps(front + fraction + exponent);
    } else {
      AsciiKeeps(LiteralText(l));
    }
  }

  lemma GapIsAscii(trail: Text, last: bool, next: Text)
    requires IsSpaces(trail) && IsSpaces(next)
    ensures Ascii(trail + Separator(last, next)) == trail + Separator(last, next)
  {
    hide Ascii;
    AsciiKeeps(trail + Separator(last, next));
  }

  lemma ColonIsAscii(before: Text, after: Text)
    requires IsSpaces(before) && IsSpaces(after)
    ensures Ascii(before + [COLON] + after) == before + [COLON] + after
  {
    hide Ascii;
    AsciiKeeps(before + [COLON] + after);
  }

  /** The ASCII text of a value is a text of the grammar with the same meaning. */
  lemma {:induction false} AsciiKeepsMeaning(j: Json)
    requires JsonOk(j)
    ensures Ascii(Print(j)) == Print(Escaped(j)) && JsonOk(Escaped(j))
    ensures Meaning(Escaped(j)) == Meaning(j)
    decreases j
  {
    hide Ascii, Decode, Separator, Quoted, StringOk, IsSpaces, LiteralText, LiteralOk;
    match j
    case Lit(l) =>
      LiteralIsAscii(l);
    case Str(body) =>
      QuotedEscapes(body);
    case Arr(lead, items) =>
      ItemsKeepMeaning(items);
      Around(OPEN_BRACKET, lead, PrintItems(items), CLOSE_BRACKET);
    case Obj(lead, members) =>
      MembersKeepMeaning(members);
      Around(OPEN_BRACE, lead, PrintMembers(members), CLOSE_BRACE);
  }

  lemma {:induction false} ItemsKeepMeaning(items: Items)
    requires ItemsOk(items)
    ensures Ascii(PrintItems(items)) == PrintItems(EscapedItems(items)) && ItemsOk(EscapedItems(items))
    ensures ItemsMeaning(EscapedItems(items)) == ItemsMeaning(items)
    decreases items
  {
    hide Ascii, Decode, Separator, IsSpaces;
    match items
    case NoItems =>
      AsciiOfNone();
    case Items(value, trail, next, more) =>
      var gap := trail + Separator(more.NoItems?, next);
      AsciiKeepsMeaning(value);
      ItemsKeepMeaning(more);
      GapIsAscii(trail, more.NoItems?, next);
      AsciiAppends(Print(value) + gap, PrintItems(more));
      AsciiAppends(Print(value), gap);
  }

  lemma {:induction false} MembersKeepMeaning(members: Members)
    requires MembersOk(members)
    ensures Ascii(PrintMembers(members)) == PrintMembers(EscapedMembers(members)) && MembersOk(EscapedMembers(members))
    ensures MembersMeaning(EscapedMembers(members)) == MembersMeaning(members)
    decreases members
  {
    hide Ascii, Decode, Separator, Quoted, IsSpaces, StringOk;
    match members
    case NoMembers =>
      AsciiOfNone();
    case Members(key, beforeColon, afterColon, value, trail, next, more) =>
      var colon, gap := beforeColon + [COLON] + afterColon, trail + Separator(more.NoMembers?, next);
      QuotedEscapes(key);
      AsciiKeepsMeaning(value);
      MembersKeepMeaning(more);
      ColonIsAscii(beforeColon, afterColon);
      GapIsAscii(trail, more.NoMembers?, next);
      AsciiAppends(Quoted(key) + colon + Print(value) + gap, PrintMembers(more));
      AsciiAppends(Quoted(key) + colon + Print(value), gap);
      AsciiAppends(Quoted(key) + colon, Print(value));
      AsciiAppends(Quoted(key), colon);
  }
}
