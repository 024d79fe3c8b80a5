/**
 JSON values and the compact printer `JSON.stringify`, on UTF-16 code units.
 Strings follow section 7 of RFC 8259; lone surrogates are escaped, as in the well-formed printer.
 */
module Json {
  import opened Options
  import opened Sequences

  /** One UTF-16 code unit. */
  type Unit = u: int | 0 <= u < 0x1_0000
  type Text = seq<Unit>

  const QUOTE: Unit := 0x22
  const COMMA: Unit := 0x2c
  const COLON: Unit := 0x3a
  const OPEN_BRACKET: Unit := 0x5b
  const BACKSLASH: Unit := 0x5c
  const CLOSE_BRACKET: Unit := 0x5d
  const OPEN_BRACE: Unit := 0x7b
  const CLOSE_BRACE: Unit := 0x7d
  const LOWER_U: Unit := 0x75

  const NULL_TEXT: Text := [0x6e, 0x75, 0x6c, 0x6c]
  const TRUE_TEXT: Text := [0x74, 0x72, 0x75, 0x65]
  const FALSE_TEXT: Text := [0x66, 0x61, 0x6c, 0x73, 0x65]

  /** A number is identified by its printed digits; an object keeps its own key order. */
  datatype Json =
    | Null
    | Bool(b: bool)
    | Num(digits: Text)
    | Str(s: Text)
    | Arr(items: seq<Json>)
    | Obj(fields: seq<Field>)

  datatype Field = Field(key: Text, value: Json)

  /** The units a printed number consists of: digits, `+`, `-`, `.`, `e`. */
  predicate NumberUnit(u: Unit) {
    0x30 <= u <= 0x39 || u == 0x2b || u == 0x2d || u == 0x2e || u == 0x65
  }

  predicate NumberText(t: Text) {
    t != [] && forall i | 0 <= i < |t| :: NumberUnit(t[i])
  }

  predicate DistinctKeys(fields: seq<Field>) {
    forall i, j | 0 <= i < j < |fields| :: fields[i].key != fields[j].key
  }

  /** A value the program can hold: numbers print as numbers and no object has a key twice. */
  ghost predicate Proper(v: Json)
    decreases v
  {
    match v
    case Num(digits) => NumberText(digits)
    case Arr(items) => forall i | 0 <= i < |items| :: Proper(items[i])
    case Obj(fields) => DistinctKeys(fields) && forall i | 0 <= i < |fields| :: Proper(fields[i].value)
    case _ => true
  }

  // ---- the printer ----

  function HexDigit(d: int): Unit
    requires 0 <= d < 16
  {
    if d < 10 then 0x30 + d else 0x57 + d
  }

  function Hex4(u: Unit): Text {
    [HexDigit(u / 16 / 16 / 16), HexDigit(u / 16 / 16 % 16), HexDigit(u / 16 % 16), HexDigit(u % 16)]
  }

  predicate LeadSurrogate(u: Unit) { 0xd800 <= u < 0xdc00 }
  predicate TrailSurrogate(u: Unit) { 0xdc00 <= u < 0xe000 }

  /** The letter after the backslash of a two-unit escape. */
  function ShortEscape(u: Unit): Option<Unit> {
    if u == QUOTE || u == BACKSLASH then Some(u)
    else if u == 8 then Some(0x62)
    else if u == 9 then Some(0x74)
    else if u == 10 then Some(0x6e)
    else if u == 12 then Some(0x66)
    else if u == 13 then Some(0x72)
    else None
  }

  function EscapeUnit(u: Unit): Text {
    match ShortEscape(u)
    case Some(letter) => [BACKSLASH, letter]
    case None =>
      if u < 0x20 || LeadSurrogate(u) || TrailSurrogate(u) then [BACKSLASH, LOWER_U] + Hex4(u) else [u]
  }

  function Escape(s: Text): Text {
    if s == [] then []
    else if |s| > 1 && LeadSurrogate(s[0]) && TrailSurrogate(s[1]) then s[..2] + Escape(s[2..])
    else EscapeUnit(s[0]) + Escape(s[1..])
  }

  function Quote(s: Text): Text {
    [QUOTE] + Escape(s) + [QUOTE]
  }

  function Print(v: Json): Text
    decreases v, 1
  {
    match v
    case Null => NULL_TEXT
    case Bool(b) => if b then TRUE_TEXT else FALSE_TEXT
    case Num(digits) => digits
    case Str(s) => Quote(s)
    case Arr(items) => [OPEN_BRACKET] + PrintItems(items) + [CLOSE_BRACKET]
    case Obj(fields) => [OPEN_BRACE] + PrintFields(fields) + [CLOSE_BRACE]
  }

  function PrintItems(items: seq<Json>): Text
    decreases items, 0
  {
    if items == [] then []
    else Print(items[0]) + (if |items| == 1 then [] else [COMMA] + PrintItems(items[1..]))
  }

  function PrintFields(fields: seq<Field>): Text
    decreases fields, 0
  {
    if fields == [] then []
    else
      assert fields[0].value < fields[0];
      Quote(fields[0].key) + [COLON] + Print(fields[0].value)
      + (if |fields| == 1 then [] else [COMMA] + PrintFields(fields[1..]))
  }

  // ---- a parser for printed text, written from the grammar ----

  function HexValue(u: Unit): Option<int> {
    if 0x30 <= u <= 0x39 then Some(u - 0x30)
    else if 0x61 <= u <= 0x66 then Some(u - 0x57)
    else None
  }

  function Unhex4(t: Text): (u: Option<Unit>)
    requires |t| == 4
  {
    match (HexValue(t[0]), HexValue(t[1]), HexValue(t[2]), HexValue(t[3]))
    case (Some(a), Some(b), Some(c), Some(d)) =>
      var n := a * 4096 + b * 256 + c * 16 + d;
      if 0 <= n < 0x1_0000 then Some(n) else None
    case _ => None
  }

  function Unescape(letter: Unit): Option<Unit> {
    if letter == QUOTE || letter == BACKSLASH then Some(letter)
    else if letter == 0x62 then Some(8)
    else if letter == 0x74 then Some(9)
    else if letter == 0x6e then Some(10)
    else if letter == 0x66 then Some(12)
    else if letter == 0x72 then Some(13)
    else None
  }

  /** The string up to the closing quote, and what follows that quote. */
  function ParseString(t: Text): (r: Option<(Text, Text)>)
    ensures r.Some? ==> |r.value.1| < |t|
  {
    if t == [] then None
    else if t[0] == QUOTE then Some(([], t[1..]))
    else if t[0] != BACKSLASH then
      if t[0] < 0x20 then None else Prepend(t[0], ParseString(t[1..]))
    else if |t| >= 6 && t[1] == LOWER_U then
      match Unhex4(t[2..6])
      case None => None
      case Some(u) => Prepend(u, ParseString(t[6..]))
    else if |t| >= 2 then
      match Unescape(t[1])
      case None => None
      case Some(u) => Prepend(u, ParseString(t[2..]))
    else None
  }

  function Prepend(u: Unit, r: Option<(Text, Text)>): Option<(Text, Text)> {
    match r
    case None => None
    case Some((s, rest)) => Some(([u] + s, rest))
  }

  function NumberLength(t: Text): (n: nat)
    ensures n <= |t|
  {
    if t == [] || !NumberUnit(t[0]) then 0 else 1 + NumberLength(t[1..])
  }

  /** One value at the front of the text, and the rest. */
  function Parse(t: Text): (r: Option<(Json, Text)>)
    ensures r.Some? ==> |r.value.1| < |t|
    decreases |t|, 1
  {
    if StartsWith(t, NULL_TEXT) then Some((Null, t[4..]))
    else if StartsWith(t, TRUE_TEXT) then Some((Bool(true), t[4..]))
    else if StartsWith(t, FALSE_TEXT) then Some((Bool(false), t[5..]))
    else if t == [] then None
    else if t[0] == QUOTE then
      match ParseString(t[1..])
      case None => None
      case Some((s, rest)) => Some((Str(s), rest))
    else if NumberUnit(t[0]) then Some((Num(t[..NumberLength(t)]), t[NumberLength(t)..]))
    else if StartsWith(t, [OPEN_BRACKET, CLOSE_BRACKET]) then Some((Arr([]), t[2..]))
    else if StartsWith(t, [OPEN_BRACE, CLOSE_BRACE]) then Some((Obj([]), t[2..]))
    else if t[0] == OPEN_BRACKET then
      match ParseItems(t[1..])
      case None => None
      case Some((items, rest)) => Some((Arr(items), rest))
    else if t[0] == OPEN_BRACE then
      match ParseFields(t[1..])
      case None => None
      case Some((fields, rest)) => Some((Obj(fields), rest))
    else None
  }

  /** At least one value, then commas and values up to the closing bracket. */
  function ParseItems(t: Text): (r: Option<(seq<Json>, Text)>)
    ensures r.Some? ==> |r.value.1| < |t|
    decreases |t|, 2
  {
    match Parse(t)
    case None => None
    case Some((v, rest)) =>
      if rest == [] then None
      else if rest[0] == CLOSE_BRACKET then Some(([v], rest[1..]))
      else if rest[0] != COMMA then None
      else match ParseItems(rest[1..])
        case None => None
        case Some((vs, tail)) => Some(([v] + vs, tail))
  }

  function ParseFields(t: Text): (r: Option<(seq<Field>, Text)>)
    ensures r.Some? ==> |r.value.1| < |t|
    decreases |t|, 2
  {
    if t == [] || t[0] != QUOTE then None
    else match ParseString(t[1..])
      case None => None
      case Some((key, more)) =>
        if more == [] || more[0] != COLON then None
        else match Parse(more[1..])
          case None => None
          case Some((v, rest)) =>
            if rest == [] then None
            else if rest[0] == CLOSE_BRACE then Some(([Field(key, v)], rest[1..]))
            else if rest[0] != COMMA then None
            else match ParseFields(rest[1..])
              case None => None
              case Some((fs, tail)) => Some(([Field(key, v)] + fs, tail))
  }
}
