/** The parser is a left inverse of the printer, so printing is injective. */
module JsonRoundTrip {
  import opened Options
  import opened Sequences
  import opened Json

  lemma HexDigitInverse(d: int)
    requires 0 <= d < 16
    ensures HexValue(HexDigit(d)) == Some(d)
  {
  }

  lemma Hex4Inverse(u: Unit)
    ensures Unhex4(Hex4(u)) == Some(u)
  {
    var p := u / 16;
    var q := p / 16;
    HexDigitInverse(q / 16);
    HexDigitInverse(q % 16);
    HexDigitInverse(p % 16);
    HexDigitInverse(u % 16);
    assert u == p * 16 + u % 16 && p == q * 16 + p % 16 && q == (q / 16) * 16 + q % 16;
  }

  lemma UnitRoundTrip(u: Unit, tail: Text)
    ensures ParseString(EscapeUnit(u) + tail) == Prepend(u, ParseString(tail))
  {
    var t := EscapeUnit(u) + tail;
    match ShortEscape(u)
    case Some(letter) =>
      assert t[0] == BACKSLASH && t[1] == letter && t[2..] == tail;
    case None =>
      if u < 0x20 || LeadSurrogate(u) || TrailSurrogate(u) {
        Hex4Inverse(u);
        assert t[0] == BACKSLASH && t[1] == LOWER_U;
        assert t[2..6] == Hex4(u) && t[6..] == tail;
      } else {
        assert t[0] == u && t[1..] == tail;
      }
  }

  /** Every string survives quoting, whatever quotes, backslashes, controls or lone surrogates it holds. */
  lemma {:induction false} StringRoundTrip(s: Text, rest: Text)
    ensures ParseString(Escape(s) + [QUOTE] + rest) == Some((s, rest))
    decreases |s|
  {
    if s == [] {
      EmptyString(rest);
    } else if |s| > 1 && LeadSurrogate(s[0]) && TrailSurrogate(s[1]) {
      StringRoundTrip(s[2..], rest);
      PairThenRest(s[0], s[1], Escape(s[2..]), s[2..], rest);
      assert s[..2] == [s[0], s[1]];
      assert s == [s[0], s[1]] + s[2..];
    } else {
      StringRoundTrip(s[1..], rest);
      UnitThenRest(s[0], Escape(s[1..]), s[1..], rest);
      assert s == [s[0]] + s[1..];
    }
  }

  lemma UnitThenRest(u: Unit, back: Text, s: Text, rest: Text)
    requires ParseString(back + [QUOTE] + rest) == Some((s, rest))
    ensures ParseString(EscapeUnit(u) + back + [QUOTE] + rest) == Some(([u] + s, rest))
  {
    FrontThenRest(EscapeUnit(u), back, rest);
    UnitRoundTrip(u, back + [QUOTE] + rest);
  }

  lemma PairThenRest(lead: Unit, trail: Unit, back: Text, s: Text, rest: Text)
    requires LeadSurrogate(lead) && TrailSurrogate(trail)
    requires ParseString(back + [QUOTE] + rest) == Some((s, rest))
    ensures ParseString([lead, trail] + back + [QUOTE] + rest) == Some(([lead, trail] + s, rest))
  {
    FrontThenRest([lead, trail], back, rest);
    PlainPair(lead, trail, back + [QUOTE] + rest);
    assert [lead] + ([trail] + s) == [lead, trail] + s;
  }

  lemma EmptyString(rest: Text)
    ensures ParseString([] + [QUOTE] + rest) == Some(([], rest))
  {
    var t := [] + [QUOTE] + rest;
    assert t[0] == QUOTE && t[1..] == rest;
  }

  lemma FrontThenRest(front: Text, back: Text, rest: Text)
    ensures front + back + [QUOTE] + rest == front + (back + [QUOTE] + rest)
  {
  }

  /** A surrogate pair is printed and read as its two units. */
  lemma PlainPair(lead: Unit, trail: Unit, tail: Text)
    requires LeadSurrogate(lead) && TrailSurrogate(trail)
    ensures ParseString([lead, trail] + tail) == Prepend(lead, Prepend(trail, ParseString(tail)))
  {
    assert ([lead, trail] + tail)[1..] == [trail] + tail && ([trail] + tail)[1..] == tail;
  }

  lemma QuoteRoundTrip(s: Text, rest: Text)
    ensures (Quote(s) + rest)[0] == QUOTE
    ensures ParseString((Quote(s) + rest)[1..]) == Some((s, rest))
  {
    StringRoundTrip(s, rest);
    assert (Quote(s) + rest)[1..] == Escape(s) + [QUOTE] + rest;
  }

  /** A number must not be followed by more number units. */
  predicate Delimited(rest: Text) {
    rest == [] || !NumberUnit(rest[0])
  }

  lemma {:induction false} NumberStops(digits: Text, rest: Text)
    requires forall i | 0 <= i < |digits| :: NumberUnit(digits[i])
    requires Delimited(rest)
    ensures NumberLength(digits + rest) == |digits|
  {
    if digits == [] {
      assert digits + rest == rest;
    } else {
      NumberStops(digits[1..], rest);
      assert (digits + rest)[1..] == digits[1..] + rest;
    }
  }

  lemma PrintStart(v: Json)
    requires Proper(v)
    ensures Print(v) != [] && Print(v)[0] != CLOSE_BRACKET && Print(v)[0] != CLOSE_BRACE
  {
    match v
    case Num(digits) => assert NumberUnit(digits[0]);
    case _ =>
  }

  lemma OtherStart(t: Text, p: Text)
    requires t != [] && p != [] && t[0] != p[0]
    ensures !StartsWith(t, p)
  {
    if |p| <= |t| {
      assert t[..|p|][0] == t[0];
    }
  }

  /** The three words are told apart from everything else by their first unit. */
  lemma NoWord(t: Text)
    requires t != [] && t[0] != 0x6e && t[0] != 0x74 && t[0] != 0x66
    ensures !StartsWith(t, NULL_TEXT) && !StartsWith(t, TRUE_TEXT) && !StartsWith(t, FALSE_TEXT)
  {
    OtherStart(t, NULL_TEXT);
    OtherStart(t, TRUE_TEXT);
    OtherStart(t, FALSE_TEXT);
  }

  lemma WordRoundTrip(v: Json, rest: Text)
    requires v.Null? || v.Bool?
    ensures Parse(Print(v) + rest) == Some((v, rest))
  {
    var t := Print(v) + rest;
    assert t[..|Print(v)|] == Print(v) && t[|Print(v)|..] == rest;
    if v != Null {
      OtherStart(t, NULL_TEXT);
    }
    if v == Bool(false) {
      OtherStart(t, TRUE_TEXT);
    }
  }

  lemma NumberRoundTrip(digits: Text, rest: Text)
    requires NumberText(digits) && Delimited(rest)
    ensures Parse(digits + rest) == Some((Num(digits), rest))
  {
    var t := digits + rest;
    NumberStops(digits, rest);
    assert t[0] == digits[0] && NumberUnit(digits[0]);
    NoWord(t);
    assert t[..|digits|] == digits && t[|digits|..] == rest;
  }

  lemma StringValueRoundTrip(s: Text, rest: Text)
    ensures Parse(Quote(s) + rest) == Some((Str(s), rest))
  {
    QuoteRoundTrip(s, rest);
    NoWord(Quote(s) + rest);
  }

  lemma EmptyPair(open: Unit, close: Unit, rest: Text)
    requires (open == OPEN_BRACKET && close == CLOSE_BRACKET) || (open == OPEN_BRACE && close == CLOSE_BRACE)
    ensures Parse([open, close] + rest) == Some((if open == OPEN_BRACKET then Arr([]) else Obj([]), rest))
  {
    var t := [open, close] + rest;
    NoWord(t);
    assert t[..2] == [open, close] && t[2..] == rest;
    if open == OPEN_BRACE {
      OtherStart(t, [OPEN_BRACKET, CLOSE_BRACKET]);
    }
  }

  lemma SecondUnitDiffers(t: Text, open: Unit, close: Unit)
    requires |t| > 1 && t[1] != close
    ensures !StartsWith(t, [open, close])
  {
    assert t[..2][1] == t[1];
  }

  lemma ArrayOpens(more: Text, items: seq<Json>, rest: Text)
    requires more != [] && more[0] != CLOSE_BRACKET && ParseItems(more) == Some((items, rest))
    ensures Parse([OPEN_BRACKET] + more) == Some((Arr(items), rest))
  {
    var t := [OPEN_BRACKET] + more;
    NoWord(t);
    SecondUnitDiffers(t, OPEN_BRACKET, CLOSE_BRACKET);
    OtherStart(t, [OPEN_BRACE, CLOSE_BRACE]);
    assert t[1..] == more;
  }

  lemma ObjectOpens(more: Text, fields: seq<Field>, rest: Text)
    requires more != [] && more[0] != CLOSE_BRACE && ParseFields(more) == Some((fields, rest))
    ensures Parse([OPEN_BRACE] + more) == Some((Obj(fields), rest))
  {
    var t := [OPEN_BRACE] + more;
    NoWord(t);
    SecondUnitDiffers(t, OPEN_BRACE, CLOSE_BRACE);
    OtherStart(t, [OPEN_BRACKET, CLOSE_BRACKET]);
    assert t[1..] == more;
  }

  lemma ArrayRoundTrip(items: seq<Json>, rest: Text)
    requires items != [] && Proper(items[0])
    requires ParseItems(PrintItems(items) + [CLOSE_BRACKET] + rest) == Some((items, rest))
    ensures Parse(Print(Arr(items)) + rest) == Some((Arr(items), rest))
  {
    PrintStart(items[0]);
    var more := PrintItems(items) + [CLOSE_BRACKET] + rest;
    assert more[0] == Print(items[0])[0];
    ArrayOpens(more, items, rest);
    assert Print(Arr(items)) + rest == [OPEN_BRACKET] + more;
  }

  lemma PrintFieldsStart(fields: seq<Field>)
    requires fields != []
    ensures PrintFields(fields) != [] && PrintFields(fields)[0] == QUOTE
  {
    var q := Quote(fields[0].key);
    assert q[0] == QUOTE && PrintFields(fields)[..|q|] == q;
  }

  lemma BraceFirst(body: Text, rest: Text)
    ensures ([OPEN_BRACE] + body + [CLOSE_BRACE]) + rest == [OPEN_BRACE] + (body + [CLOSE_BRACE] + rest)
  {
  }

  lemma ObjectRoundTrip(fields: seq<Field>, rest: Text)
    requires fields != []
    requires ParseFields(PrintFields(fields) + [CLOSE_BRACE] + rest) == Some((fields, rest))
    ensures Parse(Print(Obj(fields)) + rest) == Some((Obj(fields), rest))
  {
    var more := PrintFields(fields) + [CLOSE_BRACE] + rest;
    PrintFieldsStart(fields);
    ObjectOpens(more, fields, rest);
    BraceFirst(PrintFields(fields), rest);
  }

  /** The items before the closing bracket: the first one, then the bracket or a comma and the others. */
  lemma ItemsSplit(items: seq<Json>, rest: Text) returns (more: Text)
    requires items != []
    ensures PrintItems(items) + [CLOSE_BRACKET] + rest == Print(items[0]) + more
    ensures |items| == 1 ==> more == [CLOSE_BRACKET] + rest
    ensures |items| > 1 ==> more == [COMMA] + (PrintItems(items[1..]) + [CLOSE_BRACKET] + rest)
  {
    if |items| == 1 {
      more := [CLOSE_BRACKET] + rest;
      Regroup(Print(items[0]), [], [], [], [CLOSE_BRACKET], rest);
    } else {
      more := [COMMA] + (PrintItems(items[1..]) + [CLOSE_BRACKET] + rest);
      Regroup(Print(items[0]), [], [COMMA], PrintItems(items[1..]), [CLOSE_BRACKET], rest);
    }
  }

  lemma {:induction false} RoundTrip(v: Json, rest: Text)
    requires Proper(v) && Delimited(rest)
    ensures Parse(Print(v) + rest) == Some((v, rest))
    decreases v, 1
  {
    match v
    case Num(digits) => NumberRoundTrip(digits, rest);
    case Str(s) => StringValueRoundTrip(s, rest);
    case Arr(items) =>
      if items == [] {
        assert Print(v) == [OPEN_BRACKET, CLOSE_BRACKET];
        EmptyPair(OPEN_BRACKET, CLOSE_BRACKET, rest);
      } else {
        ItemsRoundTrip(items, rest);
        ArrayRoundTrip(items, rest);
      }
    case Obj(fields) =>
      if fields == [] {
        assert Print(v) == [OPEN_BRACE, CLOSE_BRACE];
        EmptyPair(OPEN_BRACE, CLOSE_BRACE, rest);
      } else {
        FieldsRoundTrip(fields, rest);
        ObjectRoundTrip(fields, rest);
      }
    case _ => WordRoundTrip(v, rest);
  }

  lemma {:induction false} ItemsRoundTrip(items: seq<Json>, rest: Text)
    requires items != [] && forall i | 0 <= i < |items| :: Proper(items[i])
    ensures ParseItems(PrintItems(items) + [CLOSE_BRACKET] + rest) == Some((items, rest))
    decreases items, 0
  {
    var more := ItemsSplit(items, rest);
    var t := Print(items[0]) + more;
    RoundTrip(items[0], more);
    if |items| == 1 {
      ItemsEnd(t, items[0], more, rest);
      assert items == [items[0]];
    } else {
      ItemsRoundTrip(items[1..], rest);
      assert more[1..] == PrintItems(items[1..]) + [CLOSE_BRACKET] + rest;
      ItemsContinue(t, items[0], more, items[1..], rest);
      assert items == [items[0]] + items[1..];
    }
  }

  lemma ItemsEnd(t: Text, v: Json, more: Text, rest: Text)
    requires Parse(t) == Some((v, more)) && more == [CLOSE_BRACKET] + rest
    ensures ParseItems(t) == Some(([v], rest))
  {
    assert more[1..] == rest;
  }

  lemma ItemsContinue(t: Text, v: Json, more: Text, vs: seq<Json>, rest: Text)
    requires Parse(t) == Some((v, more)) && more != [] && more[0] == COMMA
    requires ParseItems(more[1..]) == Some((vs, rest))
    ensures ParseItems(t) == Some(([v] + vs, rest))
  {
  }

  lemma {:induction false} FieldsRoundTrip(fields: seq<Field>, rest: Text)
    requires fields != [] && forall i | 0 <= i < |fields| :: Proper(fields[i].value)
    ensures ParseFields(PrintFields(fields) + [CLOSE_BRACE] + rest) == Some((fields, rest))
    decreases fields, 0
  {
    var f := fields[0];
    assert f.value < f;
    var more := FieldsSplit(fields, rest);
    RoundTrip(f.value, more);
    FieldStart(f, more);
    var after := [COLON] + (Print(f.value) + more);
    assert after[1..] == Print(f.value) + more;
    if |fields| > 1 {
      FieldsRoundTrip(fields[1..], rest);
    } else {
      assert more[1..] == rest;
    }
    assert fields == [f] + fields[1..];
    FieldsParse(Quote(f.key) + after, f, after, more, fields[1..], rest);
  }

  /** One field and what is read from the others, on any text that starts with them. */
  lemma FieldsParse(t: Text, f: Field, after: Text, more: Text, others: seq<Field>, rest: Text)
    requires t != [] && t[0] == QUOTE && ParseString(t[1..]) == Some((f.key, after))
    requires after != [] && after[0] == COLON && Parse(after[1..]) == Some((f.value, more))
    requires more != []
    requires if others == [] then more[0] == CLOSE_BRACE && more[1..] == rest
             else more[0] == COMMA && ParseFields(more[1..]) == Some((others, rest))
    ensures ParseFields(t) == Some(([f] + others, rest))
  {
    assert [f] + [] == [f];
  }

  /** The fields before the closing brace: the first one, then the brace or a comma and the others. */
  lemma FieldsSplit(fields: seq<Field>, rest: Text) returns (more: Text)
    requires fields != []
    ensures PrintFields(fields) + [CLOSE_BRACE] + rest ==
            Quote(fields[0].key) + ([COLON] + (Print(fields[0].value) + more))
    ensures |fields| == 1 ==> more == [CLOSE_BRACE] + rest
    ensures |fields| > 1 ==> more != [] && more[0] == COMMA
                             && more[1..] == PrintFields(fields[1..]) + [CLOSE_BRACE] + rest
  {
    more := if |fields| == 1 then [CLOSE_BRACE] + rest
            else [COMMA] + (PrintFields(fields[1..]) + [CLOSE_BRACE] + rest);
    var others := if |fields| == 1 then [] else [COMMA] + PrintFields(fields[1..]);
    assert others + [CLOSE_BRACE] + rest == more;
    Regroup(Quote(fields[0].key), [COLON], Print(fields[0].value), others, [CLOSE_BRACE], rest);
  }

  lemma Regroup(a: Text, b: Text, c: Text, d: Text, e: Text, f: Text)
    ensures (a + b + c + d) + e + f == a + (b + (c + (d + e + f)))
  {
  }

  /** The front of a printed field: its key, then the colon and the value's text. */
  lemma FieldStart(f: Field, more: Text)
    ensures var after := [COLON] + (Print(f.value) + more);
            var t := Quote(f.key) + after;
            t != [] && t[0] == QUOTE && ParseString(t[1..]) == Some((f.key, after))
  {
    QuoteRoundTrip(f.key, [COLON] + (Print(f.value) + more));
  }

  lemma PrintInjective(a: Json, b: Json)
    requires Proper(a) && Proper(b) && Print(a) == Print(b)
    ensures a == b
  {
    RoundTrip(a, []);
    RoundTrip(b, []);
  }
}
