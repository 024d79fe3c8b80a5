/** The printed form itself, unit by unit: strings as in section 7 of RFC 8259, with no escape that is not needed. */
module JsonForm {
  import opened Options
  import opened Sequences
  import opened Json
  import opened JsonRoundTrip

  predicate Surrogate(u: Unit) {
    0xd800 <= u <= 0xdfff
  }

  /** A lower-case hexadecimal digit of this value. */
  predicate HexOf(digit: Unit, value: int) {
    (0x30 <= digit <= 0x39 && value == digit - 0x30) || (0x61 <= digit <= 0x66 && value == digit - 0x61 + 10)
  }

  /** A backslash, the letter u, and the unit in four hexadecimal digits, the highest first. */
  ghost predicate Numeric(t: Text, u: Unit) {
    |t| == 6 && t[0] == 0x5c && t[1] == 0x75 &&
    exists a, b, c, d | HexOf(t[2], a) && HexOf(t[3], b) && HexOf(t[4], c) && HexOf(t[5], d) ::
      u == 4096 * a + 256 * b + 16 * c + d
  }

  lemma Hex4IsNumeric(u: Unit)
    ensures Numeric([0x5c, 0x75] + Hex4(u), u)
  {
    var t := [0x5c, 0x75] + Hex4(u);
    var a, b, c, d := u / 16 / 16 / 16, u / 16 / 16 % 16, u / 16 % 16, u % 16;
    assert HexOf(t[2], a) && HexOf(t[3], b) && HexOf(t[4], c) && HexOf(t[5], d);
    assert u == 4096 * a + 256 * b + 16 * c + d;
  }

  /** How a string of one unit is printed between its quotes. */
  lemma SingleUnit(u: Unit)
    ensures u == 0x22 || u == 0x5c ==> Escape([u]) == [0x5c, u]
    ensures u == 0x08 ==> Escape([u]) == [0x5c, 'b' as int]
    ensures u == 0x09 ==> Escape([u]) == [0x5c, 't' as int]
    ensures u == 0x0a ==> Escape([u]) == [0x5c, 'n' as int]
    ensures u == 0x0c ==> Escape([u]) == [0x5c, 'f' as int]
    ensures u == 0x0d ==> Escape([u]) == [0x5c, 'r' as int]
    ensures (u < 0x20 && u !in {0x08, 0x09, 0x0a, 0x0c, 0x0d}) || Surrogate(u) ==> Numeric(Escape([u]), u)
    ensures u >= 0x20 && u != 0x22 && u != 0x5c && !Surrogate(u) ==> Escape([u]) == [u]
  {
    Hex4IsNumeric(u);
    assert [u][1..] == [] && Escape([]) == [];
    assert Escape([u]) == EscapeUnit(u) + [] == EscapeUnit(u);
  }

  /** A surrogate pair is printed as it is. */
  lemma SurrogatePair(lead: Unit, trail: Unit)
    requires 0xd800 <= lead < 0xdc00 <= trail < 0xe000
    ensures Escape([lead, trail]) == [lead, trail]
  {
    assert [lead, trail][2..] == [] && [lead, trail][..2] == [lead, trail];
  }

  lemma UnitFirst(u: Unit, rest: Text)
    requires !(LeadSurrogate(u) && rest != [] && TrailSurrogate(rest[0]))
    ensures Escape([u] + rest) == EscapeUnit(u) + Escape(rest)
  {
    assert ([u] + rest)[1..] == rest;
  }

  lemma PairFirst(lead: Unit, trail: Unit, rest: Text)
    requires LeadSurrogate(lead) && TrailSurrogate(trail)
    ensures Escape([lead, trail] + rest) == [lead, trail] + Escape(rest)
  {
    assert ([lead, trail] + rest)[2..] == rest && ([lead, trail] + rest)[..2] == [lead, trail];
  }

  lemma PairIsPiecewise(lead: Unit, trail: Unit, rest: Text, b: Text)
    requires LeadSurrogate(lead) && TrailSurrogate(trail) && Escape(rest + b) == Escape(rest) + Escape(b)
    ensures Escape([lead, trail] + rest + b) == Escape([lead, trail] + rest) + Escape(b)
  {
    PairFirst(lead, trail, rest);
    PairFirst(lead, trail, rest + b);
    Associate([lead, trail], rest, b);
    Associate([lead, trail], Escape(rest), Escape(b));
  }

  /** Strings are printed piece by piece, as long as no surrogate pair is torn apart. */
  lemma {:induction false} EscapeIsPiecewise(a: Text, b: Text)
    requires a != [] && b != [] ==> !(0xd800 <= a[|a| - 1] < 0xdc00 <= b[0] < 0xe000)
    ensures Escape(a + b) == Escape(a) + Escape(b)
    decreases |a|
  {
    if a == [] {
      assert a + b == b;
    } else if |a| > 1 && LeadSurrogate(a[0]) && TrailSurrogate(a[1]) {
      EscapeIsPiecewise(a[2..], b);
      PairIsPiecewise(a[0], a[1], a[2..], b);
      assert a == [a[0], a[1]] + a[2..];
    } else {
      var rest := a[1..];
      EscapeIsPiecewise(rest, b);
      assert a == [a[0]] + rest;
      UnitFirst(a[0], rest);
      UnitFirst(a[0], rest + b);
      Associate([a[0]], rest, b);
      Associate(EscapeUnit(a[0]), Escape(rest), Escape(b));
    }
  }

  /** Items and fields are printed one after the other, with commas between them. */
  lemma {:induction false} ItemsAreSeparated(a: seq<Json>, b: seq<Json>)
    requires a != [] && b != []
    ensures PrintItems(a + b) == PrintItems(a) + [0x2c] + PrintItems(b)
    decreases |a|
  {
    assert (a + b)[1..] == a[1..] + b;
    if |a| > 1 {
      ItemsAreSeparated(a[1..], b);
    } else {
      assert a[1..] + b == b;
    }
  }

  lemma {:induction false} FieldsAreSeparated(a: seq<Field>, b: seq<Field>)
    requires a != [] && b != []
    ensures PrintFields(a + b) == PrintFields(a) + [0x2c] + PrintFields(b)
    decreases |a|
  {
    assert (a + b)[1..] == a[1..] + b;
    if |a| > 1 {
      FieldsAreSeparated(a[1..], b);
    } else {
      assert a[1..] + b == b;
    }
  }

  lemma OneOfEach(v: Json, f: Field, s: Text)
    ensures Print(Arr([])) == [0x5b, 0x5d] && Print(Obj([])) == [0x7b, 0x7d]
    ensures PrintItems([v]) == Print(v)
    ensures PrintFields([f]) == Print(Str(f.key)) + [0x3a] + Print(f.value)
    ensures Print(Str(s)) == [0x22] + Escape(s) + [0x22]
  {
    assert Print(Arr([])) == [0x5b] + [] + [0x5d];
    assert Print(Obj([])) == [0x7b] + [] + [0x7d];
  }
}
