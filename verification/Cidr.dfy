/**
 CIDR matching on address bytes (section 3.1 of RFC 4632): the byte-and-mask loop of `ipInNet`,
 and the network prefix it stands for.
 */
module Cidr {

  type Byte = b: int | 0 <= b < 256

  /** `v >> n`, as repeated halving; `HalveIsDivision` says it divides by a power of two. */
  function Halve(v: nat, n: nat): nat {
    if n == 0 then v else Halve(v / 2, n - 1)
  }

  /** `v << n`. */
  function Shift(v: nat, n: nat): nat {
    if n == 0 then v else 2 * Shift(v, n - 1)
  }

  function Pow2(n: nat): nat {
    Shift(1, n)
  }

  /** `a & b` on non-negative integers. */
  function And(a: nat, b: nat): nat
    decreases a
  {
    if a == 0 then 0 else 2 * And(a / 2, b / 2) + (if a % 2 == 1 && b % 2 == 1 then 1 else 0)
  }

  /** `0xff << (8 - remBits)`: wider than a byte, but the upper bits meet only zeros. */
  function Mask(remBits: nat): nat
    requires remBits < 8
  {
    Shift(255, 8 - remBits)
  }

  /** The address as one big-endian number. */
  function Value(a: seq<Byte>): nat {
    if a == [] then 0 else Value(a[..|a| - 1]) * 256 + a[|a| - 1]
  }

  /** The first `bits` bits of the address, as a number. */
  function Prefix(a: seq<Byte>, bits: nat): nat
    requires bits <= 8 * |a|
  {
    Halve(Value(a), 8 * |a| - bits)
  }

  // ---- shifting ----

  lemma MultipleBound(d: int, p: int)
    requires p >= 1
    ensures d >= 1 ==> d * p >= p
    ensures d <= -1 ==> d * p <= -p
  {
  }

  lemma QuotientUnique(x: int, q: int, p: int, r: int)
    requires x == q * p + r && 0 <= r < p
    ensures x / p == q
  {
    var d := x / p - q;
    assert d * p == (x / p) * p - q * p;
    MultipleBound(d, p);
  }

  lemma {:induction false} HalveIsDivision(v: nat, n: nat)
    ensures Pow2(n) >= 1 && Halve(v, n) == v / Pow2(n)
    decreases n
  {
    if n > 0 {
      HalveIsDivision(v / 2, n - 1);
      HalfThenDivide(v, Pow2(n - 1));
    }
  }

  lemma HalfThenDivide(v: nat, p: nat)
    requires p >= 1
    ensures v / 2 / p == v / (2 * p)
  {
    var c, d := v / 2 / p, v / 2 % p;
    assert v / 2 == c * p + d;
    Doubled(c, p);
    QuotientUnique(v, c, 2 * p, 2 * d + v % 2);
  }

  lemma Doubled(c: nat, p: nat)
    ensures c * (2 * p) == 2 * (c * p)
  {
  }

  lemma {:induction false} HalveTwice(v: nat, m: nat, n: nat)
    ensures Halve(Halve(v, m), n) == Halve(v, m + n)
    decreases m
  {
    if m > 0 {
      HalveTwice(v / 2, m - 1, n);
    }
  }

  lemma {:induction false} ShiftInjective(v: nat, w: nat, n: nat)
    ensures Shift(v, n) == Shift(w, n) <==> v == w
  {
    if n > 0 {
      ShiftInjective(v, w, n - 1);
    }
  }

  /** Shifting right past a number whose lower `n` bits are `x`. */
  lemma {:induction false} HalveSum(v: nat, x: nat, n: nat, j: nat)
    requires j <= n && x < Shift(1, n)
    ensures Halve(Shift(v, n) + x, j) == Shift(v, n - j) + Halve(x, j)
    ensures Halve(x, j) < Shift(1, n - j)
    decreases j
  {
    if j > 0 {
      assert (Shift(v, n) + x) / 2 == Shift(v, n - 1) + x / 2;
      HalveSum(v, x / 2, n - 1, j - 1);
    }
  }

  /** Upper and lower bits together determine both. */
  lemma {:induction false} SumUnique(v: nat, p: nat, w: nat, q: nat, n: nat)
    requires p < Shift(1, n) && q < Shift(1, n)
    ensures Shift(v, n) + p == Shift(w, n) + q <==> v == w && p == q
    decreases n
  {
    if n > 0 {
      SumUnique(v, p / 2, w, q / 2, n - 1);
      if Shift(v, n) + p == Shift(w, n) + q {
        assert (2 * Shift(v, n - 1) + p) / 2 == Shift(v, n - 1) + p / 2;
        assert (2 * Shift(w, n - 1) + q) / 2 == Shift(w, n - 1) + q / 2;
      }
    }
  }

  // ---- the mask ----

  lemma {:induction false} AndShifted(x: nat, m: nat, k: nat)
    ensures And(x, Shift(m, k)) == Shift(And(Halve(x, k), m), k)
    decreases k
  {
    if k > 0 {
      AndShifted(x / 2, m, k - 1);
      assert Shift(m, k) / 2 == Shift(m, k - 1) && Shift(m, k) % 2 == 0;
      if x == 0 {
        assert And(0, Shift(m, k - 1)) == 0;
      }
    }
  }

  /** The number with `n` ones. */
  function Ones(n: nat): nat {
    if n == 0 then 0 else 2 * Ones(n - 1) + 1
  }

  lemma {:induction false} AndOnes(x: nat, n: nat)
    requires x <= Ones(n)
    ensures And(x, Ones(n)) == x
    decreases n
  {
    if x > 0 {
      assert Ones(n) / 2 == Ones(n - 1) && Ones(n) % 2 == 1;
      AndOnes(x / 2, n - 1);
    }
  }

  lemma EightOnes()
    ensures Ones(8) == 255
  {
    assert Ones(2) == 3;
    assert Ones(4) == 15;
    assert Ones(6) == 63;
  }

  lemma {:induction false} HalveShrinks(x: nat, k: nat)
    ensures Halve(x, k) <= x
    decreases k
  {
    if k > 0 {
      HalveShrinks(x / 2, k - 1);
    }
  }

  lemma MaskKeepsUpperBits(x: Byte, remBits: nat)
    requires remBits < 8
    ensures And(x, Mask(remBits)) == Shift(Halve(x, 8 - remBits), 8 - remBits)
  {
    var k := 8 - remBits;
    EightOnes();
    HalveShrinks(x, k);
    AndShifted(x, 255, k);
    AndOnes(Halve(x, k), 8);
  }

  /** Two masked bytes are equal exactly when their upper bits are. */
  lemma MaskComparesUpperBits(x: Byte, y: Byte, remBits: nat)
    requires remBits < 8
    ensures And(x, Mask(remBits)) == And(y, Mask(remBits)) <==> Halve(x, 8 - remBits) == Halve(y, 8 - remBits)
  {
    MaskKeepsUpperBits(x, remBits);
    MaskKeepsUpperBits(y, remBits);
    ShiftInjective(Halve(x, 8 - remBits), Halve(y, 8 - remBits), 8 - remBits);
  }

  // ---- the address as a number ----

  lemma ByteShift(v: nat)
    ensures Shift(v, 8) == 256 * v
  {
    assert Shift(v, 1) == 2 * v;
    assert Shift(v, 3) == 8 * v;
    assert Shift(v, 5) == 32 * v;
    assert Shift(v, 7) == 128 * v;
  }

  lemma DropByte(v: nat, x: Byte)
    ensures Halve(v * 256 + x, 8) == v
  {
    ByteShift(v);
    ByteShift(1);
    HalveSum(v, x, 8, 8);
  }

  /** Shifting out whole bytes leaves the number of the bytes in front. */
  lemma {:induction false} DropBytes(a: seq<Byte>, k: nat)
    requires k <= |a|
    ensures Halve(Value(a), 8 * (|a| - k)) == Value(a[..k])
    decreases |a|
  {
    if k == |a| {
      assert a[..k] == a;
    } else {
      var front := a[..|a| - 1];
      DropByte(Value(front), a[|a| - 1]);
      HalveTwice(Value(a), 8, 8 * (|front| - k));
      DropBytes(front, k);
      assert front[..k] == a[..k];
    }
  }

  lemma {:induction false} ValueInjective(a: seq<Byte>, b: seq<Byte>)
    requires |a| == |b|
    ensures Value(a) == Value(b) <==> a == b
  {
    if a != [] {
      var p, q := a[..|a| - 1], b[..|b| - 1];
      ValueInjective(p, q);
      assert a == p + [a[|a| - 1]] && b == q + [b[|b| - 1]];
    }
  }

  /** A number of bytes with some upper bits of one more byte behind it. */
  lemma PartOfByte(v: nat, x: Byte, rem: nat)
    requires rem < 8
    ensures Halve(256 * v + x, 8 - rem) == Shift(v, rem) + Halve(x, 8 - rem)
    ensures Halve(x, 8 - rem) < Shift(1, rem)
  {
    ByteShift(v);
    ByteShift(1);
    HalveSum(v, x, 8, 8 - rem);
  }

  /** The prefix is the number of the full bytes with the upper bits of the next one behind it. */
  lemma PrefixParts(a: seq<Byte>, bits: nat)
    requires bits <= 8 * |a|
    ensures bits % 8 == 0 ==> Prefix(a, bits) == Value(a[..bits / 8])
    ensures bits % 8 != 0 ==>
              && Prefix(a, bits) == Shift(Value(a[..bits / 8]), bits % 8) + Halve(a[bits / 8], 8 - bits % 8)
              && Halve(a[bits / 8], 8 - bits % 8) < Shift(1, bits % 8)
  {
    var k, rem := bits / 8, bits % 8;
    assert bits == 8 * k + rem;
    if rem == 0 {
      DropBytes(a, k);
    } else {
      PrefixOfParts(a, k, rem);
    }
  }

  lemma OneByteMore(a: seq<Byte>, k: nat)
    requires k < |a|
    ensures Value(a[..k + 1]) == 256 * Value(a[..k]) + a[k]
  {
    assert a[..k + 1][..k] == a[..k];
  }

  /** The same, for a byte that ends `n` bits before the end of the whole number. */
  lemma PartOfWhole(whole: nat, n: nat, front: nat, x: Byte, rem: nat)
    requires rem < 8 && Halve(whole, n) == 256 * front + x
    ensures Halve(whole, n + (8 - rem)) == Shift(front, rem) + Halve(x, 8 - rem)
    ensures Halve(x, 8 - rem) < Shift(1, rem)
  {
    HalveTwice(whole, n, 8 - rem);
    PartOfByte(front, x, rem);
  }

  lemma PrefixOfParts(a: seq<Byte>, k: nat, rem: nat)
    requires k < |a| && 0 < rem < 8
    ensures Prefix(a, 8 * k + rem) == Shift(Value(a[..k]), rem) + Halve(a[k], 8 - rem)
    ensures Halve(a[k], 8 - rem) < Shift(1, rem)
  {
    var n := 8 * (|a| - (k + 1));
    DropBytes(a, k + 1);
    OneByteMore(a, k);
    PartOfWhole(Value(a), n, Value(a[..k]), a[k], rem);
    assert n + (8 - rem) == 8 * |a| - (8 * k + rem);
  }

  /** Full bytes equal and masked bytes equal is the same as equal prefixes. */
  lemma BytesAgreeIffPrefixesDo(a: seq<Byte>, b: seq<Byte>, bits: nat)
    requires |a| == |b| && bits <= 8 * |a|
    ensures Prefix(a, bits) == Prefix(b, bits) <==>
            a[..bits / 8] == b[..bits / 8] &&
            (bits % 8 != 0 ==> And(a[bits / 8], Mask(bits % 8)) == And(b[bits / 8], Mask(bits % 8)))
  {
    var k, rem := bits / 8, bits % 8;
    PrefixParts(a, bits);
    PrefixParts(b, bits);
    ValueInjective(a[..k], b[..k]);
    if rem != 0 {
      MaskComparesUpperBits(a[k], b[k], rem);
      SumUnique(Value(a[..k]), Halve(a[k], 8 - rem), Value(b[..k]), Halve(b[k], 8 - rem), rem);
    }
  }

  /** True exactly when the two addresses share their first `bits` bits. */
  method InNet(a: seq<Byte>, b: seq<Byte>, bits: nat) returns (inside: bool)
    requires |a| == |b| && bits <= 8 * |a|
    ensures inside <==> Prefix(a, bits) == Prefix(b, bits)
  {
    BytesAgreeIffPrefixesDo(a, b, bits);
    var fullBytes, remBits := bits / 8, bits % 8;
    for i := 0 to fullBytes
      invariant a[..i] == b[..i]
    {
      if a[i] != b[i] {
        assert a[..fullBytes][i] != b[..fullBytes][i];
        return false;
      }
    }
    if remBits > 0 {
      if And(a[fullBytes], Mask(remBits)) != And(b[fullBytes], Mask(remBits)) {
        return false;
      }
    }
    return true;
  }

  lemma ShorterPrefix(a: seq<Byte>, short: nat, long: nat)
    requires short <= long <= 8 * |a|
    ensures Prefix(a, short) == Halve(Prefix(a, long), long - short)
  {
    HalveTwice(Value(a), 8 * |a| - long, long - short);
  }

  /**
   Two networks never overlap in part: either no address is in both, or every address of the
   one with the longer prefix is in the other.
   */
  lemma NetworksNestOrAreDisjoint(a: seq<Byte>, b: seq<Byte>, short: nat, long: nat)
    requires |a| == |b| && short <= long <= 8 * |a|
    ensures || (forall x: seq<Byte> | |x| == |a| ::
                  !(Prefix(x, short) == Prefix(a, short) && Prefix(x, long) == Prefix(b, long)))
            || (forall x: seq<Byte> | |x| == |a| ::
                  Prefix(x, long) == Prefix(b, long) ==> Prefix(x, short) == Prefix(a, short))
  {
    forall x: seq<Byte> | |x| == |a|
      ensures Prefix(x, short) == Halve(Prefix(x, long), long - short)
    {
      ShorterPrefix(x, short, long);
    }
  }
}
