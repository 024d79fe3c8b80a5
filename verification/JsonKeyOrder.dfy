/** In what order printed keys come, said on code units and numbers. */
module JsonKeyOrder {
  import opened Options
  import opened Json
  import opened JsonCanonical

  /** The first text comes before the second at unit `k`: it ends there, or has the smaller unit there. */
  predicate ParedAt(a: Text, b: Text, k: nat) {
    && k <= |a| && k < |b| && a[..k] == b[..k]
    && (k == |a| || a[k] < b[k])
  }

  lemma {:induction false} TextLessMeans(a: Text, b: Text)
    ensures TextLess(a, b) <==> exists k: nat :: ParedAt(a, b, k)
  {
    forall k: nat | 0 < k <= |a| && k <= |b| && a[..k] == b[..k]
      ensures a[0] == b[0]
    {
      assert a[0] == a[..k][0] == b[..k][0] == b[0];
    }
    if b != [] && a != [] && a[0] == b[0] {
      TextLessMeans(a[1..], b[1..]);
      if k: nat :| ParedAt(a[1..], b[1..], k) {
        assert a[..k + 1] == [a[0]] + a[1..][..k] && b[..k + 1] == [b[0]] + b[1..][..k];
        assert ParedAt(a, b, k + 1);
      }
      if k: nat :| ParedAt(a, b, k) {
        assert k > 0;
        assert a[1..][..k - 1] == a[..k][1..] && b[1..][..k - 1] == b[..k][1..];
        assert ParedAt(a[1..], b[1..], k - 1);
      }
    } else if b != [] {
      assert ParedAt(a, b, 0) <==> TextLess(a, b);
    }
  }

  // ---- array indices ----

  predicate Digits(k: Text) {
    forall i | 0 <= i < |k| :: 0x30 <= k[i] <= 0x39
  }

  /** The number a text of digits stands for. */
  function NumberOf(k: Text): nat
    requires Digits(k)
  {
    if k == [] then 0 else 10 * NumberOf(k[..|k| - 1]) + (k[|k| - 1] - 0x30)
  }

  function Tens(n: nat): nat {
    if n == 0 then 1 else 10 * Tens(n - 1)
  }

  /** Digits without a leading zero. */
  predicate Canonical(k: Text) {
    k != [] && Digits(k) && (k[0] == 0x30 ==> |k| == 1)
  }

  lemma {:induction false} NumberBelow(k: Text)
    requires Digits(k)
    ensures NumberOf(k) < Tens(|k|)
  {
    if k != [] {
      NumberBelow(k[..|k| - 1]);
    }
  }

  lemma {:induction false} NumberFromLead(k: Text)
    requires k != [] && Digits(k)
    ensures NumberOf(k) == (k[0] - 0x30) * Tens(|k| - 1) + NumberOf(k[1..])
  {
    if |k| == 1 {
      assert k[..0] == [] && k[1..] == [];
    } else {
      var front := k[..|k| - 1];
      NumberFromLead(front);
      assert front[1..] == k[1..][..|k| - 2];
      LeadShifts(k[0] - 0x30, Tens(|k| - 2), NumberOf(front[1..]), k[|k| - 1] - 0x30);
    }
  }

  lemma LeadShifts(d: int, t: int, n: int, last: int)
    ensures 10 * (d * t + n) + last == d * (10 * t) + (10 * n + last)
  {
  }

  lemma {:induction false} TimesGrows(c: nat, d: nat, t: nat)
    requires c <= d
    ensures c * t <= d * t
    decreases d
  {
    if c < d {
      TimesGrows(c, d - 1, t);
    }
  }

  lemma LeadDecides(c: nat, d: nat, t: nat, m: nat, n: nat)
    requires m < t && n < t && c < d
    ensures c * t + m < d * t + n
  {
    TimesGrows(c + 1, d, t);
    assert (c + 1) * t == c * t + t;
  }

  /** Among texts of digits of one length, the smaller text is the smaller number. */
  lemma {:induction false} SameLengthByNumber(a: Text, b: Text)
    requires Digits(a) && Digits(b) && |a| == |b|
    ensures TextLess(a, b) <==> NumberOf(a) < NumberOf(b)
  {
    if a != [] {
      NumberFromLead(a);
      NumberFromLead(b);
      NumberBelow(a[1..]);
      NumberBelow(b[1..]);
      if a[0] == b[0] {
        SameLengthByNumber(a[1..], b[1..]);
      } else if a[0] < b[0] {
        LeadDecides(a[0] - 0x30, b[0] - 0x30, Tens(|a| - 1), NumberOf(a[1..]), NumberOf(b[1..]));
      } else {
        LeadDecides(b[0] - 0x30, a[0] - 0x30, Tens(|a| - 1), NumberOf(b[1..]), NumberOf(a[1..]));
      }
    }
  }

  lemma {:induction false} TensGrow(m: nat, n: nat)
    requires m <= n
    ensures Tens(m) <= Tens(n)
    decreases n
  {
    if m < n {
      TensGrow(m, n - 1);
    }
  }

  /** A shorter numeral without leading zeros is the smaller number. */
  lemma ShorterIsSmaller(a: Text, b: Text)
    requires Canonical(a) && Canonical(b) && |a| < |b|
    ensures NumberOf(a) < NumberOf(b)
  {
    NumberBelow(a);
    NumberFromLead(b);
    TensGrow(|a|, |b| - 1);
    TimesGrows(1, b[0] - 0x30, Tens(|b| - 1));
  }

  lemma NumeralsByNumber(a: Text, b: Text)
    requires Canonical(a) && Canonical(b)
    ensures NumeralLess(a, b) <==> NumberOf(a) < NumberOf(b)
  {
    if |a| < |b| {
      ShorterIsSmaller(a, b);
    } else if |b| < |a| {
      ShorterIsSmaller(b, a);
    } else {
      SameLengthByNumber(a, b);
    }
  }

  lemma LargestIndex()
    ensures Canonical(MAX_INDEX) && |MAX_INDEX| == 10 && NumberOf(MAX_INDEX) == 4294967294
  {
    assert NumberOf(MAX_INDEX[..1]) == 4 by {
      assert MAX_INDEX[..1][..0] == [];
    }
    assert MAX_INDEX[..2][..1] == MAX_INDEX[..1] && NumberOf(MAX_INDEX[..2]) == 42;
    assert MAX_INDEX[..3][..2] == MAX_INDEX[..2] && NumberOf(MAX_INDEX[..3]) == 429;
    assert MAX_INDEX[..4][..3] == MAX_INDEX[..3] && NumberOf(MAX_INDEX[..4]) == 4294;
    assert MAX_INDEX[..5][..4] == MAX_INDEX[..4] && NumberOf(MAX_INDEX[..5]) == 42949;
    assert MAX_INDEX[..6][..5] == MAX_INDEX[..5] && NumberOf(MAX_INDEX[..6]) == 429496;
    assert MAX_INDEX[..7][..6] == MAX_INDEX[..6] && NumberOf(MAX_INDEX[..7]) == 4294967;
    assert MAX_INDEX[..8][..7] == MAX_INDEX[..7] && NumberOf(MAX_INDEX[..8]) == 42949672;
    assert MAX_INDEX[..9][..8] == MAX_INDEX[..8] && NumberOf(MAX_INDEX[..9]) == 429496729;
    assert MAX_INDEX[..10][..9] == MAX_INDEX[..9] && MAX_INDEX[..10] == MAX_INDEX;
  }

  /** An array index is a decimal numeral without leading zeros of at most 2^32 - 2. */
  lemma ArrayIndexMeans(k: Text)
    ensures ArrayIndex(k) <==> Canonical(k) && NumberOf(k) <= 4294967294
  {
    LargestIndex();
    if Canonical(k) {
      NumeralsByNumber(MAX_INDEX, k);
      assert |k| < 10 ==> NumberOf(k) < NumberOf(MAX_INDEX) by {
        if |k| < 10 {
          ShorterIsSmaller(k, MAX_INDEX);
        }
      }
    }
  }

  // ---- the order of printed keys ----

  /** Array indices come first, by number; all other keys by their units. */
  ghost predicate ComesFirst(order: KeyOrder, a: Text, b: Text) {
    var p, q := IsIndex(order, a), IsIndex(order, b);
    if p && q then NumberOf(a) < NumberOf(b)
    else if p || q then p
    else exists k: nat :: ParedAt(a, b, k)
  }

  /** Only the copied arguments of the tool cache have their array indices moved to the front. */
  predicate IsIndex(order: KeyOrder, k: Text) {
    order.ByPropertyOrder? && Canonical(k) && NumberOf(k) <= 4294967294
  }

  lemma BeforeMeans(order: KeyOrder, a: Text, b: Text)
    ensures Before(order, a, b) <==> ComesFirst(order, a, b)
  {
    ArrayIndexMeans(a);
    ArrayIndexMeans(b);
    TextLessMeans(a, b);
    if Canonical(a) && Canonical(b) {
      NumeralsByNumber(a, b);
    }
  }

  /**
   Printed fields come in ascending key order, by code units; in the arguments of the tool cache the array indices
   come first, by their numbers. Every field is printed once, but for `__proto__` in those arguments.
   */
  lemma PrintedInOrder(order: KeyOrder, fs: seq<Field>)
    requires DistinctKeys(fs)
    ensures var sorted := SortFields(order, fs);
            && (forall i, j | 0 <= i < j < |sorted| :: ComesFirst(order, sorted[i].key, sorted[j].key))
            && (forall f :: f in sorted <==> f in fs && (order.ByPropertyOrder? ==> f.key != PROTO))
            && forall i, j | 0 <= i < j < |sorted| :: sorted[i] != sorted[j]
  {
    SortFieldsSorts(order, fs);
    var sorted := SortFields(order, fs);
    forall i, j | 0 <= i < j < |sorted|
      ensures ComesFirst(order, sorted[i].key, sorted[j].key) && sorted[i] != sorted[j]
    {
      BeforeMeans(order, sorted[i].key, sorted[j].key);
      BeforeTotal(order, sorted[i].key, sorted[j].key);
    }
  }

  /** Manifests and policies: of two printed keys the first ends where they part, or has the smaller unit there. */
  lemma SignedKeysAscend(fs: seq<Field>, i: nat, j: nat) returns (k: nat)
    requires DistinctKeys(fs) && i < j < |SortFields(ByCodeUnit, fs)|
    ensures var a, b := SortFields(ByCodeUnit, fs)[i].key, SortFields(ByCodeUnit, fs)[j].key;
            k <= |a| && k < |b| && a[..k] == b[..k] && (k == |a| || a[k] < b[k])
  {
    PrintedInOrder(ByCodeUnit, fs);
    k :| ParedAt(SortFields(ByCodeUnit, fs)[i].key, SortFields(ByCodeUnit, fs)[j].key, k);
  }
}
