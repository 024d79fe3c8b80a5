/** The few operations on sequences and texts that several modules share. */
module Sequences {
  /** The last `n` elements, or all when there are fewer. */
  function Last<T>(xs: seq<T>, n: nat): seq<T> {
    if |xs| <= n then xs else xs[|xs| - n..]
  }

  function Without<T>(xs: seq<T>, k: nat): (less: seq<T>)
    requires k < |xs|
    ensures |less| == |xs| - 1
    ensures forall i | 0 <= i < |less| :: less[i] == xs[if i < k then i else i + 1]
  {
    xs[..k] + xs[k + 1..]
  }

  lemma Associate<T>(a: seq<T>, b: seq<T>, c: seq<T>)
    ensures a + (b + c) == (a + b) + c
  {
  }

  function Decimal(n: nat): string {
    if n < 10 then [('0' as int + n) as char] else Decimal(n / 10) + [('0' as int + n % 10) as char]
  }

  predicate StartsWith<T(==)>(xs: seq<T>, p: seq<T>) {
    |p| <= |xs| && xs[..|p|] == p
  }
}
