/**
 The hash-chained audit log as values, and what a chained log guarantees.

 The digest is a constructor, so two contents have the same digest only when they are
 equal, and no content can contain its own digest.
 */
module AuditChain {
  import opened Options

  /** What a `hash` or `prev` field can hold once the line is parsed. */
  datatype Stored =
    | Empty               // the empty string: the `prev` of the first record
    | Falsy(tag: int)     // null, false, 0 or a missing field
    | Text(tag: int)      // any other value that is not a digest
    | Digest(of: Content)

  /** Everything a record says except its own hash; `body` stands for the entry's fields. */
  datatype Content = Content(num: Option<int>, ts: string, body: string, prev: Stored)

  datatype Record = Record(content: Content, hash: Stored)

  /** JavaScript truthiness of a stored field. */
  predicate Truthy(s: Stored) {
    s.Text? || s.Digest?
  }

  predicate SelfHashed(r: Record) {
    r.hash == Digest(r.content)
  }

  /** The hash the record at position `i` has to name. */
  function HashBefore(log: seq<Record>, i: nat): Stored
    requires i <= |log|
  {
    if i == 0 then Empty else log[i - 1].hash
  }

  function LastHash(log: seq<Record>): Stored {
    HashBefore(log, |log|)
  }

  /** The record at `i` hashes itself and names the record before it. */
  ghost predicate Linked(log: seq<Record>, i: nat)
    requires i < |log|
  {
    SelfHashed(log[i]) && log[i].content.prev == HashBefore(log, i)
  }

  ghost predicate Chained(log: seq<Record>) {
    forall i | 0 <= i < |log| :: Linked(log, i)
  }

  /** How many digests are nested inside a stored field. */
  function Depth(s: Stored): nat
    decreases s
  {
    match s
    case Digest(c) => 1 + Depth(c.prev)
    case _ => 0
  }

  lemma ChainedPrefix(log: seq<Record>, k: nat)
    requires Chained(log) && k <= |log|
    ensures Chained(log[..k])
  {
    forall i | 0 <= i < k
      ensures Linked(log[..k], i)
    {
      assert Linked(log, i);
    }
  }

  lemma {:induction false} DepthIsPosition(log: seq<Record>, i: nat)
    requires Chained(log) && i < |log|
    ensures Depth(log[i].hash) == i + 1
  {
    assert Linked(log, i);
    if i > 0 {
      DepthIsPosition(log, i - 1);
    }
  }

  lemma HashesDistinct(log: seq<Record>, i: nat, j: nat)
    requires Chained(log) && i < |log| && j < |log| && i != j
    ensures log[i].hash != log[j].hash
  {
    DepthIsPosition(log, i);
    DepthIsPosition(log, j);
  }

  /** The last hash binds the whole log: it determines every record before it. */
  lemma {:induction false} LastHashBindsLog(a: seq<Record>, b: seq<Record>)
    requires Chained(a) && Chained(b)
    requires LastHash(a) == LastHash(b)
    ensures a == b
    decreases |a|
  {
    if a == [] || b == [] {
      assert a != [] ==> Linked(a, |a| - 1);
      assert b != [] ==> Linked(b, |b| - 1);
    } else {
      assert Linked(a, |a| - 1) && Linked(b, |b| - 1);
      var p, q := a[..|a| - 1], b[..|b| - 1];
      ChainedPrefix(a, |p|);
      ChainedPrefix(b, |q|);
      LastHashBindsLog(p, q);
      assert a == p + [a[|a| - 1]] && b == q + [b[|b| - 1]];
    }
  }

  /** Appending keeps the chain exactly when the new record hashes itself and names the last hash. */
  lemma AppendChains(log: seq<Record>, r: Record)
    requires Chained(log)
    ensures Chained(log + [r]) <==> SelfHashed(r) && r.content.prev == LastHash(log)
  {
    var next := log + [r];
    assert Linked(next, |log|) <==> SelfHashed(r) && r.content.prev == LastHash(log);
    forall i | 0 <= i < |log|
      ensures Linked(next, i)
    {
      assert Linked(log, i);
    }
  }
}
