/**
 The tool-result cache. Its key is the tool name with the digest of the canonical arguments;
 here the canonical text itself stands for the digest, which is to say the digest has no collisions.
 */
module ToolCache {
  import opened Options
  import opened Json
  import opened JsonCanonical

  /** What a tool call returned, as far as the loop looks at it: `out`, `out.error`, `out.ok !== false`. */
  datatype Outcome = Outcome(present: bool, error: bool, ok: bool, text: Text)

  datatype Key = Key(tool: string, args: Text)

  datatype Entry = Entry(key: Key, result: Outcome, ttlMs: int, createdAt: int, hits: nat)

  const CACHEABLE: set<string> := {"sysinfo", "web", "net", "files"}

  function DefaultTtl(tool: string): int {
    if tool == "web" || tool == "net" then 300000
    else if tool == "files" then 30000
    else 60000
  }

  // ---- arguments ----

  function Ascii(s: string): (t: Text)
    ensures |t| == |s|
  {
    seq(|s|, i requires 0 <= i < |s| => if s[i] as int < 128 then s[i] as int else 0x3f)
  }

  function Lower(t: Text): (r: Text)
    ensures |r| == |t|
  {
    seq(|t|, i requires 0 <= i < |t| => if 0x41 <= t[i] <= 0x5a then t[i] + 0x20 else t[i])
  }

  function Upper(t: Text): (r: Text)
    ensures |r| == |t|
  {
    seq(|t|, i requires 0 <= i < |t| => if 0x61 <= t[i] <= 0x7a then t[i] - 0x20 else t[i])
  }

  /** `String(v)`. */
  function StringOf(v: Json): Text
    decreases v, 1
  {
    match v
    case Null => NULL_TEXT
    case Bool(b) => if b then TRUE_TEXT else FALSE_TEXT
    case Num(digits) => digits
    case Str(s) => s
    case Arr(items) => Joined(items)
    case Obj(_) => Ascii("[object Object]")
  }

  function Joined(items: seq<Json>): Text
    decreases items, 0
  {
    if items == [] then []
    else
      (if items[0].Null? then [] else StringOf(items[0]))
      + (if |items| == 1 then [] else [COMMA] + Joined(items[1..]))
  }

  predicate Truthy(v: Json) {
    v != Null && v != Bool(false) && v != Num([0x30]) && v != Str([])
  }

  function FieldOf(fields: seq<Field>, key: Text): Option<Json> {
    if fields == [] then None
    else if fields[0].key == key then Some(fields[0].value)
    else FieldOf(fields[1..], key)
  }

  /** `String((args && args[name]) || fallback)`. */
  function Argument(args: Json, name: string, fallback: string): Text {
    if !args.Obj? then Ascii(fallback)
    else match FieldOf(args.fields, Ascii(name))
      case Some(v) => if Truthy(v) then StringOf(v) else Ascii(fallback)
      case None => Ascii(fallback)
  }

  /** Missing arguments count as an empty object. */
  function Given(args: Json): Json {
    if args.Null? then Obj([]) else args
  }

  function CanonicalArgs(args: Json): Text {
    CanonicalText(ByPropertyOrder, Given(args))
  }

  predicate Cacheable(tool: string, args: Json) {
    && tool in CACHEABLE
    && (tool == "net" ==> Upper(Argument(args, "method", "GET")) != Ascii("POST"))
    && (tool == "files" ==>
          var action := Lower(Argument(args, "action", "list"));
          action == Ascii("list") || action == Ascii("stat") || action == Ascii("read"))
  }

  /** A `files` call whose success changes files. */
  predicate Mutating(args: Json) {
    var action := Lower(Argument(args, "action", ""));
    action == Ascii("write") || action == Ascii("delete")
  }

  lemma CacheableFilesDoNotMutate(args: Json)
    requires Cacheable("files", args)
    ensures !Mutating(args)
  {
    var read, write := Argument(args, "action", "list"), Argument(args, "action", "");
    assert read == write || write == Ascii("");
    assert |Lower(read)| == 4;
  }

  // ---- arguments with one key text are one and the same to the cache ----

  lemma {:induction false} StringOfSame(a: Json, b: Json)
    requires SameValue(ByPropertyOrder, a, b)
    ensures StringOf(a) == StringOf(b) && Truthy(a) == Truthy(b)
    decreases a, 1
  {
    if a.Arr? && b.Arr? {
      JoinedSame(a.items, b.items);
    }
  }

  lemma {:induction false} JoinedSame(p: seq<Json>, q: seq<Json>)
    requires |p| == |q| && forall i | 0 <= i < |p| :: SameValue(ByPropertyOrder, p[i], q[i])
    ensures Joined(p) == Joined(q)
    decreases p, 0
  {
    if p != [] {
      StringOfSame(p[0], q[0]);
      JoinedSame(p[1..], q[1..]);
    }
  }

  lemma {:induction false} FieldOfFinds(fields: seq<Field>, key: Text)
    ensures FieldOf(fields, key).None? <==> forall i | 0 <= i < |fields| :: fields[i].key != key
    ensures FieldOf(fields, key).Some? ==>
              exists i :: 0 <= i < |fields| && fields[i].key == key && FieldOf(fields, key) == Some(fields[i].value)
  {
    if fields != [] && fields[0].key != key {
      FieldOfFinds(fields[1..], key);
    }
  }

  /** What a key has in one object it has in every object of the same value. */
  lemma FieldOfSame(p: seq<Field>, q: seq<Field>, key: Text)
    requires DistinctKeys(q) && SameValue(ByPropertyOrder, Obj(p), Obj(q)) && key != PROTO && FieldOf(p, key).Some?
    ensures FieldOf(q, key).Some? && SameValue(ByPropertyOrder, FieldOf(p, key).value, FieldOf(q, key).value)
  {
    FieldOfFinds(p, key);
    FieldOfFinds(q, key);
    var i :| 0 <= i < |p| && p[i].key == key && FieldOf(p, key) == Some(p[i].value);
    assert Kept(ByPropertyOrder, p[i]);
    var j :| 0 <= j < |q| && q[j].key == p[i].key && SameValue(ByPropertyOrder, p[i].value, q[j].value);
    assert FieldOf(q, key) == Some(q[j].value);
  }

  /** A key that one object lacks is lacking in every object of the same value. */
  lemma FieldOfLacks(p: seq<Field>, q: seq<Field>, key: Text)
    requires SameValue(ByPropertyOrder, Obj(p), Obj(q)) && key != PROTO && FieldOf(p, key).None?
    ensures FieldOf(q, key).None?
  {
    FieldOfFinds(p, key);
    FieldOfFinds(q, key);
    assert forall j | 0 <= j < |q| && q[j].key == key :: Kept(ByPropertyOrder, q[j]);
  }

  /** Arguments with the same key text give the same text for every name but `__proto__`. */
  lemma ArgumentByKey(a: Json, b: Json, name: string, fallback: string)
    requires Proper(a) && Proper(b) && CanonicalArgs(a) == CanonicalArgs(b) && Ascii(name) != PROTO
    ensures Argument(a, name, fallback) == Argument(b, name, fallback)
  {
    var x, y := Given(a), Given(b);
    EqualTextIffSameValue(ByPropertyOrder, x, y);
    if x.Obj? && y.Obj? {
      if FieldOf(x.fields, Ascii(name)).Some? {
        FieldOfSame(x.fields, y.fields, Ascii(name));
        StringOfSame(FieldOf(x.fields, Ascii(name)).value, FieldOf(y.fields, Ascii(name)).value);
      } else {
        FieldOfLacks(x.fields, y.fields, Ascii(name));
      }
    }
    assert Argument(x, name, fallback) == Argument(a, name, fallback);
    assert Argument(y, name, fallback) == Argument(b, name, fallback);
  }

  /** Arguments with the same key text are cacheable alike and mutate alike. */
  lemma SameKeySameDecision(tool: string, a: Json, b: Json)
    requires Proper(a) && Proper(b) && CanonicalArgs(a) == CanonicalArgs(b)
    ensures Cacheable(tool, a) == Cacheable(tool, b) && Mutating(a) == Mutating(b)
  {
    assert |PROTO| == 9 && |Ascii("method")| == 6 && |Ascii("action")| == 6;
    ArgumentByKey(a, b, "method", "GET");
    ArgumentByKey(a, b, "action", "list");
    ArgumentByKey(a, b, "action", "");
  }

  // ---- entries ----

  predicate DistinctEntries(entries: seq<Entry>) {
    forall i, j | 0 <= i < j < |entries| :: entries[i].key != entries[j].key
  }

  function Position(entries: seq<Entry>, key: Key): (i: nat)
    ensures i <= |entries|
    ensures i < |entries| ==> entries[i].key == key
    ensures forall k | 0 <= k < i :: entries[k].key != key
  {
    if entries == [] || entries[0].key == key then 0 else 1 + Position(entries[1..], key)
  }

  predicate Expired(e: Entry, now: int) {
    e.ttlMs > 0 && now - e.createdAt > e.ttlMs
  }

  /** `e` is an entry of the list, its hit count aside. */
  ghost predicate Holds(entries: seq<Entry>, e: Entry) {
    exists i | 0 <= i < |entries| :: entries[i].(hits := e.hits) == e
  }

  class ToolCache {
    const maxEntries: nat
    var entries: seq<Entry>   // in insertion order

    ghost predicate Valid()
      reads this
    {
      DistinctEntries(entries)
    }

    constructor (maxEntries: nat)
      ensures Valid() && entries == [] && this.maxEntries == maxEntries
    {
      this.maxEntries := maxEntries;
      entries := [];
    }

    /** A hit is the stored result of an unexpired entry; an expired entry is dropped on the way. */
    method Get(tool: string, args: Json, now: int) returns (result: Option<Outcome>)
      requires Valid()
      modifies this`entries
      ensures Valid()
      ensures |entries| <= |old(entries)| && forall e | e in entries :: Holds(old(entries), e)
      ensures !Cacheable(tool, args) ==> entries == old(entries)
      ensures var key := Key(tool, CanonicalArgs(args));
              match result
              case Some(r) => Cacheable(tool, args)
                              && exists e :: e in old(entries) && e.key == key && !Expired(e, now) && e.result == r
                                             && e.(hits := e.hits + 1) in entries
              case None => Cacheable(tool, args) ==> forall e | e in old(entries) && e.key == key :: Expired(e, now)
      ensures forall e | e in old(entries) && (e.key != Key(tool, CanonicalArgs(args)) || !Cacheable(tool, args)) ::
                e in entries
    {
      if !Cacheable(tool, args) {
        return None;
      }
      var key := Key(tool, CanonicalArgs(args));
      var i := Position(entries, key);
      if i == |entries| {
        return None;
      }
      var e := entries[i];
      if Expired(e, now) {
        entries := entries[..i] + entries[i + 1..];
        return None;
      }
      entries := entries[i := e.(hits := e.hits + 1)];
      forall o | o in old(entries) && o.key != key
        ensures o in entries
      {
        var k :| 0 <= k < |old(entries)| && old(entries)[k] == o;
        assert entries[k] == o;
      }
      assert entries[i] == e.(hits := e.hits + 1) && entries[i] in entries;
      return Some(e.result);
    }

    /** The new entry replaces one of the same key in place; then expired and surplus entries go. */
    method Set(tool: string, args: Json, result: Outcome, ttlMs: Option<int>, now: int)
      requires Valid()
      modifies this`entries
      ensures Valid()
      ensures !Cacheable(tool, args) ==> entries == old(entries)
      ensures Cacheable(tool, args) ==> |entries| <= maxEntries
      ensures Cacheable(tool, args) ==>
                var key := Key(tool, CanonicalArgs(args));
                var ttl := if ttlMs.Some? then ttlMs.value else DefaultTtl(tool);
                && (forall e | e in entries && e.key == key :: e == Entry(key, result, ttl, now, 1))
                && (forall e | e in entries && e.key != key :: e in old(entries))
                && (forall e | e in entries :: !Expired(e, now))
                && (forall gone | (gone == Entry(key, result, ttl, now, 1) || (gone in old(entries) && gone.key != key))
                                  && !Expired(gone, now) && gone !in entries ::
                      |entries| == maxEntries && forall e | e in entries :: gone.createdAt <= e.createdAt)
                && (|old(entries)| < maxEntries ==>
                      && (exists e :: e in entries && e.key == key)
                      && (forall e | e in old(entries) && e.key != key && !Expired(e, now) :: e in entries))
    {
      if !Cacheable(tool, args) {
        return;
      }
      var key := Key(tool, CanonicalArgs(args));
      var ttl := if ttlMs.Some? then ttlMs.value else DefaultTtl(tool);
      var e := Entry(key, result, ttl, now, 1);
      var i := Position(entries, key);
      entries := if i < |entries| then entries[i := e] else entries + [e];
      ghost var grown := entries;
      assert grown[i] == e;
      forall o | o in old(entries) && o.key != key
        ensures o in grown
      {
        var k :| 0 <= k < |old(entries)| && old(entries)[k] == o;
        assert grown[k] == o;
      }
      var _ := Prune(now);
    }

    /** Drops every entry of one tool and nothing else. */
    method InvalidateTool(tool: string) returns (removed: nat)
      requires Valid()
      modifies this`entries
      ensures Valid()
      ensures forall e :: e in entries <==> e in old(entries) && e.key.tool != tool
      ensures removed == |old(entries)| - |entries|
    {
      var kept: seq<Entry> := [];
      for i := 0 to |entries|
        invariant entries == old(entries)
        invariant |kept| <= i
        invariant forall e :: e in kept <==> e in entries[..i] && e.key.tool != tool
        invariant DistinctEntries(kept)
      {
        assert entries[..i + 1] == entries[..i] + [entries[i]];
        if entries[i].key.tool != tool {
          assert forall e | e in kept :: e.key != entries[i].key;
          kept := kept + [entries[i]];
        }
      }
      assert entries[..|entries|] == entries;
      removed := |entries| - |kept|;
      entries := kept;
    }

    /** Expired entries first, then the oldest ones until the cap is met. */
    method Prune(now: int) returns (ghost dropped: seq<Entry>)
      requires Valid()
      modifies this`entries
      ensures Valid() && |entries| <= maxEntries
      ensures forall e | e in entries :: e in old(entries) && !Expired(e, now)
      ensures forall e | e in dropped, s | s in entries :: e.createdAt <= s.createdAt
      ensures forall e | e in old(entries) && !Expired(e, now) :: e in entries || e in dropped
      ensures dropped != [] ==> |entries| == maxEntries < |old(entries)|
    {
      var kept: seq<Entry> := [];
      for i := 0 to |entries|
        invariant entries == old(entries) && |kept| <= i
        invariant forall e :: e in kept <==> e in entries[..i] && !Expired(e, now)
        invariant DistinctEntries(kept)
      {
        assert entries[..i + 1] == entries[..i] + [entries[i]];
        if !Expired(entries[i], now) {
          assert forall e | e in kept :: e.key != entries[i].key;
          kept := kept + [entries[i]];
        }
      }
      assert entries[..|entries|] == entries;
      ghost var alive := kept;
      dropped := [];
      while |kept| > maxEntries
        invariant DistinctEntries(kept)
        invariant forall e | e in kept :: e in alive
        invariant forall e | e in alive :: e in kept || e in dropped
        invariant forall e | e in dropped, s | s in kept :: e.createdAt <= s.createdAt
        invariant |kept| <= |alive| && (dropped != [] ==> |alive| > maxEntries && |kept| >= maxEntries)
      {
        var oldest := Oldest(kept);
        ghost var before := kept;
        dropped := dropped + [kept[oldest]];
        kept := kept[..oldest] + kept[oldest + 1..];
        assert before == before[..oldest] + [before[oldest]] + before[oldest + 1..];
      }
      entries := kept;
    }
  }

  /** The first of the entries with the smallest creation time. */
  method Oldest(entries: seq<Entry>) returns (k: nat)
    requires entries != []
    ensures k < |entries|
    ensures forall i | 0 <= i < |entries| :: entries[k].createdAt <= entries[i].createdAt
    ensures forall i | 0 <= i < k :: entries[k].createdAt < entries[i].createdAt
  {
    k := 0;
    for i := 1 to |entries|
      invariant k < i
      invariant forall j | 0 <= j < i :: entries[k].createdAt <= entries[j].createdAt
      invariant forall j | 0 <= j < k :: entries[k].createdAt < entries[j].createdAt
    {
      if entries[i].createdAt < entries[k].createdAt {
        k := i;
      }
    }
  }
}
