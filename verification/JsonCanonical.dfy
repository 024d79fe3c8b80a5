/**
 Canonical JSON: the printer with sorted keys that manifests, policies, device identities and
 the marketplace index share, and the one the tool cache keys its entries with.
 */
module JsonCanonical {
  import opened Json
  import opened JsonRoundTrip

  /**
   How the keys of a printed object are ordered. `ByCodeUnit` is `Object.keys(..).sort()`.
   `ByPropertyOrder` is what remains of it after the sorted keys were assigned to a fresh object:
   array indices come first, and the key `__proto__` sets the prototype instead of a property.
   */
  datatype KeyOrder = ByCodeUnit | ByPropertyOrder

  const PROTO: Text := [0x5f, 0x5f, 0x70, 0x72, 0x6f, 0x74, 0x6f, 0x5f, 0x5f]
  const MAX_INDEX: Text := [0x34, 0x32, 0x39, 0x34, 0x39, 0x36, 0x37, 0x32, 0x39, 0x34]

  predicate TextLess(a: Text, b: Text) {
    if b == [] then false
    else if a == [] then true
    else if a[0] != b[0] then a[0] < b[0]
    else TextLess(a[1..], b[1..])
  }

  /** A canonical decimal numeral of at most 2^32 - 2. */
  predicate ArrayIndex(k: Text) {
    && k != [] && |k| <= 10 && (forall i | 0 <= i < |k| :: 0x30 <= k[i] <= 0x39)
    && (k[0] == 0x30 ==> |k| == 1)
    && (|k| == 10 ==> !TextLess(MAX_INDEX, k))
  }

  /** Numeric order of canonical numerals: the shorter one first, then digit by digit. */
  predicate NumeralLess(a: Text, b: Text) {
    |a| < |b| || (|a| == |b| && TextLess(a, b))
  }

  predicate Before(order: KeyOrder, a: Text, b: Text) {
    if order == ByPropertyOrder && (ArrayIndex(a) || ArrayIndex(b)) then
      ArrayIndex(a) && (!ArrayIndex(b) || NumeralLess(a, b))
    else TextLess(a, b)
  }

  lemma {:induction false} TextLessTotal(a: Text, b: Text)
    ensures TextLess(a, b) || a == b || TextLess(b, a)
    ensures !(TextLess(a, b) && TextLess(b, a)) && !TextLess(a, a)
    decreases |a|
  {
    if a != [] {
      TextLessTotal(a[1..], if b == [] then [] else b[1..]);
      TextLessTotal(a[1..], a[1..]);
      assert a == [a[0]] + a[1..];
      assert b != [] ==> b == [b[0]] + b[1..];
    }
  }

  lemma {:induction false} TextLessTransitive(a: Text, b: Text, c: Text)
    requires TextLess(a, b) && TextLess(b, c)
    ensures TextLess(a, c)
    decreases |a|
  {
    if a != [] && a[0] == b[0] == c[0] {
      TextLessTransitive(a[1..], b[1..], c[1..]);
    }
  }

  lemma BeforeTotal(order: KeyOrder, a: Text, b: Text)
    ensures Before(order, a, b) || a == b || Before(order, b, a)
    ensures !(Before(order, a, b) && Before(order, b, a)) && !Before(order, a, a)
  {
    TextLessTotal(a, b);
    TextLessTotal(a, a);
  }

  lemma BeforeTransitive(order: KeyOrder, a: Text, b: Text, c: Text)
    requires Before(order, a, b) && Before(order, b, c)
    ensures Before(order, a, c)
  {
    if TextLess(a, b) && TextLess(b, c) {
      TextLessTransitive(a, b, c);
    }
  }

  // ---- sorting ----

  predicate Sorted(order: KeyOrder, fs: seq<Field>) {
    forall i, j | 0 <= i < j < |fs| :: Before(order, fs[i].key, fs[j].key)
  }

  function Insert(order: KeyOrder, f: Field, fs: seq<Field>): seq<Field> {
    if fs == [] || Before(order, f.key, fs[0].key) then [f] + fs
    else [fs[0]] + Insert(order, f, fs[1..])
  }

  predicate Kept(order: KeyOrder, f: Field) {
    order == ByCodeUnit || f.key != PROTO
  }

  /** The fields that get printed, in the order they are printed. */
  function SortFields(order: KeyOrder, fs: seq<Field>): seq<Field> {
    if fs == [] then []
    else if !Kept(order, fs[0]) then SortFields(order, fs[1..])
    else Insert(order, fs[0], SortFields(order, fs[1..]))
  }

  lemma {:induction false} InsertSorts(order: KeyOrder, f: Field, fs: seq<Field>)
    requires Sorted(order, fs) && forall g | g in fs :: g.key != f.key
    ensures Sorted(order, Insert(order, f, fs))
    ensures forall g :: g in Insert(order, f, fs) <==> g == f || g in fs
  {
    if fs != [] {
      BeforeTotal(order, f.key, fs[0].key);
      if Before(order, f.key, fs[0].key) {
        forall j | 0 < j < |fs|
          ensures Before(order, f.key, fs[j].key)
        {
          BeforeTransitive(order, f.key, fs[0].key, fs[j].key);
        }
      } else {
        InsertSorts(order, f, fs[1..]);
        var tail := Insert(order, f, fs[1..]);
        assert fs == [fs[0]] + fs[1..];
        forall j | 0 <= j < |tail|
          ensures Before(order, fs[0].key, tail[j].key)
        {
          assert tail[j] in tail;
        }
      }
    }
  }

  lemma {:induction false} SortFieldsSorts(order: KeyOrder, fs: seq<Field>)
    requires DistinctKeys(fs)
    ensures Sorted(order, SortFields(order, fs))
    ensures forall g :: g in SortFields(order, fs) <==> g in fs && Kept(order, g)
  {
    if fs != [] {
      SortFieldsSorts(order, fs[1..]);
      assert fs == [fs[0]] + fs[1..];
      if Kept(order, fs[0]) {
        InsertSorts(order, fs[0], SortFields(order, fs[1..]));
      }
    }
  }

  lemma {:induction false} SortFieldsSubset(order: KeyOrder, fs: seq<Field>)
    ensures forall g | g in SortFields(order, fs) :: g in fs
  {
    if fs != [] {
      SortFieldsSubset(order, fs[1..]);
      if Kept(order, fs[0]) {
        InsertSubset(order, fs[0], SortFields(order, fs[1..]));
      }
    }
  }

  lemma {:induction false} InsertSubset(order: KeyOrder, f: Field, fs: seq<Field>)
    ensures forall g | g in Insert(order, f, fs) :: g == f || g in fs
  {
    if fs != [] && !Before(order, f.key, fs[0].key) {
      InsertSubset(order, f, fs[1..]);
    }
  }

  lemma HeadNotInTail(order: KeyOrder, a: seq<Field>)
    requires Sorted(order, a) && a != []
    ensures a[0] !in a[1..]
  {
    if a[0] in a[1..] {
      var i :| 0 <= i < |a[1..]| && a[1..][i] == a[0];
      assert Before(order, a[0].key, a[i + 1].key);
      BeforeTotal(order, a[0].key, a[0].key);
    }
  }

  /** A sorted list is determined by its elements. */
  lemma {:induction false} SortedUnique(order: KeyOrder, a: seq<Field>, b: seq<Field>)
    requires Sorted(order, a) && Sorted(order, b) && forall g :: g in a <==> g in b
    ensures a == b
    decreases |a|
  {
    assert b != [] ==> b[0] in b;
    if a != [] {
      assert a[0] in a && a[0] in b;
      assert b[0] in a;
      BeforeTotal(order, a[0].key, b[0].key);
      assert a[0] == b[0];
      HeadNotInTail(order, a);
      HeadNotInTail(order, b);
      assert a == [a[0]] + a[1..] && b == [b[0]] + b[1..];
      forall g
        ensures g in a[1..] <==> g in b[1..]
      {
        assert g in a <==> g == a[0] || g in a[1..];
        assert g in b <==> g == b[0] || g in b[1..];
      }
      SortedUnique(order, a[1..], b[1..]);
    }
  }

  // ---- canonical values ----

  function SortKeys(order: KeyOrder, v: Json): Json
    decreases v
  {
    match v
    case Arr(items) => Arr(seq(|items|, i requires 0 <= i < |items| => SortKeys(order, items[i])))
    case Obj(fields) =>
      Obj(SortFields(order,
        seq(|fields|, i requires 0 <= i < |fields| => Field(fields[i].key, SortKeys(order, fields[i].value)))))
    case _ => v
  }

  /** The fields of an object with canonical values, in their own order. */
  function SortedValues(order: KeyOrder, fields: seq<Field>): (fs: seq<Field>)
    ensures |fs| == |fields|
    ensures forall i | 0 <= i < |fs| :: fs[i] == Field(fields[i].key, SortKeys(order, fields[i].value))
  {
    seq(|fields|, i requires 0 <= i < |fields| => Field(fields[i].key, SortKeys(order, fields[i].value)))
  }

  function CanonicalText(order: KeyOrder, v: Json): Text {
    Print(SortKeys(order, v))
  }

  /** Equality of values in which the key order of objects, and keys that are never printed, do not count. */
  ghost predicate SameValue(order: KeyOrder, a: Json, b: Json)
    decreases a
  {
    match (a, b)
    case (Arr(p), Arr(q)) => |p| == |q| && forall i | 0 <= i < |p| :: SameValue(order, p[i], q[i])
    case (Obj(p), Obj(q)) =>
      && (forall i | 0 <= i < |p| && Kept(order, p[i]) ::
            exists j | 0 <= j < |q| :: q[j].key == p[i].key && SameValue(order, p[i].value, q[j].value))
      && (forall j | 0 <= j < |q| && Kept(order, q[j]) :: exists i | 0 <= i < |p| :: p[i].key == q[j].key)
    case _ => a == b
  }

  lemma SortedObject(order: KeyOrder, fields: seq<Field>)
    ensures SortKeys(order, Obj(fields)) == Obj(SortFields(order, SortedValues(order, fields)))
  {
    var mapped := seq(|fields|, i requires 0 <= i < |fields| => Field(fields[i].key, SortKeys(order, fields[i].value)));
    assert mapped == SortedValues(order, fields);
  }

  lemma SortedArray(order: KeyOrder, items: seq<Json>)
    ensures SortKeys(order, Arr(items)).Arr? && |SortKeys(order, Arr(items)).items| == |items|
    ensures forall i | 0 <= i < |items| :: SortKeys(order, Arr(items)).items[i] == SortKeys(order, items[i])
  {
  }

  lemma {:induction false} SortKeysProper(order: KeyOrder, v: Json)
    requires Proper(v)
    ensures Proper(SortKeys(order, v))
    decreases v
  {
    match v
    case Arr(items) =>
      SortedArray(order, items);
      forall i | 0 <= i < |items| {
        SortKeysProper(order, items[i]);
      }
    case Obj(fields) =>
      SortedObject(order, fields);
      var mapped := SortedValues(order, fields);
      var sorted := SortFields(order, mapped);
      SortFieldsSorts(order, mapped);
      forall i, j | 0 <= i < j < |sorted|
        ensures sorted[i].key != sorted[j].key
      {
        BeforeTotal(order, sorted[i].key, sorted[j].key);
      }
      forall k | 0 <= k < |sorted|
        ensures Proper(sorted[k].value)
      {
        assert sorted[k] in mapped;
        var i :| 0 <= i < |mapped| && mapped[i] == sorted[k];
        SortKeysProper(order, fields[i].value);
      }
    case _ =>
  }

  lemma {:induction false} SortedEqualIffSame(order: KeyOrder, a: Json, b: Json)
    requires Proper(a) && Proper(b)
    ensures SortKeys(order, a) == SortKeys(order, b) <==> SameValue(order, a, b)
    decreases a
  {
    match (a, b)
    case (Arr(p), Arr(q)) =>
      SortedArray(order, p);
      SortedArray(order, q);
      if |p| == |q| {
        forall i | 0 <= i < |p| {
          SortedEqualIffSame(order, p[i], q[i]);
        }
        if SameValue(order, a, b) {
          assert SortKeys(order, a).items == SortKeys(order, b).items;
        }
      }
    case (Obj(p), Obj(q)) =>
      forall i, j | 0 <= i < |p| && 0 <= j < |q| {
        SortedEqualIffSame(order, p[i].value, q[j].value);
      }
      ObjectsEqualIffSame(order, p, q);
    case _ =>
  }

  lemma ObjectsEqualIffSame(order: KeyOrder, p: seq<Field>, q: seq<Field>)
    requires DistinctKeys(p) && DistinctKeys(q)
    requires SameBySorting(order, p, q)
    ensures SortKeys(order, Obj(p)) == SortKeys(order, Obj(q)) <==> SameValue(order, Obj(p), Obj(q))
  {
    SortedObject(order, p);
    SortedObject(order, q);
    if SameValue(order, Obj(p), Obj(q)) {
      SameObjectsSortEqual(order, p, q);
    } else if SortFields(order, SortedValues(order, p)) == SortFields(order, SortedValues(order, q)) {
      EqualSortsAreSame(order, p, q);
    }
  }

  /** Of any two values inside, one of each object, sorting tells whether they are the same. */
  ghost predicate SameBySorting(order: KeyOrder, p: seq<Field>, q: seq<Field>) {
    forall i, j | 0 <= i < |p| && 0 <= j < |q| ::
      SortKeys(order, p[i].value) == SortKeys(order, q[j].value) <==> SameValue(order, p[i].value, q[j].value)
  }

  lemma SameObjectsSortEqual(order: KeyOrder, p: seq<Field>, q: seq<Field>)
    requires DistinctKeys(p) && DistinctKeys(q) && SameValue(order, Obj(p), Obj(q))
    requires SameBySorting(order, p, q)
    ensures SortFields(order, SortedValues(order, p)) == SortFields(order, SortedValues(order, q))
  {
    var mp, mq := SortedValues(order, p), SortedValues(order, q);
    SortFieldsSorts(order, mp);
    SortFieldsSorts(order, mq);
    forall g
      ensures g in SortFields(order, mp) <==> g in SortFields(order, mq)
    {
      if g in SortFields(order, mp) {
        SameImpliesIn(order, p, q, g);
      }
      if g in SortFields(order, mq) {
        SameImpliesBack(order, p, q, g);
      }
    }
    SortedUnique(order, SortFields(order, mp), SortFields(order, mq));
  }

  lemma SameImpliesBack(order: KeyOrder, p: seq<Field>, q: seq<Field>, g: Field)
    requires DistinctKeys(p) && DistinctKeys(q) && SameValue(order, Obj(p), Obj(q))
    requires SameBySorting(order, p, q)
    requires g in SortedValues(order, q) && Kept(order, g)
    ensures g in SortedValues(order, p)
  {
    var mp, mq := SortedValues(order, p), SortedValues(order, q);
    var j :| 0 <= j < |mq| && mq[j] == g;
    assert Kept(order, q[j]);
    var i :| 0 <= i < |p| && p[i].key == q[j].key;
    assert Kept(order, mp[i]) && mp[i] in mp;
    SameImpliesIn(order, p, q, mp[i]);
    var k :| 0 <= k < |mq| && mq[k] == mp[i];
    assert q[k].key == q[j].key && k == j;
  }

  lemma EqualSortsAreSame(order: KeyOrder, p: seq<Field>, q: seq<Field>)
    requires DistinctKeys(p) && DistinctKeys(q)
    requires SortFields(order, SortedValues(order, p)) == SortFields(order, SortedValues(order, q))
    requires SameBySorting(order, p, q)
    ensures SameValue(order, Obj(p), Obj(q))
  {
    SortedTogether(order, p, q);
    SortedTogether(order, q, p);
    MeetingIsSame(order, p, q);
  }

  lemma MeetingIsSame(order: KeyOrder, p: seq<Field>, q: seq<Field>)
    requires SameBySorting(order, p, q)
    requires forall g | g in SortedValues(order, p) && Kept(order, g) :: g in SortedValues(order, q)
    requires forall g | g in SortedValues(order, q) && Kept(order, g) :: g in SortedValues(order, p)
    ensures SameValue(order, Obj(p), Obj(q))
  {
    ValuesMeet(order, p, q);
    KeysMeet(order, q, p);
  }

  lemma SortedTogether(order: KeyOrder, p: seq<Field>, q: seq<Field>)
    requires DistinctKeys(p) && DistinctKeys(q)
    requires SortFields(order, SortedValues(order, p)) == SortFields(order, SortedValues(order, q))
    ensures forall g | g in SortedValues(order, p) && Kept(order, g) :: g in SortedValues(order, q)
  {
    SortFieldsSorts(order, SortedValues(order, p));
    SortFieldsSorts(order, SortedValues(order, q));
  }

  lemma ValuesMeet(order: KeyOrder, p: seq<Field>, q: seq<Field>)
    requires SameBySorting(order, p, q)
    requires forall g | g in SortedValues(order, p) && Kept(order, g) :: g in SortedValues(order, q)
    ensures forall i | 0 <= i < |p| && Kept(order, p[i]) ::
              exists j | 0 <= j < |q| :: q[j].key == p[i].key && SameValue(order, p[i].value, q[j].value)
  {
    forall i | 0 <= i < |p| && Kept(order, p[i])
      ensures exists j | 0 <= j < |q| :: q[j].key == p[i].key && SameValue(order, p[i].value, q[j].value)
    {
      var j := Counterpart(order, p, q, i);
      assert q[j].key == p[i].key && SameValue(order, p[i].value, q[j].value);
    }
  }

  lemma KeysMeet(order: KeyOrder, p: seq<Field>, q: seq<Field>)
    requires forall g | g in SortedValues(order, p) && Kept(order, g) :: g in SortedValues(order, q)
    ensures forall i | 0 <= i < |p| && Kept(order, p[i]) :: exists j | 0 <= j < |q| :: q[j].key == p[i].key
  {
    forall i | 0 <= i < |p| && Kept(order, p[i])
      ensures exists j | 0 <= j < |q| :: q[j].key == p[i].key
    {
      var j := Counterpart(order, p, q, i);
      assert q[j].key == p[i].key;
    }
  }

  /** A printed field of one object, sorted inside, has the same key and value in the other. */
  lemma Counterpart(order: KeyOrder, p: seq<Field>, q: seq<Field>, i: nat) returns (j: nat)
    requires i < |p| && Kept(order, p[i])
    requires forall g | g in SortedValues(order, p) && Kept(order, g) :: g in SortedValues(order, q)
    ensures j < |q| && q[j].key == p[i].key && SortKeys(order, q[j].value) == SortKeys(order, p[i].value)
  {
    var mp, mq := SortedValues(order, p), SortedValues(order, q);
    assert mp[i] in mp && Kept(order, mp[i]);
    j :| 0 <= j < |mq| && mq[j] == mp[i];
  }

  /** Every printed field of one of two equal objects is a printed field of the other. */
  lemma SameImpliesIn(order: KeyOrder, p: seq<Field>, q: seq<Field>, g: Field)
    requires DistinctKeys(p) && DistinctKeys(q) && SameValue(order, Obj(p), Obj(q))
    requires SameBySorting(order, p, q)
    requires g in SortedValues(order, p) && Kept(order, g)
    ensures g in SortedValues(order, q)
  {
    var mp, mq := SortedValues(order, p), SortedValues(order, q);
    var i :| 0 <= i < |mp| && mp[i] == g;
    assert Kept(order, p[i]);
    var j :| 0 <= j < |q| && q[j].key == p[i].key && SameValue(order, p[i].value, q[j].value);
    assert mq[j] == g;
  }

  // ---- the printer as it is written ----

  /** Prints as it sorts, object by object. */
  function CanonicalJson(v: Json): Text
    decreases v, 1, 0
  {
    match v
    case Arr(items) => [OPEN_BRACKET] + CanonicalItems(v, items) + [CLOSE_BRACKET]
    case Obj(fields) =>
      SortFieldsSubset(ByCodeUnit, fields);
      assert forall f | f in fields :: f.value < v;
      [OPEN_BRACE] + CanonicalFields(v, SortFields(ByCodeUnit, fields)) + [CLOSE_BRACE]
    case _ => Print(v)
  }

  function CanonicalItems(whole: Json, items: seq<Json>): Text
    requires forall i | 0 <= i < |items| :: items[i] < whole
    decreases whole, 0, |items|
  {
    if items == [] then []
    else CanonicalJson(items[0]) + (if |items| == 1 then [] else [COMMA] + CanonicalItems(whole, items[1..]))
  }

  function CanonicalFields(whole: Json, fields: seq<Field>): Text
    requires forall f | f in fields :: f.value < whole
    decreases whole, 0, |fields|
  {
    if fields == [] then []
    else
      Quote(fields[0].key) + [COLON] + CanonicalJson(fields[0].value)
      + (if |fields| == 1 then [] else [COMMA] + CanonicalFields(whole, fields[1..]))
  }

  lemma SortedValuesCons(order: KeyOrder, f: Field, fs: seq<Field>)
    ensures SortedValues(order, [f] + fs) == [Field(f.key, SortKeys(order, f.value))] + SortedValues(order, fs)
  {
  }

  lemma {:induction false} InsertSortedValues(order: KeyOrder, f: Field, fs: seq<Field>)
    ensures SortedValues(order, Insert(order, f, fs)) ==
            Insert(order, Field(f.key, SortKeys(order, f.value)), SortedValues(order, fs))
  {
    if fs == [] || Before(order, f.key, fs[0].key) {
      SortedValuesCons(order, f, fs);
    } else {
      InsertSortedValues(order, f, fs[1..]);
      assert fs == [fs[0]] + fs[1..];
      SortedValuesCons(order, fs[0], fs[1..]);
      SortedValuesCons(order, fs[0], Insert(order, f, fs[1..]));
    }
  }

  /** Sorting the fields and sorting inside their values commute. */
  lemma {:induction false} SortCommutes(order: KeyOrder, fs: seq<Field>)
    ensures SortFields(order, SortedValues(order, fs)) == SortedValues(order, SortFields(order, fs))
  {
    if fs != [] {
      assert SortedValues(order, fs)[1..] == SortedValues(order, fs[1..]);
      SortCommutes(order, fs[1..]);
      if Kept(order, fs[0]) {
        InsertSortedValues(order, fs[0], SortFields(order, fs[1..]));
      }
    }
  }

  lemma {:induction false} CanonicalItemsPrint(whole: Json, items: seq<Json>)
    requires forall i | 0 <= i < |items| :: items[i] < whole
    ensures CanonicalItems(whole, items) == PrintItems(SortKeys(ByCodeUnit, Arr(items)).items)
    decreases whole, 0, |items|
  {
    SortedArray(ByCodeUnit, items);
    if items != [] {
      CanonicalJsonSortsThenPrints(items[0]);
      CanonicalItemsPrint(whole, items[1..]);
      SortedArray(ByCodeUnit, items[1..]);
      assert SortKeys(ByCodeUnit, Arr(items)).items[1..] == SortKeys(ByCodeUnit, Arr(items[1..])).items;
    }
  }

  lemma {:induction false} CanonicalFieldsPrint(whole: Json, fields: seq<Field>)
    requires forall f | f in fields :: f.value < whole
    ensures CanonicalFields(whole, fields) == PrintFields(SortedValues(ByCodeUnit, fields))
    decreases whole, 0, |fields|
  {
    if fields != [] {
      CanonicalJsonSortsThenPrints(fields[0].value);
      CanonicalFieldsPrint(whole, fields[1..]);
      assert SortedValues(ByCodeUnit, fields)[1..] == SortedValues(ByCodeUnit, fields[1..]);
    }
  }

  /** Printing while sorting is sorting first and printing afterwards. */
  lemma {:induction false} CanonicalJsonSortsThenPrints(v: Json)
    ensures CanonicalJson(v) == CanonicalText(ByCodeUnit, v)
    decreases v, 1, 0
  {
    match v
    case Arr(items) => CanonicalItemsPrint(v, items);
    case Obj(fields) =>
      SortFieldsSubset(ByCodeUnit, fields);
      assert forall f | f in fields :: f.value < v;
      CanonicalFieldsPrint(v, SortFields(ByCodeUnit, fields));
      SortCommutes(ByCodeUnit, fields);
      SortedObject(ByCodeUnit, fields);
    case _ =>
  }

  /** Equal signed text exactly when two manifests are equal up to key order. */
  lemma SignedTextIsInjective(a: Json, b: Json)
    requires Proper(a) && Proper(b)
    ensures CanonicalJson(a) == CanonicalJson(b) <==> SameValue(ByCodeUnit, a, b)
  {
    CanonicalJsonSortsThenPrints(a);
    CanonicalJsonSortsThenPrints(b);
    EqualTextIffSameValue(ByCodeUnit, a, b);
  }

  /** Canonical text is injective up to key order: equal text exactly when the values are the same. */
  lemma EqualTextIffSameValue(order: KeyOrder, a: Json, b: Json)
    requires Proper(a) && Proper(b)
    ensures CanonicalText(order, a) == CanonicalText(order, b) <==> SameValue(order, a, b)
  {
    SortKeysProper(order, a);
    SortKeysProper(order, b);
    SortedEqualIffSame(order, a, b);
    if CanonicalText(order, a) == CanonicalText(order, b) {
      PrintInjective(SortKeys(order, a), SortKeys(order, b));
    }
  }

  /** The tool cache's key text drops `__proto__`, so it can collide where the signed text cannot. */
  lemma ProtoCollides(v: Json)
    requires Proper(v)
    ensures CanonicalText(ByPropertyOrder, Obj([Field(PROTO, v)])) == CanonicalText(ByPropertyOrder, Obj([]))
    ensures CanonicalText(ByCodeUnit, Obj([Field(PROTO, v)])) != CanonicalText(ByCodeUnit, Obj([]))
  {
    EqualTextIffSameValue(ByPropertyOrder, Obj([Field(PROTO, v)]), Obj([]));
    EqualTextIffSameValue(ByCodeUnit, Obj([Field(PROTO, v)]), Obj([]));
  }
}
