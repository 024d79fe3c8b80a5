/**
 The content-addressed archive and the lossless compaction of a conversation.
 The digest is a parameter: any function into texts of 24 characters.
 */
module Cortex {
  import opened Options
  import opened Sequences

  const ID_PREFIX := "ctx_"
  const DIGEST_LENGTH := 24
  const KEEP_HEAD := 2
  const KEEP_TAIL := 6
  const MAX_PREVIEW := 240
  const POINTER_PREFIX := "[archived; recall(\""

  type DigestFn = string -> string

  ghost predicate FixedLength(h: DigestFn) {
    forall text :: |h(text)| == DIGEST_LENGTH
  }

  function IdOf(h: DigestFn, text: string): string {
    ID_PREFIX + h(text)
  }

  // ---- pointers ----

  function Min(a: nat, b: nat): nat { if a < b then a else b }

  /** Head and tail of a long text around a marker. */
  function Preview(text: string, max: nat): string {
    if |text| <= max then text
    else
      var marker := " …[full text archived]… ";
      var available := if max >= 40 + |marker| then max - |marker| else 40;
      var head := available * 6 / 10;
      text[..Min(head, |text|)] + marker + text[|text| - Min(available - head, |text|)..]
  }

  function Pointer(id: string, text: string, role: string): string {
    POINTER_PREFIX + id + "\") to restore full " + Decimal(|text|) + "-char " + role + " content]\n"
    + Preview(text, MAX_PREVIEW)
  }

  /** The id a pointer names: the characters after the fixed opening words. */
  function PointedId(content: string): Option<string> {
    var from := |POINTER_PREFIX|;
    var to := from + |ID_PREFIX| + DIGEST_LENGTH;
    if |content| >= to && content[..from] == POINTER_PREFIX then Some(content[from..to]) else None
  }

  lemma PointerNamesId(h: DigestFn, text: string, role: string)
    requires |h(text)| == DIGEST_LENGTH
    ensures PointedId(Pointer(IdOf(h, text), text, role)) == Some(IdOf(h, text))
  {
    var id := IdOf(h, text);
    var rest := "\") to restore full " + Decimal(|text|) + "-char " + role + " content]\n" + Preview(text, MAX_PREVIEW);
    var content := Pointer(id, text, role);
    assert content == POINTER_PREFIX + id + rest;
    assert content[..|POINTER_PREFIX|] == POINTER_PREFIX;
    assert content[|POINTER_PREFIX|..|POINTER_PREFIX| + |id|] == id;
  }

  // ---- what a reader of a pointer sees ----

  /** A short text is its own preview; a long one shows its first and last characters around a mark, 240 in all. */
  lemma PreviewShowsBothEnds(text: string) returns (head: nat, mark: string, tail: nat)
    ensures |text| <= 240 ==> Preview(text, 240) == text
    ensures |text| > 240 ==>
              && head + |mark| + tail == 240 && 0 < tail < head && 10 * head <= 6 * (head + tail) < 10 * head + 10
              && Preview(text, 240) == text[..head] + mark + text[|text| - tail..]
  {
    mark := " …[full text archived]… ";
    var available := 240 - |mark|;
    head := available * 6 / 10;
    tail := available - head;
  }

  /** The number a decimal text stands for. */
  function ValueOf(digits: string): nat {
    if digits == "" then 0
    else
      var last := digits[|digits| - 1];
      10 * ValueOf(digits[..|digits| - 1]) + if '0' <= last <= '9' then last as int - '0' as int else 0
  }

  lemma {:induction false} DecimalIsReadBack(n: nat)
    ensures ValueOf(Decimal(n)) == n && Decimal(n) != ""
    ensures forall c | c in Decimal(n) :: '0' <= c <= '9'
    ensures n > 0 ==> Decimal(n)[0] != '0'
  {
    var last := [('0' as int + n % 10) as char];
    if n < 10 {
      assert Decimal(n) == last && last[..0] == "";
    } else {
      DecimalIsReadBack(n / 10);
      assert Decimal(n) == Decimal(n / 10) + last;
      assert Decimal(n)[..|Decimal(n)| - 1] == Decimal(n / 10);
    }
  }

  /** A pointer says which text to recall, how long it is and whose it was, and ends with its preview. */
  lemma PointerTells(id: string, text: string, role: string) returns (length: string)
    ensures ValueOf(length) == |text|
    ensures Pointer(id, text, role) ==
            "[archived; recall(\"" + id + "\") to restore full " + length + "-char " + role + " content]\n"
            + Preview(text, 240)
  {
    length := Decimal(|text|);
    DecimalIsReadBack(|text|);
  }

  datatype Archived = Archived(text: string, storedAt: int, hits: nat)

  type Archive = map<string, Archived>

  /** What is left after following `depth` pointers, starting from a message's content. */
  function Recover(archive: Archive, content: string, depth: nat): Option<string>
    decreases depth
  {
    if depth == 0 then Some(content)
    else match PointedId(content)
      case None => None
      case Some(id) => if id in archive then Recover(archive, archive[id].text, depth - 1) else None
  }

  /** Every archived text is still archived. */
  ghost predicate Grows(archive: Archive, more: Archive) {
    forall id | id in archive :: id in more && more[id].text == archive[id].text
  }

  /** Nothing that was recoverable is lost while the archive only grows. */
  lemma {:induction false} RecoverGrows(archive: Archive, more: Archive, content: string, depth: nat)
    requires Grows(archive, more) && Recover(archive, content, depth).Some?
    ensures Recover(more, content, depth) == Recover(archive, content, depth)
    decreases depth
  {
    if depth > 0 {
      RecoverGrows(archive, more, archive[PointedId(content).value].text, depth - 1);
    }
  }

  /** Replacing a content by a pointer to it adds one level. */
  lemma PointerAddsLevel(h: DigestFn, archive: Archive, text: string, role: string, depth: nat)
    requires |h(text)| == DIGEST_LENGTH && IdOf(h, text) in archive && archive[IdOf(h, text)].text == text
    ensures Recover(archive, Pointer(IdOf(h, text), text, role), depth + 1) == Recover(archive, text, depth)
  {
    PointerNamesId(h, text, role);
  }

  // ---- the archive ----

  /** The ids in the order their entries were made; storing a text again does not move its id. */
  ghost predicate Orders(order: seq<string>, entries: Archive) {
    && (forall id :: id in order <==> id in entries)
    && (forall i, j | 0 <= i < j < |order| :: order[i] != order[j])
  }

  datatype Shelf = Shelf(entries: Archive, order: seq<string>)

  /** What storing a text leaves behind; past a cap (0 is none) the entry that was made first goes. */
  function AfterStore(s: Shelf, cap: nat, id: string, text: string, now: int): Shelf {
    if id in s.entries then
      var e := s.entries[id];
      s.(entries := s.entries[id := e.(hits := e.hits + 1, storedAt := now)])
    else
      var grown := Shelf(s.entries[id := Archived(text, now, 1)], s.order + [id]);
      if cap == 0 || |grown.order| <= cap then grown
      else Shelf(grown.entries - {grown.order[0]}, grown.order[1..])
  }

  lemma FirstGone(s: Shelf)
    requires Orders(s.order, s.entries) && s.order != []
    ensures Orders(s.order[1..], s.entries - {s.order[0]})
  {
    assert s.order == [s.order[0]] + s.order[1..];
    forall id
      ensures id in s.order[1..] <==> id in s.entries && id != s.order[0]
    {
      if id in s.order[1..] {
        var i :| 0 <= i < |s.order| - 1 && s.order[1..][i] == id;
        assert s.order[i + 1] == id;
      }
      assert id in s.order <==> id in s.entries;
    }
  }

  /** Storing keeps the order in step with the entries. */
  lemma StoreKeepsOrder(s: Shelf, cap: nat, id: string, text: string, now: int)
    requires Orders(s.order, s.entries)
    ensures var t := AfterStore(s, cap, id, text, now); Orders(t.order, t.entries)
  {
    if id !in s.entries {
      assert id !in s.order;
      var grown := Shelf(s.entries[id := Archived(text, now, 1)], s.order + [id]);
      assert Orders(grown.order, grown.entries);
      FirstGone(grown);
    }
  }

  /** Every entry is filed under its own id, and was offered at some time. */
  ghost predicate Filed(h: DigestFn, entries: Archive, offered: set<string>) {
    forall id | id in entries :: id == IdOf(h, entries[id].text) && entries[id].text in offered
  }

  lemma StoreKeepsFiled(h: DigestFn, s: Shelf, offered: set<string>, cap: nat, text: string, now: int)
    requires Filed(h, s.entries, offered)
    ensures Filed(h, AfterStore(s, cap, IdOf(h, text), text, now).entries, offered + {text})
  {
  }

  /** Without a cap storing adds the text under its id, or keeps what is there already; nothing ever goes. */
  lemma UncappedStoreGrows(s: Shelf, id: string, text: string, now: int)
    ensures var t := AfterStore(s, 0, id, text, now);
            Grows(s.entries, t.entries) && id in t.entries
            && t.entries[id].text == if id in s.entries then s.entries[id].text else text
  {
  }

  // ---- what a capped archive evicts ----

  /** Every entry was stored at `now` or before. */
  ghost predicate Past(s: Shelf, now: int) {
    forall o | o in s.entries :: s.entries[o].storedAt <= now
  }

  /** Whatever is gone was stored no later than anything that is left. */
  ghost predicate EvictedByAge(s: Shelf, t: Shelf) {
    forall gone, o | gone in s.entries && gone !in t.entries && o in t.entries ::
      s.entries[gone].storedAt <= t.entries[o].storedAt
  }

  /** What is meant to go is the text stored longest ago; that happens exactly when it is also the entry made first. */
  lemma EvictsByAgeIff(s: Shelf, cap: nat, id: string, text: string, now: int)
    requires Orders(s.order, s.entries) && |s.order| == cap > 0 && id !in s.entries && Past(s, now)
    ensures EvictedByAge(s, AfterStore(s, cap, id, text, now)) <==>
            forall o | o in s.entries :: s.entries[s.order[0]].storedAt <= s.entries[o].storedAt
  {
    var first, t := s.order[0], AfterStore(s, cap, id, text, now);
    assert first in s.order && id !in s.order;
    assert (s.order + [id])[0] == first;
    assert t.entries == s.entries[id := Archived(text, now, 1)] - {first};
    if EvictedByAge(s, t) {
      forall o | o in s.entries
        ensures s.entries[first].storedAt <= s.entries[o].storedAt
      {
        assert o != first ==> o in t.entries && t.entries[o] == s.entries[o];
      }
    }
  }

  function AgeOf(entries: Archive, id: string): int {
    if id in entries then entries[id].storedAt else 0
  }

  /** The entries are in the order of their last storing. */
  ghost predicate AgeOrdered(s: Shelf) {
    forall i, j | 0 <= i < j < |s.order| :: AgeOf(s.entries, s.order[i]) <= AgeOf(s.entries, s.order[j])
  }

  lemma RefreshKeepsAgeOrderIff(s: Shelf, cap: nat, id: string, text: string, now: int)
    requires Orders(s.order, s.entries) && AgeOrdered(s) && Past(s, now) && id in s.entries
    ensures AgeOrdered(AfterStore(s, cap, id, text, now)) <==>
            forall i, j | 0 <= i < j < |s.order| && s.order[i] == id :: AgeOf(s.entries, s.order[j]) == now
  {
    var t := AfterStore(s, cap, id, text, now);
    assert t.order == s.order && id in s.order;
    forall k | 0 <= k < |s.order|
      ensures AgeOf(t.entries, t.order[k]) == (if s.order[k] == id then now else AgeOf(s.entries, s.order[k])) <= now
    {
      assert s.order[k] in s.order && s.order[k] in s.entries;
    }
  }

  lemma NewKeepsAgeOrder(s: Shelf, id: string, text: string, now: int)
    requires Orders(s.order, s.entries) && AgeOrdered(s) && Past(s, now) && id !in s.entries
    ensures AgeOrdered(Shelf(s.entries[id := Archived(text, now, 1)], s.order + [id]))
  {
    forall k | 0 <= k < |s.order|
      ensures s.order[k] != id && AgeOf(s.entries, s.order[k]) <= now
    {
      assert s.order[k] in s.order && s.order[k] in s.entries;
    }
  }

  lemma EvictionKeepsAgeOrder(s: Shelf)
    requires Orders(s.order, s.entries) && AgeOrdered(s) && s.order != []
    ensures AgeOrdered(Shelf(s.entries - {s.order[0]}, s.order[1..]))
  {
  }

  /** Storing keeps that order exactly when the text is new, or nothing made after it was stored before now. */
  lemma StoreKeepsAgeOrderIff(s: Shelf, cap: nat, id: string, text: string, now: int)
    requires Orders(s.order, s.entries) && AgeOrdered(s) && Past(s, now)
    ensures AgeOrdered(AfterStore(s, cap, id, text, now)) <==>
            forall i, j | 0 <= i < j < |s.order| && s.order[i] == id :: AgeOf(s.entries, s.order[j]) == now
  {
    if id in s.entries {
      RefreshKeepsAgeOrderIff(s, cap, id, text, now);
    } else {
      assert id !in s.order;
      var grown := Shelf(s.entries[id := Archived(text, now, 1)], s.order + [id]);
      NewKeepsAgeOrder(s, id, text, now);
      StoreKeepsOrder(s, 0, id, text, now);
      EvictionKeepsAgeOrder(grown);
    }
  }

  /** The entry made first is the one stored longest ago. */
  lemma FirstIsOldest(s: Shelf, o: string)
    requires Orders(s.order, s.entries) && AgeOrdered(s) && o in s.entries
    ensures s.order != [] && s.order[0] in s.entries && s.entries[s.order[0]].storedAt <= s.entries[o].storedAt
  {
    assert o in s.order;
    assert s.order[0] in s.order;
  }

  datatype Offer = Offer(id: string, text: string, now: int)

  /** The archive after a whole history of offers, starting empty. */
  function AfterOffers(offers: seq<Offer>, cap: nat): Shelf {
    if offers == [] then Shelf(map[], [])
    else
      var last := offers[|offers| - 1];
      AfterStore(AfterOffers(offers[..|offers| - 1], cap), cap, last.id, last.text, last.now)
  }

  ghost predicate Ordered(offers: seq<Offer>) {
    forall i, j | 0 <= i < j < |offers| :: offers[i].now <= offers[j].now
  }

  /** No text is offered while it is archived already. */
  predicate NothingStoredAgain(offers: seq<Offer>, cap: nat) {
    offers == [] ||
    (var front := offers[..|offers| - 1];
     NothingStoredAgain(front, cap) && offers[|offers| - 1].id !in AfterOffers(front, cap).entries)
  }

  ghost predicate Aged(s: Shelf, cap: nat, now: int) {
    Orders(s.order, s.entries) && AgeOrdered(s) && Past(s, now) && (cap == 0 || |s.order| <= cap)
  }

  lemma StoreKeepsPast(s: Shelf, cap: nat, id: string, text: string, now: int)
    requires Past(s, now)
    ensures Past(AfterStore(s, cap, id, text, now), now)
  {
  }

  lemma NewEvictsByAge(s: Shelf, cap: nat, id: string, text: string, now: int)
    requires Aged(s, cap, now) && id !in s.entries
    ensures EvictedByAge(s, AfterStore(s, cap, id, text, now))
  {
    if cap != 0 && |s.order| == cap {
      forall o | o in s.entries
        ensures s.entries[s.order[0]].storedAt <= s.entries[o].storedAt
      {
        FirstIsOldest(s, o);
      }
      EvictsByAgeIff(s, cap, id, text, now);
    }
  }

  lemma NewKeepsAged(s: Shelf, cap: nat, id: string, text: string, now: int)
    requires Aged(s, cap, now) && id !in s.entries
    ensures Aged(AfterStore(s, cap, id, text, now), cap, now)
  {
    StoreKeepsOrder(s, cap, id, text, now);
    StoreKeepsPast(s, cap, id, text, now);
    assert id !in s.order;
    StoreKeepsAgeOrderIff(s, cap, id, text, now);
  }

  /** How often a text was offered, and when it was offered last. */
  function Times(offers: seq<Offer>, id: string): nat {
    if offers == [] then 0
    else Times(offers[..|offers| - 1], id) + if offers[|offers| - 1].id == id then 1 else 0
  }

  ghost predicate FirstText(offers: seq<Offer>, id: string, text: string) {
    exists i | 0 <= i < |offers| && offers[i].id == id ::
      offers[i].text == text && forall k | 0 <= k < i :: offers[k].id != id
  }

  ghost predicate LastTime(offers: seq<Offer>, id: string, now: int) {
    exists i | 0 <= i < |offers| && offers[i].id == id ::
      offers[i].now == now && forall k | i < k < |offers| :: offers[k].id != id
  }

  /** What the archive knows of one id: how often it was offered, its first text and its last time. */
  ghost predicate Records(entries: Archive, offers: seq<Offer>, id: string) {
    && (id in entries <==> Times(offers, id) > 0)
    && (id in entries ==> entries[id].hits == Times(offers, id)
                          && FirstText(offers, id, entries[id].text) && LastTime(offers, id, entries[id].storedAt))
  }

  /** Without a cap the archive counts the offers of every text, keeps the first text of an id and the last time. */
  lemma {:induction false} ArchiveRecordsOffers(offers: seq<Offer>, id: string)
    ensures Records(AfterOffers(offers, 0).entries, offers, id)
  {
    if offers != [] {
      var front, last := offers[..|offers| - 1], offers[|offers| - 1];
      ArchiveRecordsOffers(front, id);
      OfferIsRecorded(AfterOffers(front, 0), front, last, id);
      assert front + [last] == offers;
    }
  }

  lemma OfferIsRecorded(s: Shelf, front: seq<Offer>, last: Offer, id: string)
    requires Records(s.entries, front, id)
    ensures Records(AfterStore(s, 0, last.id, last.text, last.now).entries, front + [last], id)
  {
    var offers, t := front + [last], AfterStore(s, 0, last.id, last.text, last.now);
    assert offers[..|offers| - 1] == front;
    TimesCounts(front, id);
    if id in s.entries {
      var i :| 0 <= i < |front| && front[i].id == id && front[i].text == s.entries[id].text
        && forall k | 0 <= k < i :: front[k].id != id;
      assert offers[i].text == t.entries[id].text && forall k | 0 <= k < i :: offers[k] == front[k];
      if last.id != id {
        var j :| 0 <= j < |front| && front[j].id == id && front[j].now == s.entries[id].storedAt
          && forall k | j < k < |front| :: front[k].id != id;
        assert offers[j].now == t.entries[id].storedAt;
      }
    }
    if last.id == id {
      assert offers[|front|] == last;
      assert LastTime(offers, id, last.now);
      if id !in s.entries {
        assert FirstText(offers, id, last.text);
      }
    }
  }

  lemma {:induction false} TimesCounts(offers: seq<Offer>, id: string)
    ensures Times(offers, id) == 0 <==> forall i | 0 <= i < |offers| :: offers[i].id != id
  {
    if offers != [] {
      TimesCounts(offers[..|offers| - 1], id);
    }
  }

  /** As long as nothing is stored again, the archive is in age order and every eviction is by age. */
  lemma {:induction false} WithoutRepeatsEvictsByAge(offers: seq<Offer>, cap: nat)
    requires Ordered(offers) && NothingStoredAgain(offers, cap)
    ensures Aged(AfterOffers(offers, cap), cap, if offers == [] then 0 else offers[|offers| - 1].now)
    ensures offers != [] ==> EvictedByAge(AfterOffers(offers[..|offers| - 1], cap), AfterOffers(offers, cap))
  {
    if offers != [] {
      var front, last := offers[..|offers| - 1], offers[|offers| - 1];
      WithoutRepeatsEvictsByAge(front, cap);
      var s := AfterOffers(front, cap);
      assert front == [] ==> s.entries == map[];
      assert Aged(s, cap, last.now) by {
        assert front == [] ==> Past(s, last.now);
      }
      NewKeepsAged(s, cap, last.id, last.text, last.now);
      NewEvictsByAge(s, cap, last.id, last.text, last.now);
    }
  }

  /** A history that evicts the wrong text: room for two, the first stored again, then a third. */
  lemma RefreshDoesNotProtect(a: string, b: string, c: string, text: string)
    requires a != b && b != c && a != c
    ensures var offers := [Offer(a, text, 1), Offer(b, text, 2), Offer(a, text, 3), Offer(c, text, 4)];
            var s, t := AfterOffers(offers[..3], 2), AfterOffers(offers, 2);
            && AgeOf(s.entries, a) == 3 && AgeOf(s.entries, b) == 2
            && a in s.entries && a !in t.entries && b in t.entries && !EvictedByAge(s, t)
  {
    var offers := [Offer(a, text, 1), Offer(b, text, 2), Offer(a, text, 3), Offer(c, text, 4)];
    assert offers[..3][..2] == offers[..2] && offers[..2][..1] == offers[..1] && offers[..1][..0] == [];
    assert AfterOffers(offers[..1], 2) == Shelf(map[a := Archived(text, 1, 1)], [a]);
    assert AfterOffers(offers[..2], 2) == Shelf(map[a := Archived(text, 1, 1), b := Archived(text, 2, 1)], [a, b]);
    assert AfterOffers(offers[..3], 2) == Shelf(map[a := Archived(text, 3, 2), b := Archived(text, 2, 1)], [a, b]);
    assert ([a, b] + [c])[0] == a;
  }

  class Cortex {
    const h: DigestFn
    const maxEntries: nat   // 0 is unbounded
    var entries: Archive
    var order: seq<string>
    ghost var offered: set<string>   // every text handed to the archive so far

    ghost predicate Valid()
      reads this
    {
      FixedLength(h) && Orders(order, entries) && Filed(h, entries, offered)
    }

    constructor (h: DigestFn, maxEntries: nat)
      requires FixedLength(h)
      ensures Valid() && entries == map[] && order == [] && offered == {}
      ensures this.h == h && this.maxEntries == maxEntries
    {
      this.h := h;
      this.maxEntries := maxEntries;
      entries, order, offered := map[], [], {};
    }

    method Store(text: string, now: int) returns (id: string, chars: nat, deduped: bool)
      requires Valid()
      modifies this
      ensures Valid() && offered == old(offered) + {text}
      ensures id == IdOf(h, text) && chars == |text| && deduped == (id in old(entries))
      ensures Shelf(entries, order) == AfterStore(Shelf(old(entries), old(order)), maxEntries, id, text, now)
    {
      id, chars := IdOf(h, text), |text|;
      StoreKeepsOrder(Shelf(entries, order), maxEntries, id, text, now);
      StoreKeepsFiled(h, Shelf(entries, order), offered, maxEntries, text, now);
      offered := offered + {text};
      deduped := Keep(id, text, now);
    }

    method Keep(id: string, text: string, now: int) returns (deduped: bool)
      modifies this`entries, this`order
      ensures deduped == (id in old(entries))
      ensures Shelf(entries, order) == AfterStore(Shelf(old(entries), old(order)), maxEntries, id, text, now)
    {
      deduped := id in entries;
      if deduped {
        var e := entries[id];
        entries := entries[id := e.(hits := e.hits + 1, storedAt := now)];
      } else {
        entries, order := entries[id := Archived(text, now, 1)], order + [id];
        if maxEntries > 0 && |order| > maxEntries {
          entries, order := entries - {order[0]}, order[1..];
        }
      }
    }

    /** The full text, never a part of it. */
    method Recall(id: string) returns (text: Option<string>)
      requires Valid()
      modifies this`entries
      ensures Valid() && entries.Keys == old(entries).Keys && Grows(old(entries), entries)
      ensures text == if id in entries then Some(entries[id].text) else None
    {
      if id !in entries {
        return None;
      }
      var e := entries[id];
      entries := entries[id := e.(hits := e.hits + 1)];
      return Some(e.text);
    }
  }

  lemma SameIdSameDigest(h: DigestFn, a: string, b: string)
    ensures IdOf(h, a) == IdOf(h, b) <==> h(a) == h(b)
  {
    assert IdOf(h, a)[|ID_PREFIX|..] == h(a) && IdOf(h, b)[|ID_PREFIX|..] == h(b);
  }
}
