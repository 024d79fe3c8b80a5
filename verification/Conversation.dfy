/** A conversation over a whole run: messages are appended, and the middle is compacted again and again. */
module Conversation {
  import opened Options
  import opened Cortex

  datatype Message = Message(role: string, content: string)

  function Size(messages: seq<Message>): nat {
    if messages == [] then 0 else Size(messages[..|messages| - 1]) + |messages[|messages| - 1].content|
  }

  /** The size of a conversation is the sum of the lengths of its messages. */
  lemma {:induction false} SizeIsSum(a: seq<Message>, b: seq<Message>, m: Message)
    ensures Size(a + b) == Size(a) + Size(b) && Size([m]) == |m.content|
    decreases |b|
  {
    assert [m][..0] == [];
    if b == [] {
      assert a + b == a;
    } else {
      SizeIsSum(a, b[..|b| - 1], m);
      assert (a + b)[..|a + b| - 1] == a + b[..|b| - 1];
    }
  }

  datatype Event = Say(m: Message) | Compact(maxChars: nat, now: int)

  /** No two of these texts share a digest. */
  ghost predicate Distinguishes(h: DigestFn, texts: set<string>) {
    forall x, y | x in texts && y in texts && h(x) == h(y) :: x == y
  }

  /** Message `m` leads back to its original by following `depth` pointers, and kept its role. */
  ghost predicate LeadsBack(archive: Archive, m: Message, original: Message, depth: nat) {
    m.role == original.role && Recover(archive, m.content, depth) == Some(original.content)
  }

  ghost predicate AllLeadBack(archive: Archive, ms: seq<Message>, originals: seq<Message>, depths: seq<nat>) {
    |ms| == |originals| == |depths| && forall i | 0 <= i < |ms| :: LeadsBack(archive, ms[i], originals[i], depths[i])
  }

  lemma ArchiveGrowthKeepsAll(archive: Archive, more: Archive,
                              ms: seq<Message>, originals: seq<Message>, depths: seq<nat>)
    requires AllLeadBack(archive, ms, originals, depths)
    requires Grows(archive, more)
    ensures AllLeadBack(more, ms, originals, depths)
  {
    forall i | 0 <= i < |ms| {
      RecoverGrows(archive, more, ms[i].content, depths[i]);
    }
  }

  /** A position the compaction never touches: the first two and the last six. */
  predicate Verbatim(i: nat, n: nat) {
    i < KEEP_HEAD || i + KEEP_TAIL >= n
  }

  function Deeper(depths: seq<nat>, n: nat): (r: seq<nat>)
    requires n <= |depths|
    ensures |r| == |depths|
    ensures forall i | 0 <= i < |depths| :: r[i] == if i < n && !Verbatim(i, |depths|) then depths[i] + 1 else depths[i]
  {
    seq(|depths|, i requires 0 <= i < |depths| => if i < n && !Verbatim(i, |depths|) then depths[i] + 1 else depths[i])
  }

  /** Roles are kept, and every original can be recovered, unless two offered texts share a digest. */
  ghost predicate Recoverable(h: DigestFn, offered: set<string>, archive: Archive,
                              ms: seq<Message>, originals: seq<Message>, depths: seq<nat>)
  {
    && |ms| == |originals| == |depths|
    && (forall i | 0 <= i < |ms| :: ms[i].role == originals[i].role)
    && (Distinguishes(h, offered) ==> AllLeadBack(archive, ms, originals, depths))
  }

  /** One message archived under its id, and replaced by one naming the id, in an archive that kept everything else. */
  lemma ArchivedLeadsBack(h: DigestFn, archive: Archive, more: Archive, offered: set<string>,
                          ms: seq<Message>, originals: seq<Message>, depths: seq<nat>, i: nat, pointer: Message)
    requires i < |ms| && Recoverable(h, offered, archive, ms, originals, depths) && Filed(h, archive, offered)
    requires var id := IdOf(h, ms[i].content);
             && Grows(archive, more) && id in more
             && more[id].text == (if id in archive then archive[id].text else ms[i].content)
             && pointer.role == ms[i].role && PointedId(pointer.content) == Some(id)
    ensures Recoverable(h, offered + {ms[i].content}, more, ms[i := pointer], originals, depths[i := depths[i] + 1])
  {
    if !Distinguishes(h, offered + {ms[i].content}) {
      return;
    }
    var text := ms[i].content;
    var id := IdOf(h, text);
    if id in archive {
      SameIdSameDigest(h, archive[id].text, text);
    }
    ArchiveGrowthKeepsAll(archive, more, ms, originals, depths);
    assert Recover(more, pointer.content, depths[i] + 1) == Recover(more, text, depths[i]);
  }

  class Conversation {
    var messages: seq<Message>
    const cortex: Cortex
    ghost var originals: seq<Message>
    ghost var depths: seq<nat>

    /** Every original message can be recovered in full, as long as the texts offered have distinct digests. */
    ghost predicate Valid()
      reads this, cortex
    {
      && cortex.Valid() && cortex.maxEntries == 0
      && Recoverable(cortex.h, cortex.offered, cortex.entries, messages, originals, depths)
    }

    constructor (h: DigestFn)
      requires FixedLength(h)
      ensures Valid() && messages == originals == [] && fresh(cortex) && cortex.h == h
    {
      messages, originals, depths := [], [], [];
      cortex := new Cortex(h, 0);
    }

    method Say(m: Message)
      requires Valid()
      modifies this
      ensures Valid()
      ensures messages == old(messages) + [m] && originals == old(originals) + [m]
      ensures depths == old(depths) + [0]
    {
      messages, originals, depths := messages + [m], originals + [m], depths + [0];
    }

    /** The text is archived, or was already, and nothing else leaves the archive. */
    method Shelve(text: string, now: int) returns (id: string)
      requires cortex.Valid() && cortex.maxEntries == 0
      modifies cortex
      ensures cortex.Valid() && cortex.offered == old(cortex.offered) + {text} && id == IdOf(cortex.h, text)
      ensures Grows(old(cortex.entries), cortex.entries) && id in cortex.entries
      ensures cortex.entries[id].text == if id in old(cortex.entries) then old(cortex.entries)[id].text else text
    {
      var chars, deduped;
      id, chars, deduped := cortex.Store(text, now);
      UncappedStoreGrows(Shelf(old(cortex.entries), old(cortex.order)), id, text, now);
    }

    /** Archives message `i` and puts a pointer in its place. */
    method ArchiveOne(i: nat, now: int) returns (pointer: Message)
      requires Valid() && i < |messages|
      modifies this`messages, this`depths, cortex
      ensures Valid() && originals == old(originals)
      ensures depths == old(depths)[i := old(depths)[i] + 1]
      ensures messages == old(messages)[i := pointer] && pointer.role == old(messages)[i].role
      ensures PointedId(pointer.content) == Some(IdOf(cortex.h, old(messages)[i].content))
    {
      var m := messages[i];
      var id := Shelve(m.content, now);
      pointer := PointTo(id, m);
      ArchivedLeadsBack(cortex.h, old(cortex.entries), cortex.entries, old(cortex.offered), messages, originals,
                        depths, i, pointer);
      Replace(i, pointer);
    }

    method Replace(i: nat, pointer: Message)
      requires i < |messages| == |depths|
      modifies this`messages, this`depths
      ensures messages == old(messages)[i := pointer] && depths == old(depths)[i := old(depths)[i] + 1]
    {
      messages, depths := messages[i := pointer], depths[i := depths[i] + 1];
    }

    method PointTo(id: string, m: Message) returns (pointer: Message)
      requires FixedLength(cortex.h) && id == IdOf(cortex.h, m.content)
      ensures pointer.role == m.role && PointedId(pointer.content) == Some(id)
    {
      PointerNamesId(cortex.h, m.content, m.role);
      pointer := Message(m.role, Pointer(id, m.content, m.role));
    }

    /**
     Over the budget, every message between the first two and the last six is archived behind a pointer.
     No message is dropped, reordered or given another role.
     */
    method Compact(maxChars: nat, now: int) returns (compressed: bool)
      requires Valid()
      modifies this, cortex
      ensures Valid() && originals == old(originals) && |messages| == |old(messages)|
      ensures compressed <==> Size(old(messages)) > maxChars
      ensures !compressed ==> messages == old(messages) && depths == old(depths)
      ensures compressed ==> depths == Deeper(old(depths), |depths|)
      ensures forall i | 0 <= i < |messages| :: messages[i].role == old(messages)[i].role
      ensures forall i | 0 <= i < |messages| && (i < 2 || i >= |messages| - 6) :: messages[i] == old(messages)[i]
      ensures compressed ==> forall i | 2 <= i < |messages| - 6 ::
                PointedId(messages[i].content) == Some(IdOf(cortex.h, old(messages)[i].content))
    {
      if Size(messages) <= maxChars {
        return false;
      }
      var n := |messages|;
      var i := KEEP_HEAD;
      while i + KEEP_TAIL < n
        invariant Valid() && originals == old(originals) && |messages| == n == |old(messages)|
        invariant i == KEEP_HEAD || i + KEEP_TAIL <= n
        invariant forall k | 0 <= k < n && (k < KEEP_HEAD || k >= i) ::
                    messages[k] == old(messages)[k] && depths[k] == old(depths)[k]
        invariant forall k | KEEP_HEAD <= k < i && k < n ::
                    && messages[k].role == old(messages)[k].role && depths[k] == old(depths)[k] + 1
                    && PointedId(messages[k].content) == Some(IdOf(cortex.h, old(messages)[k].content))
      {
        var _ := ArchiveOne(i, now);
        i := i + 1;
      }
      return true;
    }

    /** A whole run, in any interleaving of messages and compactions. */
    method Run(events: seq<Event>)
      requires Valid()
      modifies this, cortex
      ensures Valid()
      ensures originals == old(originals) + Said(events)
      ensures Distinguishes(cortex.h, cortex.offered) ==> AllLeadBack(cortex.entries, messages, originals, depths)
    {
      for k := 0 to |events|
        invariant Valid()
        invariant originals == old(originals) + Said(events[..k])
      {
        assert events[..k + 1][..k] == events[..k];
        match events[k] {
          case Say(m) => Say(m);
          case Compact(maxChars, now) => var _ := Compact(maxChars, now);
        }
      }
      assert events[..|events|] == events;
    }
  }

  /** The digest condition is needed: under a collision the pointer leads to the other text. */
  lemma CollisionLosesText(h: DigestFn, archive: Archive, text: string, role: string)
    requires |h(text)| == DIGEST_LENGTH && IdOf(h, text) in archive
    ensures Recover(archive, Pointer(IdOf(h, text), text, role), 1) == Some(text)
            <==> archive[IdOf(h, text)].text == text
  {
    PointerNamesId(h, text, role);
    assert Recover(archive, archive[IdOf(h, text)].text, 0) == Some(archive[IdOf(h, text)].text);
  }

  /** The messages of a run, in order. */
  function Said(events: seq<Event>): seq<Message> {
    if events == [] then []
    else
      var last := events[|events| - 1];
      Said(events[..|events| - 1]) + if last.Say? then [last.m] else []
  }
}
