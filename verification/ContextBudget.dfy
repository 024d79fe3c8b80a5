/** Fitting the context blocks of the system prompt into their budgets. Characters stand for UTF-16 code units. */
module ContextBudget {
  import opened Options
  import opened Sequences

  datatype Name = SystemRules | Env | WorkspaceMap | Persona | Policy | Skills | Vector | Sessions | Memory

  function Budget(name: Name): nat {
    match name
    case SystemRules => 2500
    case Env => 1500
    case WorkspaceMap => 2000
    case Persona => 800
    case Policy => 1000
    case Skills => 1500
    case Memory => 3000
    case Sessions => 4000
    case Vector => 1800
  }

  const BLOCK_ORDER := [SystemRules, Env, WorkspaceMap, Persona, Policy, Skills, Vector, Sessions, Memory]
  const BACK_CUT_ORDER := [Memory, Sessions, Vector]
  const TOTAL_BUDGET := 18100

  // ---- the untrusted markers ----

  const OPENING := "<untrusted-"

  predicate NameChar(c: char) {
    'a' <= c <= 'z' || 'A' <= c <= 'Z' || '0' <= c <= '9' || c == '-'
  }

  function NameRun(s: string): (n: nat)
    ensures n <= |s|
    ensures forall i | 0 <= i < n :: NameChar(s[i])
  {
    if s == [] || !NameChar(s[0]) then 0 else 1 + NameRun(s[1..])
  }

  /** The length of an opening marker at the front of the text, or 0. */
  function OpenMarker(s: string): (n: nat)
    ensures n <= |s|
    ensures n > 0 ==> n > |OPENING| && s[..|OPENING|] == OPENING && s[n - 1] == '>'
    ensures n > 0 ==> forall i | |OPENING| <= i < n - 1 :: NameChar(s[i])
  {
    if !StartsWith(s, OPENING) then 0
    else
      var name := NameRun(s[|OPENING|..]);
      var end := |OPENING| + name;
      if name > 0 && end < |s| && s[end] == '>' then end + 1 else 0
  }

  /** The first position at or after `from` where the text continues with `p`, or the length when there is none. */
  function IndexOf(s: string, p: string, from: nat): (i: nat)
    requires from <= |s|
    ensures from <= i <= |s|
    ensures i < |s| ==> StartsWith(s[i..], p)
    ensures forall k | from <= k < i :: !StartsWith(s[k..], p)
    decreases |s| - from
  {
    if from == |s| || StartsWith(s[from..], p) then from else IndexOf(s, p, from + 1)
  }

  function FirstMarker(s: string, from: nat): (i: nat)
    requires from <= |s|
    ensures from <= i <= |s|
    ensures i < |s| ==> OpenMarker(s[i..]) > 0
    ensures forall k | from <= k < i :: OpenMarker(s[k..]) == 0
    decreases |s| - from
  {
    if from == |s| || OpenMarker(s[from..]) > 0 then from else FirstMarker(s, from + 1)
  }

  /** A block around its first marker pair; `None` when there is no such pair. */
  datatype Parts = Parts(prefix: string, open: string, body: string, close: string, suffix: string)
  {
    function Whole(): string { prefix + open + body + close + suffix }
    function Overhead(): nat { |prefix| + |open| + |close| + |suffix| }
  }

  function PartsAt(s: string, i: nat, j: nat, k: nat, l: nat): Parts
    requires i <= j <= k <= l <= |s|
  {
    Parts(s[..i], s[i..j], s[j..k], s[k..l], s[l..])
  }

  predicate ClosesAt(s: string, close: string, k: nat, l: nat) {
    k <= |s| && StartsWith(s[k..], close) && l == k + |close|
  }

  /** Where the first opening marker starts and ends, and where its closing marker does. */
  datatype Cuts = Cuts(i: nat, j: nat, k: nat, l: nat)

  function FindCuts(block: string): (c: Option<Cuts>)
    ensures c.Some? ==> c.value.i <= c.value.j <= c.value.k <= c.value.l <= |block|
    ensures c.Some? ==> c.value.i < |block| && c.value.j == c.value.i + OpenMarker(block[c.value.i..]) > c.value.i
    ensures c.Some? ==> ClosesAt(block, "</" + block[c.value.i + 1..c.value.j], c.value.k, c.value.l)
  {
    var openIdx := FirstMarker(block, 0);
    if openIdx == |block| then None
    else
      var bodyIdx := openIdx + OpenMarker(block[openIdx..]);
      var close := "</" + block[openIdx + 1..bodyIdx];
      var closeIdx := IndexOf(block, close, bodyIdx);
      if closeIdx == |block| then None
      else Some(Cuts(openIdx, bodyIdx, closeIdx, closeIdx + |close|))
  }

  function Split(block: string): Option<Parts> {
    match FindCuts(block)
    case None => None
    case Some(c) => Some(PartsAt(block, c.i, c.j, c.k, c.l))
  }

  lemma FiveCuts(s: string, i: nat, j: nat, k: nat, l: nat)
    requires i <= j <= k <= l <= |s|
    ensures PartsAt(s, i, j, k, l).Whole() == s
    ensures |s| == PartsAt(s, i, j, k, l).Overhead() + |PartsAt(s, i, j, k, l).body|
  {
  }

  /** The five pieces make up the block again. */
  lemma SplitIsWhole(block: string)
    ensures Split(block).Some? ==>
              && Split(block).value.Whole() == block
              && |block| == Split(block).value.Overhead() + |Split(block).value.body|
  {
    match FindCuts(block)
    case None =>
    case Some(c) => FiveCuts(block, c.i, c.j, c.k, c.l);
  }

  lemma Slice(s: string, i: nat, n: nat)
    requires i + n <= |s|
    ensures s[i..][..n] == s[i..i + n]
  {
  }

  /** An opening marker at `i` that ends at `j`. */
  predicate OpensAt(s: string, i: nat, j: nat) {
    i + |OPENING| < j <= |s| && s[i..i + |OPENING|] == OPENING && s[j - 1] == '>'
  }

  lemma MarkerOpens(s: string, i: nat)
    requires i <= |s| && OpenMarker(s[i..]) > 0
    ensures OpensAt(s, i, i + OpenMarker(s[i..]))
  {
    Slice(s, i, |OPENING|);
  }

  /** The cuts enclose an opening marker and the closing marker of the same name. */
  lemma MarkersMatch(block: string)
    requires FindCuts(block).Some?
    ensures var c := FindCuts(block).value;
            OpensAt(block, c.i, c.j) && block[c.k..c.l] == "</" + block[c.i + 1..c.j]
  {
    var c := FindCuts(block).value;
    MarkerOpens(block, c.i);
    CloserIsThere(block, "</" + block[c.i + 1..c.j], c.k, c.l);
  }

  lemma CloserIsThere(s: string, close: string, k: nat, l: nat)
    requires ClosesAt(s, close, k, l)
    ensures k <= l <= |s| && s[k..l] == close
  {
    Slice(s, k, |close|);
  }

  /** A plain cut can only happen without a marker pair: a shortened body always fits. */
  lemma ShortenedBodyFits(p: Parts, cap: nat)
    requires p.Overhead() < cap && cap - p.Overhead() <= |p.body|
    ensures |p.(body := p.body[..cap - p.Overhead()]).Whole()| == cap
  {
  }

  /** The markers with what fits between them; the bare markers when they alone fill the cap. */
  function CutBody(p: Parts, cap: nat): string
    requires p.Overhead() + |p.body| > cap
  {
    if p.Overhead() >= cap then p.(body := "").Whole() else p.(body := p.body[..cap - p.Overhead()]).Whole()
  }

  /** The result, by what is kept: everything, the markers with a shortened body, or a plain cut. */
  function Truncated(block: string, cap: nat): string {
    if |block| <= cap then block
    else match Split(block)
      case None => block[..cap]
      case Some(p) =>
        SplitIsWhole(block);
        CutBody(p, cap)
  }

  /** Cuts a block to `cap` characters; only the text between the markers is shortened. */
  method TruncateKeepingMarkers(block: string, cap: nat) returns (r: string)
    ensures r == Truncated(block, cap)
  {
    if |block| <= cap {
      return block;
    }
    var split := Split(block);
    if split.None? {
      return block[..cap];
    }
    SplitIsWhole(block);
    r := Shorten(split.value, block, cap);
  }

  /** The last fallback, a plain cut of the whole block, is never taken. */
  method Shorten(p: Parts, block: string, cap: nat) returns (r: string)
    requires |block| > cap && |block| == p.Overhead() + |p.body|
    ensures r == CutBody(p, cap)
  {
    var target := cap - |p.prefix| - |p.open| - |p.close| - |p.suffix|;
    if target <= 0 {
      assert p.prefix + p.open + "" == p.prefix + p.open;
      return p.prefix + p.open + p.close + p.suffix;
    }
    ShortenedBodyFits(p, cap);
    r := p.prefix + p.open + p.body[..target] + p.close + p.suffix;
    if |r| > cap {
      assert false;
    }
  }

  /** The length after a cut: the cap, or the marker overhead where that alone is more. */
  lemma TruncatedLength(block: string, cap: nat)
    ensures |Truncated(block, cap)| ==
            if |block| <= cap then |block|
            else if Split(block).Some? && Split(block).value.Overhead() > cap then Split(block).value.Overhead()
            else cap
  {
    SplitIsWhole(block);
    if |block| > cap && Split(block).Some? {
      var p := Split(block).value;
      if p.Overhead() < cap {
        ShortenedBodyFits(p, cap);
      }
    }
  }

  /** A cut keeps the prefix, both markers and the suffix, and a beginning of the text between the markers. */
  lemma TruncatedKeepsMarkers(block: string, cap: nat)
    requires Split(block).Some?
    ensures exists body :: body <= Split(block).value.body
                           && Truncated(block, cap) == Split(block).value.(body := body).Whole()
  {
    KeptBodyIsKept(block, cap);
    assert KeptBody(Split(block).value, cap) <= Split(block).value.body;
  }

  /** What a cut leaves between the markers. */
  function KeptBody(p: Parts, cap: nat): string {
    if p.Overhead() + |p.body| <= cap then p.body
    else if p.Overhead() >= cap then ""
    else p.body[..cap - p.Overhead()]
  }

  lemma CutBodyKeeps(p: Parts, cap: nat)
    requires p.Overhead() + |p.body| > cap
    ensures CutBody(p, cap) == p.(body := KeptBody(p, cap)).Whole()
  {
  }

  lemma KeptBodyIsKept(block: string, cap: nat)
    requires Split(block).Some?
    ensures Truncated(block, cap) == Split(block).value.(body := KeptBody(Split(block).value, cap)).Whole()
  {
    var p := Split(block).value;
    SplitIsWhole(block);
    if |block| <= cap {
      assert p.(body := p.body) == p;
    } else {
      CutBodyKeeps(p, cap);
    }
  }

  /** A block without a marker pair keeps its beginning. */
  lemma PlainCutKeepsFront(block: string, cap: nat)
    requires Split(block).None?
    ensures Truncated(block, cap) <= block && |Truncated(block, cap)| == if |block| < cap then |block| else cap
  {
  }

  /** An opening marker: the fixed words, a name of at least one letter, digit or hyphen, and the bracket. */
  ghost predicate MarkerOf(s: string, n: nat) {
    && |OPENING| + 1 < n <= |s| && s[..|OPENING|] == OPENING && s[n - 1] == '>'
    && forall i | |OPENING| <= i < n - 1 :: NameChar(s[i])
  }

  lemma OpenMarkerMeans(s: string)
    ensures OpenMarker(s) > 0 ==> MarkerOf(s, OpenMarker(s))
    ensures OpenMarker(s) == 0 ==> forall n: nat :: !MarkerOf(s, n)
  {
    forall n: nat | MarkerOf(s, n)
      ensures OpenMarker(s) > 0
    {
      OneMarkerLength(s, n);
    }
  }

  lemma OneMarkerLength(s: string, n: nat)
    requires MarkerOf(s, n)
    ensures OpenMarker(s) == n
  {
    var rest, name := s[|OPENING|..], n - 1 - |OPENING|;
    assert rest[name] == s[n - 1];
    assert forall i | 0 <= i < name :: rest[i] == s[|OPENING| + i];
    NameRunEnds(rest, name);
  }

  /** The run of name characters ends at the first other one. */
  lemma {:induction false} NameRunEnds(s: string, n: nat)
    requires n < |s| && !NameChar(s[n]) && forall i | 0 <= i < n :: NameChar(s[i])
    ensures NameRun(s) == n
  {
    if n > 0 {
      NameRunEnds(s[1..], n - 1);
    }
  }

  /** The text goes on with this marker at `from` or later. */
  ghost predicate ClosesAfter(s: string, close: string, from: nat) {
    exists k | from <= k <= |s| :: StartsWith(s[k..], close)
  }

  /** A block has a marker pair exactly when its first opening marker is closed by its own closing one later on. */
  lemma SplitMeans(block: string, i: nat, n: nat)
    requires i + n <= |block| && MarkerOf(block[i..], n)
    requires forall k, m: nat | 0 <= k < i :: !MarkerOf(block[k..], m)
    ensures Split(block).Some? <==> ClosesAfter(block, "</" + block[i + 1..i + n], i + n)
  {
    FirstMarkerIs(block, i, n);
    OneMarkerLength(block[i..], n);
    IndexOfMeans(block, "</" + block[i + 1..i + n], i + n);
    CutsAreFound(block, i, n);
  }

  lemma CutsAreFound(block: string, i: nat, n: nat)
    requires FirstMarker(block, 0) == i && i < |block| && OpenMarker(block[i..]) == n
    ensures Split(block).Some? <==> IndexOf(block, "</" + block[i + 1..i + n], i + n) < |block|
  {
  }

  lemma IndexOfMeans(s: string, p: string, from: nat)
    requires from <= |s| && p != []
    ensures IndexOf(s, p, from) < |s| <==> ClosesAfter(s, p, from)
  {
    assert !StartsWith(s[|s|..], p);
  }

  lemma FirstMarkerIs(block: string, i: nat, n: nat)
    requires i + n <= |block| && MarkerOf(block[i..], n)
    requires forall k, m: nat | 0 <= k < i :: !MarkerOf(block[k..], m)
    ensures FirstMarker(block, 0) == i
  {
    OneMarkerLength(block[i..], n);
    forall k | 0 <= k < i
      ensures OpenMarker(block[k..]) == 0
    {
      OpenMarkerMeans(block[k..]);
    }
  }

  /** A block ends up within its budget exactly when its marker overhead does, or nothing had to be cut. */
  lemma WithinCapIff(block: string, cap: nat)
    ensures |Truncated(block, cap)| <= cap <==>
            |block| <= cap || Split(block).None? || Split(block).value.Overhead() <= cap
    ensures |block| > cap && |Truncated(block, cap)| <= cap ==> |Truncated(block, cap)| == cap
  {
    TruncatedLength(block, cap);
  }

  // ---- the whole prompt ----

  /** One text per name. */
  type Pieces = map<Name, string>

  function PieceOf(pieces: Pieces, name: Name): string {
    if name in pieces then pieces[name] else ""
  }

  /** The pieces one after the other, in the order of the names. */
  function Join(pieces: Pieces, names: seq<Name>): string {
    if names == [] then ""
    else Join(pieces, names[..|names| - 1]) + PieceOf(pieces, names[|names| - 1])
  }

  /** Every block within its own budget. */
  function Fitted(blocks: Pieces, names: seq<Name>): Pieces {
    map name | name in names :: Truncated(PieceOf(blocks, name), Budget(name))
  }

  /** While the total is too long, one block gives up what it can: all of it, or down to what the total allows. */
  function CutOne(pieces: Pieces, names: seq<Name>, name: Name): Pieces {
    var piece := PieceOf(pieces, name);
    var total := |Join(pieces, names)|;
    if total <= TOTAL_BUDGET || piece == "" then pieces
    else
      var excess := total - TOTAL_BUDGET;
      pieces[name := if |piece| <= excess then "" else Truncated(piece, |piece| - excess)]
  }

  function BackCut(pieces: Pieces, names: seq<Name>, cuts: seq<Name>): Pieces {
    if cuts == [] then pieces
    else CutOne(BackCut(pieces, names, cuts[..|cuts| - 1]), names, cuts[|cuts| - 1])
  }

  /** The blocks that have a part, in order: empty blocks contribute none. */
  function Present(blocks: Pieces, names: seq<Name>): seq<Name> {
    if names == [] then []
    else
      var last := names[|names| - 1];
      Present(blocks, names[..|names| - 1]) + if PieceOf(blocks, last) == "" then [] else [last]
  }

  function Concat(parts: seq<string>): string {
    if parts == [] then "" else Concat(parts[..|parts| - 1]) + parts[|parts| - 1]
  }

  lemma {:induction false} ConcatUpdate(parts: seq<string>, k: nat, piece: string)
    requires k < |parts|
    ensures |Concat(parts[k := piece])| == |Concat(parts)| - |parts[k]| + |piece|
    decreases |parts|
  {
    var more := parts[k := piece];
    if k == |parts| - 1 {
      assert more[..k] == parts[..k];
    } else {
      ConcatUpdate(parts[..|parts| - 1], k, piece);
      assert more[..|more| - 1] == parts[..|parts| - 1][k := piece];
    }
  }

  lemma {:induction false} PresentMembers(blocks: Pieces, names: seq<Name>)
    ensures forall name :: name in Present(blocks, names) <==> name in names && PieceOf(blocks, name) != ""
    ensures (forall i, j | 0 <= i < j < |names| :: names[i] != names[j]) ==>
              forall i, j | 0 <= i < j < |Present(blocks, names)| ::
                Present(blocks, names)[i] != Present(blocks, names)[j]
  {
    if names != [] {
      PresentMembers(blocks, names[..|names| - 1]);
      assert names == names[..|names| - 1] + [names[|names| - 1]];
    }
  }

  /** Leaving out names without text changes nothing. */
  lemma {:induction false} JoinPresent(blocks: Pieces, pieces: Pieces, names: seq<Name>)
    requires forall name | name in names && PieceOf(blocks, name) == "" :: PieceOf(pieces, name) == ""
    ensures Join(pieces, Present(blocks, names)) == Join(pieces, names)
  {
    if names != [] {
      var front, last := names[..|names| - 1], names[|names| - 1];
      JoinPresent(blocks, pieces, front);
      assert last in names && forall name | name in front :: name in names;
      if PieceOf(blocks, last) != "" {
        assert Present(blocks, names)[..|Present(blocks, names)| - 1] == Present(blocks, front);
      } else {
        assert Present(blocks, names) == Present(blocks, front);
        assert Join(pieces, front) + "" == Join(pieces, front);
      }
    }
  }

  lemma {:induction false} JoinIsConcat(pieces: Pieces, names: seq<Name>, parts: seq<string>)
    requires |names| == |parts| && forall k | 0 <= k < |names| :: parts[k] == PieceOf(pieces, names[k])
    ensures Join(pieces, names) == Concat(parts)
  {
    if names != [] {
      JoinIsConcat(pieces, names[..|names| - 1], parts[..|parts| - 1]);
    }
  }

  function SumOf(perBlock: map<Name, nat>, names: seq<Name>): nat {
    if names == [] then 0
    else
      var last := names[|names| - 1];
      SumOf(perBlock, names[..|names| - 1]) + if last in perBlock then perBlock[last] else 0
  }

  lemma {:induction false} JoinLength(pieces: Pieces, perBlock: map<Name, nat>, names: seq<Name>)
    requires forall name | name in names :: name in perBlock && perBlock[name] == |PieceOf(pieces, name)|
    ensures |Join(pieces, names)| == SumOf(perBlock, names)
  {
    if names != [] {
      JoinLength(pieces, perBlock, names[..|names| - 1]);
    }
  }

  ghost predicate Distinct(names: seq<Name>) {
    forall i, j | 0 <= i < j < |names| :: names[i] != names[j]
  }

  /** The parts list holds the pieces of these names, and the index map finds each one. */
  ghost predicate PartsOf(present: seq<Name>, pieces: Pieces, parts: seq<string>, partIndex: map<Name, nat>) {
    && |parts| == |present|
    && (forall k | 0 <= k < |present| ::
          parts[k] == PieceOf(pieces, present[k]) && present[k] in partIndex && partIndex[present[k]] == k)
    && (forall name | name in partIndex :: partIndex[name] < |present| && present[partIndex[name]] == name)
  }

  ghost predicate SizesOf(names: seq<Name>, pieces: Pieces, perBlock: map<Name, nat>) {
    forall name | name in names :: name in perBlock && perBlock[name] == |PieceOf(pieces, name)|
  }

  /** A block that came in empty stays empty. */
  ghost predicate EmptyStays(blocks: Pieces, names: seq<Name>, pieces: Pieces) {
    forall name | name in names && PieceOf(blocks, name) == "" :: PieceOf(pieces, name) == ""
  }

  /** What the first pass and the back-cut maintain about their variables. */
  ghost predicate Tracks(blocks: Pieces, names: seq<Name>, pieces: Pieces, parts: seq<string>,
                         partIndex: map<Name, nat>, perBlock: map<Name, nat>, total: nat)
  {
    && PartsOf(Present(blocks, names), pieces, parts, partIndex)
    && SizesOf(names, pieces, perBlock)
    && EmptyStays(blocks, names, pieces)
    && total == |Concat(parts)|
  }

  lemma PresentMore(blocks: Pieces, names: seq<Name>, name: Name)
    ensures Present(blocks, names + [name]) ==
            Present(blocks, names) + if PieceOf(blocks, name) == "" then [] else [name]
  {
    assert (names + [name])[..|names|] == names;
  }

  lemma TracksEmpty(blocks: Pieces, names: seq<Name>, name: Name, pieces: Pieces, parts: seq<string>,
                    partIndex: map<Name, nat>, perBlock: map<Name, nat>, total: nat)
    requires Tracks(blocks, names, pieces, parts, partIndex, perBlock, total)
    requires name !in names && PieceOf(blocks, name) == "" && PieceOf(pieces, name) == ""
    ensures Tracks(blocks, names + [name], pieces, parts, partIndex, perBlock[name := 0], total)
  {
    PresentMore(blocks, names, name);
    assert Present(blocks, names + [name]) == Present(blocks, names);
    SizesAppend(blocks, names, name, pieces, perBlock);
  }

  lemma TracksPart(blocks: Pieces, names: seq<Name>, name: Name, pieces: Pieces, parts: seq<string>,
                   partIndex: map<Name, nat>, perBlock: map<Name, nat>, total: nat)
    requires Tracks(blocks, names, pieces, parts, partIndex, perBlock, total)
    requires name !in names && PieceOf(blocks, name) != ""
    ensures var piece := PieceOf(pieces, name);
            Tracks(blocks, names + [name], pieces, parts + [piece], partIndex[name := |parts|],
                   perBlock[name := |piece|], total + |piece|)
  {
    PresentMore(blocks, names, name);
    PresentMembers(blocks, names);
    PartsAppend(Present(blocks, names), name, pieces, parts, partIndex);
    SizesAppend(blocks, names, name, pieces, perBlock);
    ConcatAppend(parts, PieceOf(pieces, name));
  }

  lemma ConcatAppend(parts: seq<string>, piece: string)
    ensures Concat(parts + [piece]) == Concat(parts) + piece
  {
    assert (parts + [piece])[..|parts|] == parts;
  }

  lemma SizesAppend(blocks: Pieces, names: seq<Name>, name: Name, pieces: Pieces, perBlock: map<Name, nat>)
    requires SizesOf(names, pieces, perBlock) && EmptyStays(blocks, names, pieces)
    requires PieceOf(blocks, name) == "" ==> PieceOf(pieces, name) == ""
    ensures SizesOf(names + [name], pieces, perBlock[name := |PieceOf(pieces, name)|])
    ensures EmptyStays(blocks, names + [name], pieces)
  {
  }

  lemma PartsAppend(present: seq<Name>, name: Name, pieces: Pieces, parts: seq<string>, partIndex: map<Name, nat>)
    requires PartsOf(present, pieces, parts, partIndex) && name !in present
    ensures PartsOf(present + [name], pieces, parts + [PieceOf(pieces, name)], partIndex[name := |parts|])
  {
    forall other | other in partIndex
      ensures other != name
    {
      assert present[partIndex[other]] in present;
    }
    assert forall k | 0 <= k < |present| :: present[k] in present;
  }

  /** The index map leads to the part of a name, and its size is recorded. */
  lemma PartFound(blocks: Pieces, names: seq<Name>, pieces: Pieces, parts: seq<string>,
                  partIndex: map<Name, nat>, perBlock: map<Name, nat>, total: nat, name: Name)
    requires Tracks(blocks, names, pieces, parts, partIndex, perBlock, total) && name in partIndex
    ensures name in names && PieceOf(blocks, name) != ""
    ensures partIndex[name] < |parts| && parts[partIndex[name]] == PieceOf(pieces, name)
    ensures name in perBlock && perBlock[name] == |PieceOf(pieces, name)| <= total
  {
    PresentMembers(blocks, names);
    assert name in Present(blocks, names);
    ConcatUpdate(parts, partIndex[name], "");
  }

  /** Replacing one part keeps track of it everywhere. */
  lemma TracksUpdate(blocks: Pieces, names: seq<Name>, pieces: Pieces, parts: seq<string>,
                     partIndex: map<Name, nat>, perBlock: map<Name, nat>, total: nat, name: Name, piece: string)
    requires Tracks(blocks, names, pieces, parts, partIndex, perBlock, total) && name in partIndex
    requires partIndex[name] < |parts| && parts[partIndex[name]] == PieceOf(pieces, name)
    requires PieceOf(blocks, name) != "" && |PieceOf(pieces, name)| <= total
    ensures Tracks(blocks, names, pieces[name := piece], parts[partIndex[name] := piece], partIndex,
                   perBlock[name := |piece|], total - |PieceOf(pieces, name)| + |piece|)
  {
    ConcatUpdate(parts, partIndex[name], piece);
    PartsReplace(Present(blocks, names), pieces, parts, partIndex, name, piece);
    assert SizesOf(names, pieces[name := piece], perBlock[name := |piece|]);
    assert EmptyStays(blocks, names, pieces[name := piece]);
  }

  lemma PartsReplace(present: seq<Name>, pieces: Pieces, parts: seq<string>, partIndex: map<Name, nat>,
                     name: Name, piece: string)
    requires PartsOf(present, pieces, parts, partIndex) && name in partIndex
    ensures PartsOf(present, pieces[name := piece], parts[partIndex[name] := piece], partIndex)
  {
    forall k | 0 <= k < |present|
      ensures present[k] == name <==> k == partIndex[name]
    {
    }
  }

  lemma TracksJoin(blocks: Pieces, names: seq<Name>, pieces: Pieces, parts: seq<string>,
                   partIndex: map<Name, nat>, perBlock: map<Name, nat>, total: nat)
    requires Tracks(blocks, names, pieces, parts, partIndex, perBlock, total)
    ensures Concat(parts) == Join(pieces, names) && total == |Join(pieces, names)| == SumOf(perBlock, names)
  {
    JoinPresent(blocks, pieces, names);
    JoinIsConcat(pieces, Present(blocks, names), parts);
    JoinLength(pieces, perBlock, names);
  }

  predicate OverBudget(blocks: Pieces, name: Name) {
    |PieceOf(blocks, name)| > Budget(name)
  }

  method FitBlock(blocks: Pieces, name: Name) returns (block: string)
    ensures block == Truncated(PieceOf(blocks, name), Budget(name))
  {
    block := PieceOf(blocks, name);
    if |block| > Budget(name) {
      block := TruncateKeepingMarkers(block, Budget(name));
    }
  }

  /** One step of the first pass. */
  method AddBlock(blocks: Pieces, ghost done: seq<Name>, name: Name, ghost pieces: Pieces, parts: seq<string>,
                  partIndex: map<Name, nat>, perBlock: map<Name, nat>, total: nat)
    returns (parts': seq<string>, partIndex': map<Name, nat>, perBlock': map<Name, nat>, total': nat)
    requires Tracks(blocks, done, pieces, parts, partIndex, perBlock, total) && name !in done
    requires PieceOf(pieces, name) == Truncated(PieceOf(blocks, name), Budget(name))
    ensures Tracks(blocks, done + [name], pieces, parts', partIndex', perBlock', total')
  {
    if PieceOf(blocks, name) == "" {
      TracksEmpty(blocks, done, name, pieces, parts, partIndex, perBlock, total);
      return parts, partIndex, perBlock[name := 0], total;
    }
    var block := FitBlock(blocks, name);
    TracksPart(blocks, done, name, pieces, parts, partIndex, perBlock, total);
    return parts + [block], partIndex[name := |parts|], perBlock[name := |block|], total + |block|;
  }

  /** The first pass: every block is fitted into its own budget. */
  method FitBlocks(blocks: Pieces, names: seq<Name>)
    returns (parts: seq<string>, partIndex: map<Name, nat>, perBlock: map<Name, nat>, truncated: seq<Name>, total: nat)
    requires Distinct(names)
    ensures Tracks(blocks, names, Fitted(blocks, names), parts, partIndex, perBlock, total)
    ensures forall name :: name in truncated <==> name in names && OverBudget(blocks, name)
  {
    parts, partIndex, perBlock, truncated, total := [], map[], map[], [], 0;
    for i := 0 to |names|
      invariant Tracks(blocks, names[..i], Fitted(blocks, names), parts, partIndex, perBlock, total)
      invariant forall name :: name in truncated <==> name in names[..i] && OverBudget(blocks, name)
    {
      assert names[..i + 1] == names[..i] + [names[i]] && names[i] !in names[..i];
      if OverBudget(blocks, names[i]) {
        truncated := truncated + [names[i]];
      }
      parts, partIndex, perBlock, total :=
        AddBlock(blocks, names[..i], names[i], Fitted(blocks, names), parts, partIndex, perBlock, total);
    }
    assert names[..|names|] == names;
  }

  /** One step of the back-cut. */
  method CutBlock(ghost blocks: Pieces, ghost names: seq<Name>, ghost pieces: Pieces, name: Name, parts: seq<string>,
                  partIndex: map<Name, nat>, perBlock: map<Name, nat>, total: nat)
    returns (parts': seq<string>, perBlock': map<Name, nat>, total': nat, cut: bool)
    requires Tracks(blocks, names, pieces, parts, partIndex, perBlock, total) && name in names
    ensures Tracks(blocks, names, CutOne(pieces, names, name), parts', partIndex, perBlock', total')
    ensures cut <==> |Join(pieces, names)| > TOTAL_BUDGET && PieceOf(pieces, name) != ""
  {
    TracksJoin(blocks, names, pieces, parts, partIndex, perBlock, total);
    if total <= TOTAL_BUDGET || name !in partIndex || perBlock[name] == 0 {
      if total > TOTAL_BUDGET {
        AbsentIsEmpty(blocks, names, pieces, parts, partIndex, perBlock, total, name);
      }
      return parts, perBlock, total, false;
    }
    PartFound(blocks, names, pieces, parts, partIndex, perBlock, total, name);
    parts', perBlock', total' := Reduce(blocks, names, pieces, name, parts, partIndex, perBlock, total);
    cut := true;
  }

  method Reduce(ghost blocks: Pieces, ghost names: seq<Name>, ghost pieces: Pieces, name: Name, parts: seq<string>,
                partIndex: map<Name, nat>, perBlock: map<Name, nat>, total: nat)
    returns (parts': seq<string>, perBlock': map<Name, nat>, total': nat)
    requires Tracks(blocks, names, pieces, parts, partIndex, perBlock, total)
    requires total == |Join(pieces, names)| > TOTAL_BUDGET && name in partIndex && PieceOf(pieces, name) != ""
    ensures Tracks(blocks, names, CutOne(pieces, names, name), parts', partIndex, perBlock', total')
  {
    PartFound(blocks, names, pieces, parts, partIndex, perBlock, total, name);
    var idx, currentLen, excess := partIndex[name], perBlock[name], total - TOTAL_BUDGET;
    var reduced := "";
    if currentLen > excess {
      reduced := TruncateKeepingMarkers(parts[idx], currentLen - excess);
    }
    TracksUpdate(blocks, names, pieces, parts, partIndex, perBlock, total, name, reduced);
    return parts[idx := reduced], perBlock[name := |reduced|], total - currentLen + |reduced|;
  }

  lemma AbsentIsEmpty(blocks: Pieces, names: seq<Name>, pieces: Pieces, parts: seq<string>, partIndex: map<Name, nat>,
                      perBlock: map<Name, nat>, total: nat, name: Name)
    requires Tracks(blocks, names, pieces, parts, partIndex, perBlock, total) && name in names
    requires name !in partIndex || perBlock[name] == 0
    ensures PieceOf(pieces, name) == ""
  {
    PresentMembers(blocks, names);
    if name !in partIndex {
      assert name !in Present(blocks, names);
    }
  }

  lemma BlockOrderIsComplete()
    ensures Distinct(BLOCK_ORDER) && forall name: Name :: name in BLOCK_ORDER
  {
    forall name: Name
      ensures name in BLOCK_ORDER
    {
      match name
      case SystemRules => assert BLOCK_ORDER[0] == name;
      case Env => assert BLOCK_ORDER[1] == name;
      case WorkspaceMap => assert BLOCK_ORDER[2] == name;
      case Persona => assert BLOCK_ORDER[3] == name;
      case Policy => assert BLOCK_ORDER[4] == name;
      case Skills => assert BLOCK_ORDER[5] == name;
      case Vector => assert BLOCK_ORDER[6] == name;
      case Sessions => assert BLOCK_ORDER[7] == name;
      case Memory => assert BLOCK_ORDER[8] == name;
    }
  }

  /** Adds the names that are not listed yet. */
  method Merge(names: seq<Name>, more: seq<Name>) returns (all: seq<Name>)
    ensures forall name :: name in all <==> name in names || name in more
  {
    all := names;
    for k := 0 to |more|
      invariant forall name :: name in all <==> name in names || name in more[..k]
    {
      assert more[..k + 1] == more[..k] + [more[k]];
      if more[k] !in all {
        all := all + [more[k]];
      }
    }
    assert more[..|more|] == more;
  }

  /** What the prompt is made of in the end. */
  function FinalPieces(blocks: Pieces): Pieces {
    BackCut(Fitted(blocks, BLOCK_ORDER), BLOCK_ORDER, BACK_CUT_ORDER)
  }

  /** The blocks that the back-cut touches. */
  function CutNames(pieces: Pieces, names: seq<Name>, cuts: seq<Name>): set<Name> {
    if cuts == [] then {}
    else
      var before := BackCut(pieces, names, cuts[..|cuts| - 1]);
      var last := cuts[|cuts| - 1];
      CutNames(pieces, names, cuts[..|cuts| - 1])
      + if |Join(before, names)| > TOTAL_BUDGET && PieceOf(before, last) != "" then {last} else {}
  }

  /** The second pass: from the back, while the total is too long. */
  method CutFromBack(ghost blocks: Pieces, ghost names: seq<Name>, cuts: seq<Name>, ghost pieces: Pieces,
                     parts: seq<string>, partIndex: map<Name, nat>, perBlock: map<Name, nat>, total: nat)
    returns (parts': seq<string>, perBlock': map<Name, nat>, cut: seq<Name>)
    requires Tracks(blocks, names, pieces, parts, partIndex, perBlock, total)
    requires forall name | name in cuts :: name in names
    ensures Concat(parts') == Join(BackCut(pieces, names, cuts), names)
    ensures SizesOf(names, BackCut(pieces, names, cuts), perBlock')
    ensures |Concat(parts')| == SumOf(perBlock', names)
    ensures forall name :: name in cut <==> name in CutNames(pieces, names, cuts)
  {
    var left: nat := total;
    parts', perBlock', cut := parts, perBlock, [];
    for j := 0 to |cuts|
      invariant Tracks(blocks, names, BackCut(pieces, names, cuts[..j]), parts', partIndex, perBlock', left)
      invariant forall name :: name in cut <==> name in CutNames(pieces, names, cuts[..j])
    {
      assert cuts[..j + 1][..j] == cuts[..j];
      var touched;
      parts', perBlock', left, touched :=
        CutBlock(blocks, names, BackCut(pieces, names, cuts[..j]), cuts[j], parts', partIndex, perBlock', left);
      if touched {
        cut := cut + [cuts[j]];
      }
    }
    assert cuts[..|cuts|] == cuts;
    TracksJoin(blocks, names, BackCut(pieces, names, cuts), parts', partIndex, perBlock', left);
  }

  /**
   The assembled prompt: the fitted blocks in order, cut from the back only while they exceed the total.
   Whatever the blocks hold, the reported sizes add up to the length of the prompt.
   */
  method BuildContext(blocks: Pieces)
    returns (prompt: string, perBlock: map<Name, nat>, truncated: seq<Name>)
    ensures prompt == Join(FinalPieces(blocks), BLOCK_ORDER)
    ensures SizesOf(BLOCK_ORDER, FinalPieces(blocks), perBlock)
    ensures |prompt| == SumOf(perBlock, BLOCK_ORDER)
    ensures forall name :: name in truncated <==>
              OverBudget(blocks, name)
              || name in CutNames(Fitted(blocks, BLOCK_ORDER), BLOCK_ORDER, BACK_CUT_ORDER)
  {
    BlockOrderIsComplete();
    var parts, partIndex, total;
    parts, partIndex, perBlock, truncated, total := FitBlocks(blocks, BLOCK_ORDER);
    var cut;
    parts, perBlock, cut := CutFromBack(blocks, BLOCK_ORDER, BACK_CUT_ORDER, Fitted(blocks, BLOCK_ORDER),
                                        parts, partIndex, perBlock, total);
    prompt := Concat(parts);
    truncated := Merge(truncated, cut);
  }

  // ---- when the marker overheads fit ----

  /** No marker overhead is more than its block's budget, unless the block needs no cutting. */
  predicate OverheadsFit(blocks: Pieces, names: seq<Name>) {
    forall name | name in names ::
      var block := PieceOf(blocks, name);
      |block| > Budget(name) && Split(block).Some? ==> Split(block).value.Overhead() <= Budget(name)
  }

  function BudgetSum(names: seq<Name>): nat {
    if names == [] then 0 else BudgetSum(names[..|names| - 1]) + Budget(names[|names| - 1])
  }

  lemma {:induction false} FittedWithinBudgets(blocks: Pieces, all: seq<Name>, names: seq<Name>)
    requires OverheadsFit(blocks, all) && forall name | name in names :: name in all
    ensures |Join(Fitted(blocks, all), names)| <= BudgetSum(names)
  {
    if names != [] {
      var last := names[|names| - 1];
      assert last in all && forall name | name in names[..|names| - 1] :: name in names;
      FittedWithinBudgets(blocks, all, names[..|names| - 1]);
      WithinCapIff(PieceOf(blocks, last), Budget(last));
    }
  }

  lemma BudgetsAddUp()
    ensures BudgetSum(BLOCK_ORDER) == TOTAL_BUDGET == 18100
  {
    assert BudgetSum(BLOCK_ORDER[..1]) == 2500 && BLOCK_ORDER[..2][..1] == BLOCK_ORDER[..1];
    assert BudgetSum(BLOCK_ORDER[..2]) == 4000 && BLOCK_ORDER[..3][..2] == BLOCK_ORDER[..2];
    assert BudgetSum(BLOCK_ORDER[..3]) == 6000 && BLOCK_ORDER[..4][..3] == BLOCK_ORDER[..3];
    assert BudgetSum(BLOCK_ORDER[..4]) == 6800 && BLOCK_ORDER[..5][..4] == BLOCK_ORDER[..4];
    assert BudgetSum(BLOCK_ORDER[..5]) == 7800 && BLOCK_ORDER[..6][..5] == BLOCK_ORDER[..5];
    assert BudgetSum(BLOCK_ORDER[..6]) == 9300 && BLOCK_ORDER[..7][..6] == BLOCK_ORDER[..6];
    assert BudgetSum(BLOCK_ORDER[..7]) == 11100 && BLOCK_ORDER[..8][..7] == BLOCK_ORDER[..7];
    assert BudgetSum(BLOCK_ORDER[..8]) == 15100 && BLOCK_ORDER[..9][..8] == BLOCK_ORDER[..8];
    assert BLOCK_ORDER[..9] == BLOCK_ORDER;
  }

  lemma {:induction false} NothingToCut(pieces: Pieces, names: seq<Name>, cuts: seq<Name>)
    requires |Join(pieces, names)| <= TOTAL_BUDGET
    ensures BackCut(pieces, names, cuts) == pieces && CutNames(pieces, names, cuts) == {}
  {
    if cuts != [] {
      NothingToCut(pieces, names, cuts[..|cuts| - 1]);
    }
  }

  /**
   When the overheads fit, the prompt is the fitted blocks and nothing is cut from the back: it stays within the
   total, and every block that was cut has exactly its budget.
   */
  lemma FittingIsExact(blocks: Pieces)
    requires OverheadsFit(blocks, BLOCK_ORDER)
    ensures FinalPieces(blocks) == Fitted(blocks, BLOCK_ORDER)
    ensures CutNames(Fitted(blocks, BLOCK_ORDER), BLOCK_ORDER, BACK_CUT_ORDER) == {}
    ensures |Join(FinalPieces(blocks), BLOCK_ORDER)| <= TOTAL_BUDGET
    ensures forall name: Name | |PieceOf(blocks, name)| > Budget(name) ::
              |PieceOf(FinalPieces(blocks), name)| == Budget(name)
  {
    FittedWithinBudgets(blocks, BLOCK_ORDER, BLOCK_ORDER);
    BudgetsAddUp();
    NothingToCut(Fitted(blocks, BLOCK_ORDER), BLOCK_ORDER, BACK_CUT_ORDER);
    BlockOrderIsComplete();
    forall name: Name | |PieceOf(blocks, name)| > Budget(name)
      ensures |PieceOf(Fitted(blocks, BLOCK_ORDER), name)| == Budget(name)
    {
      assert name in BLOCK_ORDER;
      WithinCapIff(PieceOf(blocks, name), Budget(name));
    }
  }

  // ---- when the total is met after all ----

  /** What the other blocks leave for one of them, below zero when they are already too long. */
  function Room(pieces: Pieces, names: seq<Name>, name: Name): int {
    TOTAL_BUDGET - (|Join(pieces, names)| - |PieceOf(pieces, name)|)
  }

  /** Cutting this block brings the prompt down to the total: dropped it fills no room, shortened its markers fit in. */
  predicate CutSuffices(pieces: Pieces, names: seq<Name>, name: Name) {
    var piece, room := PieceOf(pieces, name), Room(pieces, names, name);
    piece != "" && room >= 0 && (room == 0 || Split(piece).None? || Split(piece).value.Overhead() <= room)
  }

  lemma {:induction false} JoinUpdate(pieces: Pieces, names: seq<Name>, name: Name, piece: string)
    requires Distinct(names)
    ensures |Join(pieces[name := piece], names)| ==
            |Join(pieces, names)| + if name in names then |piece| - |PieceOf(pieces, name)| else 0
  {
    if names != [] {
      var front, last := names[..|names| - 1], names[|names| - 1];
      JoinUpdate(pieces, front, name, piece);
      assert name in names <==> name == last || name in front;
      assert last !in front;
    }
  }

  /** One cut brings a prompt over the total down to it, or it does not, by what its markers need. */
  lemma CutFitsIff(pieces: Pieces, names: seq<Name>, name: Name)
    requires Distinct(names) && name in names && |Join(pieces, names)| > TOTAL_BUDGET
    ensures |Join(CutOne(pieces, names, name), names)| <= TOTAL_BUDGET <==> CutSuffices(pieces, names, name)
  {
    var piece, room := PieceOf(pieces, name), Room(pieces, names, name);
    if piece != "" {
      CutOneMeans(pieces, names, name);
      if room > 0 {
        TruncatedLength(piece, room);
        JoinUpdate(pieces, names, name, Truncated(piece, room));
      } else {
        JoinUpdate(pieces, names, name, "");
      }
    }
  }

  /** Some cut of the list suffices at its turn. */
  predicate SomeCutSuffices(pieces: Pieces, names: seq<Name>, cuts: seq<Name>) {
    cuts != [] &&
    (var front, last := cuts[..|cuts| - 1], cuts[|cuts| - 1];
     SomeCutSuffices(pieces, names, front) || CutSuffices(BackCut(pieces, names, front), names, last))
  }

  lemma {:induction false} BackCutFitsIff(pieces: Pieces, names: seq<Name>, cuts: seq<Name>)
    requires Distinct(names) && |Join(pieces, names)| > TOTAL_BUDGET && forall name | name in cuts :: name in names
    ensures |Join(BackCut(pieces, names, cuts), names)| <= TOTAL_BUDGET <==> SomeCutSuffices(pieces, names, cuts)
  {
    if cuts != [] {
      var front, last := cuts[..|cuts| - 1], cuts[|cuts| - 1];
      assert last in cuts && forall name | name in front :: name in cuts;
      BackCutFitsIff(pieces, names, front);
      var cut := BackCut(pieces, names, front);
      if |Join(cut, names)| > TOTAL_BUDGET {
        CutFitsIff(cut, names, last);
      } else {
        assert CutOne(cut, names, last) == cut;
      }
    }
  }

  /**
   For every input: the prompt stays within the total exactly when the fitted blocks do, or one of the cuts from the
   back has room for what its markers need.
   */
  lemma PromptFitsIff(blocks: Pieces)
    ensures var fitted := Fitted(blocks, BLOCK_ORDER);
            |Join(FinalPieces(blocks), BLOCK_ORDER)| <= TOTAL_BUDGET <==>
            |Join(fitted, BLOCK_ORDER)| <= TOTAL_BUDGET || SomeCutSuffices(fitted, BLOCK_ORDER, BACK_CUT_ORDER)
  {
    BlockOrderIsComplete();
    var fitted := Fitted(blocks, BLOCK_ORDER);
    if |Join(fitted, BLOCK_ORDER)| <= TOTAL_BUDGET {
      NothingToCut(fitted, BLOCK_ORDER, BACK_CUT_ORDER);
    } else {
      BackCutFitsIff(fitted, BLOCK_ORDER, BACK_CUT_ORDER);
    }
  }

  lemma {:induction false} BackCutKeeps(pieces: Pieces, names: seq<Name>, cuts: seq<Name>, name: Name)
    requires name !in cuts
    ensures PieceOf(BackCut(pieces, names, cuts), name) == PieceOf(pieces, name)
  {
    if cuts != [] {
      assert cuts[|cuts| - 1] in cuts;
      BackCutKeeps(pieces, names, cuts[..|cuts| - 1], name);
    }
  }

  lemma {:induction false} JoinHoldsPiece(pieces: Pieces, names: seq<Name>, name: Name)
    requires name in names
    ensures |PieceOf(pieces, name)| <= |Join(pieces, names)|
  {
    if name != names[|names| - 1] {
      JoinHoldsPiece(pieces, names[..|names| - 1], name);
    }
  }

  // ---- what is cut first ----

  /** The prompt is the texts of its blocks, one after the other. */
  lemma {:induction false} JoinIsPiecewise(pieces: Pieces, a: seq<Name>, b: seq<Name>)
    ensures Join(pieces, a + b) == Join(pieces, a) + Join(pieces, b)
    ensures |a| == 1 ==> Join(pieces, a) == PieceOf(pieces, a[0])
    decreases |b|
  {
    if |a| == 1 {
      assert Join(pieces, a) == Join(pieces, a[..0]) + PieceOf(pieces, a[0]);
    }
    if b == [] {
      assert a + b == a;
    } else {
      var front, last := b[..|b| - 1], b[|b| - 1];
      JoinIsPiecewise(pieces, a, front);
      assert (a + b)[..|a + b| - 1] == a + front;
      Associate(Join(pieces, a), Join(pieces, front), PieceOf(pieces, last));
    }
  }

  lemma CutDrops(pieces: Pieces, names: seq<Name>, name: Name)
    requires |Join(pieces, names)| > TOTAL_BUDGET && PieceOf(pieces, name) != "" && Room(pieces, names, name) <= 0
    ensures CutOne(pieces, names, name) == pieces[name := ""]
  {
  }

  lemma CutShortens(pieces: Pieces, names: seq<Name>, name: Name, room: nat)
    requires |Join(pieces, names)| > TOTAL_BUDGET && PieceOf(pieces, name) != ""
    requires room == Room(pieces, names, name) > 0
    ensures CutOne(pieces, names, name) == pieces[name := Truncated(PieceOf(pieces, name), room)]
  {
    assert |PieceOf(pieces, name)| - (|Join(pieces, names)| - TOTAL_BUDGET) == room;
  }

  /** A block gives up what the total demands: all of it when the others fill the total, else down to their room. */
  lemma CutOneMeans(pieces: Pieces, names: seq<Name>, name: Name)
    requires |Join(pieces, names)| > TOTAL_BUDGET && PieceOf(pieces, name) != ""
    ensures var room := Room(pieces, names, name);
            CutOne(pieces, names, name) ==
            pieces[name := if room <= 0 then "" else Truncated(PieceOf(pieces, name), room)]
  {
    var room := Room(pieces, names, name);
    if room <= 0 {
      CutDrops(pieces, names, name);
    } else {
      CutShortens(pieces, names, name, room);
    }
  }

  /** A cut that has room to spare leaves exactly the total. */
  lemma CutIsTight(pieces: Pieces, names: seq<Name>, name: Name)
    requires Distinct(names) && name in names && |Join(pieces, names)| > TOTAL_BUDGET
    requires CutSuffices(pieces, names, name)
    ensures |Join(CutOne(pieces, names, name), names)| == TOTAL_BUDGET
  {
    CutOneMeans(pieces, names, name);
    var piece, room := PieceOf(pieces, name), Room(pieces, names, name);
    TruncatedLength(piece, if room <= 0 then 0 else room);
    JoinUpdate(pieces, names, name, if room <= 0 then "" else Truncated(piece, room));
  }

  lemma ThreeCuts(pieces: Pieces, names: seq<Name>)
    ensures BackCut(pieces, names, BACK_CUT_ORDER) ==
            CutOne(CutOne(CutOne(pieces, names, Memory), names, Sessions), names, Vector)
  {
    assert BACK_CUT_ORDER[..2][..1] == [Memory] && BACK_CUT_ORDER[..2] == [Memory, Sessions];
    assert [Memory][..0] == [] && [Memory, Sessions][..1] == [Memory];
    assert BackCut(pieces, names, [Memory]) == CutOne(BackCut(pieces, names, []), names, Memory);
  }

  lemma CutOneTouches(pieces: Pieces, names: seq<Name>, name: Name)
    ensures |Join(pieces, names)| <= TOTAL_BUDGET ==> CutOne(pieces, names, name) == pieces
    ensures forall other: Name | other != name :: PieceOf(CutOne(pieces, names, name), other) == PieceOf(pieces, other)
  {
  }

  /** Memory goes first, then sessions, then vector, each only if the prompt is still too long; nothing else is cut. */
  lemma LeastImportantGoesFirst(blocks: Pieces)
    ensures var fitted := Fitted(blocks, BLOCK_ORDER);
            var one := CutOne(fitted, BLOCK_ORDER, Memory);
            var two := CutOne(one, BLOCK_ORDER, Sessions);
            var end := FinalPieces(blocks);
            && (PieceOf(end, Memory) != PieceOf(fitted, Memory) ==> |Join(fitted, BLOCK_ORDER)| > TOTAL_BUDGET)
            && (PieceOf(end, Sessions) != PieceOf(fitted, Sessions) ==> |Join(one, BLOCK_ORDER)| > TOTAL_BUDGET)
            && (PieceOf(end, Vector) != PieceOf(fitted, Vector) ==> |Join(two, BLOCK_ORDER)| > TOTAL_BUDGET)
            && (forall name: Name | name !in {Memory, Sessions, Vector} :: PieceOf(end, name) == PieceOf(fitted, name))
  {
    ThreeCuts(Fitted(blocks, BLOCK_ORDER), BLOCK_ORDER);
    ThreeCutsTouch(Fitted(blocks, BLOCK_ORDER), BLOCK_ORDER);
  }

  lemma ThreeCutsTouch(pieces: Pieces, names: seq<Name>)
    ensures var one := CutOne(pieces, names, Memory);
            var two := CutOne(one, names, Sessions);
            var end := CutOne(two, names, Vector);
            && (PieceOf(end, Memory) != PieceOf(pieces, Memory) ==> |Join(pieces, names)| > TOTAL_BUDGET)
            && (PieceOf(end, Sessions) != PieceOf(pieces, Sessions) ==> |Join(one, names)| > TOTAL_BUDGET)
            && (PieceOf(end, Vector) != PieceOf(pieces, Vector) ==> |Join(two, names)| > TOTAL_BUDGET)
            && (forall name: Name | name !in {Memory, Sessions, Vector} :: PieceOf(end, name) == PieceOf(pieces, name))
  {
    var one := CutOne(pieces, names, Memory);
    CutOneTouches(pieces, names, Memory);
    CutOneTouches(one, names, Sessions);
    CutOneTouches(CutOne(one, names, Sessions), names, Vector);
  }

  lemma CutOneReports(pieces: Pieces, names: seq<Name>, cut: Name, name: Name)
    ensures PieceOf(CutOne(pieces, names, cut), name) != PieceOf(pieces, name) ==>
              name == cut && |Join(pieces, names)| > 18100 && PieceOf(pieces, cut) != ""
  {
  }

  lemma {:induction false} BackCutReports(pieces: Pieces, names: seq<Name>, cuts: seq<Name>, name: Name)
    ensures PieceOf(BackCut(pieces, names, cuts), name) != PieceOf(pieces, name) ==>
              name in CutNames(pieces, names, cuts)
    ensures name in CutNames(pieces, names, cuts) ==>
              name in cuts && PieceOf(pieces, name) != "" && |Join(pieces, names)| > 18100
  {
    if cuts != [] {
      var front, last := cuts[..|cuts| - 1], cuts[|cuts| - 1];
      BackCutReports(pieces, names, front, name);
      CutOneReports(BackCut(pieces, names, front), names, last, name);
      if |Join(pieces, names)| <= TOTAL_BUDGET {
        NothingToCut(pieces, names, front);
      }
    }
  }

  /** A block that the cuts from the back change is among those reported; no block but these three ever is. */
  lemma CutsAreReported(blocks: Pieces, name: Name)
    ensures var fitted := Fitted(blocks, BLOCK_ORDER);
            var cut := CutNames(fitted, BLOCK_ORDER, BACK_CUT_ORDER);
            && (PieceOf(FinalPieces(blocks), name) != PieceOf(fitted, name) ==> name in cut)
            && (name in cut ==> name in {Memory, Sessions, Vector} && PieceOf(fitted, name) != ""
                                && |Join(fitted, BLOCK_ORDER)| > 18100)
  {
    BackCutReports(Fitted(blocks, BLOCK_ORDER), BLOCK_ORDER, BACK_CUT_ORDER, name);
  }

  /** The overhead condition is needed: markers alone can carry a block outside the back-cut past the total. */
  lemma OverheadCanOverflow(blocks: Pieces)
    requires |PieceOf(blocks, SystemRules)| > Budget(SystemRules) && Split(PieceOf(blocks, SystemRules)).Some?
    requires Split(PieceOf(blocks, SystemRules)).value.Overhead() > TOTAL_BUDGET
    ensures |Join(FinalPieces(blocks), BLOCK_ORDER)| > TOTAL_BUDGET
  {
    BlockOrderIsComplete();
    TruncatedLength(PieceOf(blocks, SystemRules), Budget(SystemRules));
    assert SystemRules in BLOCK_ORDER;
    BackCutKeeps(Fitted(blocks, BLOCK_ORDER), BLOCK_ORDER, BACK_CUT_ORDER, SystemRules);
    JoinHoldsPiece(FinalPieces(blocks), BLOCK_ORDER, SystemRules);
  }

  const OPEN_A := "<untrusted-a>"
  const CLOSE_A := "</" + OPEN_A[1..]
  const MARKERS := OPEN_A + CLOSE_A

  lemma OpenAOpens(rest: string)
    ensures OpenMarker(OPEN_A + rest) == |OPEN_A|
  {
    var block := OPEN_A + rest;
    assert block[..11] == OPENING;
    assert block[11..][0] == 'a' && block[11..][1..][0] == '>';
    assert NameRun(block[11..][1..]) == 0;
    assert NameRun(block[11..]) == 1;
  }

  lemma MarkersThenText(text: string)
    ensures var split := Split(MARKERS + text);
            split.Some? && split.value.suffix == text && split.value.Overhead() == |MARKERS| + |text|
  {
    var block := MARKERS + text;
    OpenAOpens(CLOSE_A + text);
    assert block == OPEN_A + (CLOSE_A + text) && block[0..] == block;
    assert FirstMarker(block, 0) == 0;
    assert block[1..|OPEN_A|] == OPEN_A[1..];
    assert block[|OPEN_A|..][..|CLOSE_A|] == CLOSE_A;
    assert IndexOf(block, CLOSE_A, |OPEN_A|) == |OPEN_A|;
    assert block[|MARKERS|..] == text;
  }

  /** A prompt that no cut can save: rules whose untrusted text ends at once and that go on long after it. */
  lemma LongTailOverflows(text: string)
    requires |text| > TOTAL_BUDGET
    ensures |Join(FinalPieces(map[SystemRules := MARKERS + text]), BLOCK_ORDER)| > TOTAL_BUDGET
  {
    MarkersThenText(text);
    OverheadCanOverflow(map[SystemRules := MARKERS + text]);
  }
}
