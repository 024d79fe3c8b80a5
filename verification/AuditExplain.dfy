/** The break explainer `explainChain`: what broke, where, and what the marks tell. */
module AuditExplain {
  import opened Options
  import opened AuditChain
  import opened AuditVerify

  datatype Kind = ParseKind | HashKind | ChainKind
  datatype Break = Break(index: nat, num: Option<int>, kind: Kind)
  datatype Anomaly = Anomaly(index: nat, from: int, to: int)
  datatype Verdict = TRUNCATION | REWRITE | SPLICE_COPY | UNKNOWN
  datatype SubCause =
    | PartialFinalRecord
    | DamagedRecordWithValidRecordsAfter
    | ContentHashMismatch
    | PrevPointsForward
    | ForkDuplicatePrev
    | SegmentJoinedToEarlierEntry
    | FreshHeadMidFile
    | CutMissingPredecessor
    | UnattributablePrevMismatch

  datatype Evidence =
    | ParseEvidence(lineIsLast: bool, parseableAfter: nat)
    | HashEvidence(stored: Stored, recomputed: Stored, successorsOfStored: nat)
    | ChainEvidence(expectedPrev: Stored, actualPrev: Stored, target: Option<nat>, targetSuccessors: nat,
                    abandoned: Option<nat>, abandonedIsDeadEnd: Option<bool>)

  datatype Finding = Finding(verdict: Verdict, subCause: SubCause, evidence: Evidence)

  /** `finding` is present exactly when the chain is broken. */
  datatype Explanation = Explanation(
    entries: nat, breaks: seq<Break>, seqAnomalies: seq<Anomaly>, tailSelfConsistent: bool, finding: Option<Finding>)
  {
    predicate Broken() { breaks != [] }
    function FirstBadIndex(): Option<nat> { if breaks == [] then None else Some(breaks[0].index) }
  }

  type Entry = Option<Record>

  /** Blank lines disappear; a line that is no record stays in place as a hole. */
  function Normalise(file: seq<Line>): seq<Entry> {
    if file == [] then []
    else match file[0]
      case Spaces => Normalise(file[1..])
      case Parsed(r) => [Some(r)] + Normalise(file[1..])
      case _ => [None] + Normalise(file[1..])
  }

  /** The 1-based line of the first record, among the first `n`, that carries hash `h`. */
  ghost function Owner(recs: seq<Entry>, n: nat, h: Stored): Option<nat>
    requires n <= |recs|
  {
    if n == 0 then None
    else if Owner(recs, n - 1, h).Some? then Owner(recs, n - 1, h)
    else if recs[n - 1].Some? && recs[n - 1].value.hash == h && Truthy(h) then Some(n)
    else None
  }

  /** How many of the first `n` records name `h` as their `prev`. */
  ghost function Naming(recs: seq<Entry>, n: nat, h: Stored): nat
    requires n <= |recs|
  {
    if n == 0 then 0
    else Naming(recs, n - 1, h) + if recs[n - 1].Some? && recs[n - 1].value.content.prev == h then 1 else 0
  }

  /** The hash of the nearest record before position `i`. */
  ghost function PrevSeen(recs: seq<Entry>, i: nat): Stored
    requires i <= |recs|
  {
    if i == 0 then Empty
    else if recs[i - 1].Some? then recs[i - 1].value.hash
    else PrevSeen(recs, i - 1)
  }

  /** What is wrong at position `i`, if anything. */
  ghost function BreakAt(recs: seq<Entry>, i: nat): (b: Option<Break>)
    requires i < |recs|
    ensures b.Some? ==> b.value.index == i + 1
  {
    if recs[i].None? then Some(Break(i + 1, None, ParseKind))
    else
      var c := recs[i].value.content;
      if recs[i].value.hash != Digest(c) then Some(Break(i + 1, c.num, HashKind))
      else if c.prev != PrevSeen(recs, i) then Some(Break(i + 1, c.num, ChainKind))
      else None
  }

  ghost function Breaks(recs: seq<Entry>, n: nat): seq<Break>
    requires n <= |recs|
  {
    if n == 0 then []
    else Breaks(recs, n - 1) + if BreakAt(recs, n - 1).Some? then [BreakAt(recs, n - 1).value] else []
  }

  ghost function AnomalyAt(recs: seq<Entry>, i: nat): Option<Anomaly>
    requires i < |recs|
  {
    if i > 0 && recs[i].Some? && recs[i - 1].Some? then
      match (recs[i - 1].value.content.num, recs[i].value.content.num)
      case (Some(a), Some(b)) => if b != a + 1 then Some(Anomaly(i + 1, a, b)) else None
      case _ => None
    else None
  }

  ghost function Anomalies(recs: seq<Entry>, n: nat): seq<Anomaly>
    requires n <= |recs|
  {
    if n == 0 then []
    else Anomalies(recs, n - 1) + if AnomalyAt(recs, n - 1).Some? then [AnomalyAt(recs, n - 1).value] else []
  }

  /** Every record after position `i` names the one right before it. */
  ghost predicate TailChains(recs: seq<Entry>, i: nat) {
    forall j | i < j < |recs| :: NamesPredecessor(recs, j)
  }

  ghost predicate NamesPredecessor(recs: seq<Entry>, j: nat)
    requires 0 < j < |recs|
  {
    recs[j].Some? && recs[j - 1].Some? && recs[j].value.content.prev == recs[j - 1].value.hash
  }

  ghost function RecordCount(recs: seq<Entry>): nat {
    if recs == [] then 0 else RecordCount(recs[..|recs| - 1]) + if recs[|recs| - 1].Some? then 1 else 0
  }

  /** The sub-cause of a `prev` that does not name the record before it. */
  function ChainCause(index: nat, actualPrev: Stored, target: Option<nat>, successors: nat, deadEnd: bool)
    : (Verdict, SubCause)
  {
    if target.Some? && target.value > index then (SPLICE_COPY, PrevPointsForward)
    else if target.Some? && target.value < index - 1 then
      (SPLICE_COPY, if successors > 1 && deadEnd then ForkDuplicatePrev else SegmentJoinedToEarlierEntry)
    else if actualPrev == Empty then (SPLICE_COPY, FreshHeadMidFile)
    else if target.None? then (SPLICE_COPY, CutMissingPredecessor)
    else (UNKNOWN, UnattributablePrevMismatch)
  }

  ghost function Diagnose(recs: seq<Entry>, head: Break): Finding
    requires 0 < head.index <= |recs|
    requires head.kind != ParseKind ==> recs[head.index - 1].Some?
  {
    var n := |recs|;
    match head.kind
    case ParseKind =>
      var evidence := ParseEvidence(head.index == n, RecordCount(recs[head.index..]));
      if head.index == n then Finding(TRUNCATION, PartialFinalRecord, evidence)
      else Finding(UNKNOWN, DamagedRecordWithValidRecordsAfter, evidence)
    case HashKind =>
      var r := recs[head.index - 1].value;
      Finding(REWRITE, ContentHashMismatch, HashEvidence(r.hash, Digest(r.content), Naming(recs, n, r.hash)))
    case ChainKind =>
      var actual := recs[head.index - 1].value.content.prev;
      var target := Owner(recs, n, actual);
      var back := if head.index >= 2 then recs[head.index - 2] else None;
      var successors := if target.Some? then Naming(recs, n, actual) else 0;
      var deadEnd := if back.Some? then Some(Naming(recs, n, back.value.hash) == 0) else None;
      var (verdict, cause) := ChainCause(head.index, actual, target, successors, deadEnd == Some(true));
      Finding(verdict, cause,
              ChainEvidence(PrevSeen(recs, head.index - 1), actual, target, successors,
                            if back.Some? then Some(head.index - 1) else None, deadEnd))
  }

  ghost function Explain(recs: seq<Entry>): (e: Explanation) {
    var breaks := Breaks(recs, |recs|);
    BreaksSound(recs, |recs|);
    Explanation(|recs|, breaks, Anomalies(recs, |recs|),
                breaks == [] || TailChains(recs, breaks[0].index - 1),
                if breaks == [] then None else Some(Diagnose(recs, breaks[0])))
  }

  /** The list of breaks names exactly the bad positions. */
  lemma {:induction false} BreaksSound(recs: seq<Entry>, n: nat)
    requires n <= |recs|
    ensures forall b | b in Breaks(recs, n) :: 0 < b.index <= n && BreakAt(recs, b.index - 1) == Some(b)
    ensures forall i | 0 <= i < n && BreakAt(recs, i).Some? :: BreakAt(recs, i).value in Breaks(recs, n)
  {
    if n > 0 {
      BreaksSound(recs, n - 1);
    }
  }

  /** Fills the two maps the diagnosis consults. */
  method Index(recs: seq<Entry>) returns (owner: map<Stored, nat>, successors: map<Stored, nat>)
    ensures forall h :: Lookup(owner, h) == Owner(recs, |recs|, h)
    ensures forall h :: Count(successors, h) == Naming(recs, |recs|, h)
  {
    owner, successors := map[], map[];
    for i := 0 to |recs|
      invariant forall h :: Lookup(owner, h) == Owner(recs, i, h)
      invariant forall h :: Count(successors, h) == Naming(recs, i, h)
    {
      if recs[i].Some? {
        var r := recs[i].value;
        if Truthy(r.hash) && r.hash !in owner {
          owner := owner[r.hash := i + 1];
        }
        successors := successors[r.content.prev := Count(successors, r.content.prev) + 1];
      }
    }
  }

  function Lookup(m: map<Stored, nat>, h: Stored): Option<nat> {
    if h in m then Some(m[h]) else None
  }

  function Count(m: map<Stored, nat>, h: Stored): nat {
    if h in m then m[h] else 0
  }

  /** `expected` is the hash the walk carried when it met the first break. */
  method Walk(recs: seq<Entry>) returns (breaks: seq<Break>, seqAnomalies: seq<Anomaly>, expected: Stored)
    ensures breaks == Breaks(recs, |recs|)
    ensures seqAnomalies == Anomalies(recs, |recs|)
    ensures breaks != [] ==> 0 < breaks[0].index <= |recs| && expected == PrevSeen(recs, breaks[0].index - 1)
  {
    breaks, seqAnomalies, expected := [], [], Empty;
    var prev := Empty;
    for i := 0 to |recs|
      invariant prev == PrevSeen(recs, i)
      invariant breaks == Breaks(recs, i)
      invariant seqAnomalies == Anomalies(recs, i)
      invariant breaks != [] ==> 0 < breaks[0].index <= i && expected == PrevSeen(recs, breaks[0].index - 1)
    {
      if breaks == [] {
        expected := prev;
      }
      var anomaly := CheckNumber(recs, i);
      if anomaly.Some? {
        seqAnomalies := seqAnomalies + [anomaly.value];
      }
      var found := CheckRecord(recs, i, prev);
      if found.Some? {
        breaks := breaks + [found.value];
      }
      if recs[i].Some? {
        prev := recs[i].value.hash;
      }
    }
  }

  /** Two neighbouring records with numbers, the second of which is not the next one. */
  method CheckNumber(recs: seq<Entry>, i: nat) returns (anomaly: Option<Anomaly>)
    requires i < |recs|
    ensures anomaly == AnomalyAt(recs, i)
  {
    if i > 0 && recs[i].Some? && recs[i - 1].Some? {
      var a, b := recs[i - 1].value.content.num, recs[i].value.content.num;
      if a.Some? && b.Some? && b.value != a.value + 1 {
        return Some(Anomaly(i + 1, a.value, b.value));
      }
    }
    return None;
  }

  method CheckRecord(recs: seq<Entry>, i: nat, prev: Stored) returns (b: Option<Break>)
    requires i < |recs| && prev == PrevSeen(recs, i)
    ensures b == BreakAt(recs, i)
  {
    if recs[i].None? {
      return Some(Break(i + 1, None, ParseKind));
    }
    var r := recs[i].value;
    if r.hash != Digest(r.content) {
      return Some(Break(i + 1, r.content.num, HashKind));
    } else if r.content.prev != prev {
      return Some(Break(i + 1, r.content.num, ChainKind));
    }
    return None;
  }

  method CheckTail(recs: seq<Entry>, i: nat) returns (chains: bool)
    ensures chains <==> TailChains(recs, i)
  {
    var j := i + 1;
    while j < |recs|
      invariant forall k | i < k < j && k < |recs| :: NamesPredecessor(recs, k)
    {
      if recs[j].None? || recs[j - 1].None? || recs[j].value.content.prev != recs[j - 1].value.hash {
        assert !NamesPredecessor(recs, j);
        return false;
      }
      j := j + 1;
    }
    return true;
  }

  method CountRecords(recs: seq<Entry>) returns (n: nat)
    ensures n == RecordCount(recs)
  {
    n := 0;
    for i := 0 to |recs|
      invariant n == RecordCount(recs[..i])
    {
      assert recs[..i + 1][..i] == recs[..i];
      if recs[i].Some? {
        n := n + 1;
      }
    }
    assert recs[..|recs|] == recs;
  }

  method ExplainChain(file: seq<Line>) returns (e: Explanation)
    ensures e == Explain(Normalise(file))
  {
    var recs := Normalise(file);
    var owner, successors := Index(recs);
    var breaks, seqAnomalies, expected := Walk(recs);
    if breaks == [] {
      return Explanation(|recs|, breaks, seqAnomalies, true, None);
    }
    BreaksSound(recs, |recs|);
    var head := breaks[0];
    var tail := CheckTail(recs, head.index - 1);
    var finding := Classify(recs, head, expected, owner, successors);
    return Explanation(|recs|, breaks, seqAnomalies, tail, Some(finding));
  }

  /** The verdict on the first break, from the two maps and the hash the walk expected there. */
  method Classify(recs: seq<Entry>, head: Break, expected: Stored,
                  owner: map<Stored, nat>, successors: map<Stored, nat>)
    returns (finding: Finding)
    requires 0 < head.index <= |recs| && (head.kind != ParseKind ==> recs[head.index - 1].Some?)
    requires expected == PrevSeen(recs, head.index - 1)
    requires forall h :: Lookup(owner, h) == Owner(recs, |recs|, h)
    requires forall h :: Count(successors, h) == Naming(recs, |recs|, h)
    ensures finding == Diagnose(recs, head)
  {
    match head.kind {
      case ParseKind =>
        var after := CountRecords(recs[head.index..]);
        var evidence := ParseEvidence(head.index == |recs|, after);
        return if head.index == |recs| then Finding(TRUNCATION, PartialFinalRecord, evidence)
               else Finding(UNKNOWN, DamagedRecordWithValidRecordsAfter, evidence);
      case HashKind =>
        var r := recs[head.index - 1].value;
        return Finding(REWRITE, ContentHashMismatch,
                       HashEvidence(r.hash, Digest(r.content), Count(successors, r.hash)));
      case ChainKind =>
        var actual := recs[head.index - 1].value.content.prev;
        var target := Lookup(owner, actual);
        var back := if head.index >= 2 then recs[head.index - 2] else None;
        var named := if target.Some? then Count(successors, actual) else 0;
        var deadEnd := if back.Some? then Some(Count(successors, back.value.hash) == 0) else None;
        var (verdict, cause) := ChainCause(head.index, actual, target, named, deadEnd == Some(true));
        return Finding(verdict, cause,
                       ChainEvidence(expected, actual, target, named,
                                     if back.Some? then Some(head.index - 1) else None, deadEnd));
    }
  }

  /** The first entry of the list is the first bad position. */
  lemma {:induction false} FirstBreak(recs: seq<Entry>, n: nat, i: nat)
    requires i < n <= |recs| && BreakAt(recs, i).Some?
    requires forall k | 0 <= k < i :: BreakAt(recs, k).None?
    ensures Breaks(recs, i) == []
    ensures Breaks(recs, n) != [] && Breaks(recs, n)[0] == BreakAt(recs, i).value
  {
    NoBreaks(recs, i);
    if n > i + 1 {
      FirstBreak(recs, n - 1, i);
    }
  }

  lemma {:induction false} NoBreaks(recs: seq<Entry>, n: nat)
    requires n <= |recs| && forall k | 0 <= k < n :: BreakAt(recs, k).None?
    ensures Breaks(recs, n) == []
  {
    if n > 0 {
      NoBreaks(recs, n - 1);
    }
  }

  lemma {:induction false} OnlyBreak(recs: seq<Entry>, n: nat, i: nat)
    requires i < n <= |recs| && BreakAt(recs, i).Some?
    requires forall k | 0 <= k < n && k != i :: BreakAt(recs, k).None?
    ensures Breaks(recs, n) == [BreakAt(recs, i).value]
  {
    if n == i + 1 {
      NoBreaks(recs, i);
    } else {
      OnlyBreak(recs, n - 1, i);
    }
  }
}
