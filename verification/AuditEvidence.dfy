/** What the explainer's evidence means, for every record list: first owners, counts of names, gaps in the numbers. */
module AuditEvidence {
  import opened Options
  import opened AuditChain
  import opened AuditVerify
  import opened AuditExplain
  import opened AuditDiagnosis
  import opened AuditWriters

  predicate HasHash(recs: seq<Entry>, k: nat, h: Stored) {
    k < |recs| && recs[k].Some? && recs[k].value.hash == h
  }

  predicate Names(recs: seq<Entry>, k: nat, h: Stored) {
    k < |recs| && recs[k].Some? && recs[k].value.content.prev == h
  }

  /** The positions among the first `n` whose records name a hash. */
  function Namers(recs: seq<Entry>, n: nat, h: Stored): set<nat> {
    set k: nat | k < n && Names(recs, k, h)
  }

  function Records(recs: seq<Entry>): set<nat> {
    set k: nat | k < |recs| && recs[k].Some?
  }

  /** `target` is the line of the first record with this hash; what is falsy has none. */
  ghost predicate FirstOwner(recs: seq<Entry>, n: nat, h: Stored, target: Option<nat>) {
    match target
    case Some(t) =>
      0 < t <= n && HasHash(recs, t - 1, h) && Truthy(h) && forall k | 0 <= k < t - 1 :: !HasHash(recs, k, h)
    case None => !Truthy(h) || forall k | 0 <= k < n :: !HasHash(recs, k, h)
  }

  lemma {:induction false} OwnerIsFirst(recs: seq<Entry>, n: nat, h: Stored)
    requires n <= |recs|
    ensures FirstOwner(recs, n, h, Owner(recs, n, h))
  {
    if n > 0 {
      OwnerIsFirst(recs, n - 1, h);
    }
  }

  lemma OneMoreNamer(recs: seq<Entry>, n: nat, h: Stored)
    requires n < |recs|
    ensures |Namers(recs, n + 1, h)| == |Namers(recs, n, h)| + if Names(recs, n, h) then 1 else 0
  {
    assert Namers(recs, n + 1, h) == Namers(recs, n, h) + if Names(recs, n, h) then {n} else {};
  }

  lemma {:induction false} NamingIsCount(recs: seq<Entry>, n: nat, h: Stored)
    requires n <= |recs|
    ensures Naming(recs, n, h) == |Namers(recs, n, h)|
  {
    if n > 0 {
      NamingIsCount(recs, n - 1, h);
      OneMoreNamer(recs, n - 1, h);
    } else {
      assert Namers(recs, 0, h) == {};
    }
  }

  lemma {:induction false} RecordsAreCounted(recs: seq<Entry>)
    ensures RecordCount(recs) == |Records(recs)|
  {
    if recs == [] {
      assert Records(recs) == {};
    } else {
      var n := |recs| - 1;
      RecordsAreCounted(recs[..n]);
      assert Records(recs) == Records(recs[..n]) + if recs[n].Some? then {n} else {};
    }
  }

  /** `h` is the hash of the last record before `i`, whatever holes lie between; without one it is empty. */
  ghost predicate LastHashBefore(recs: seq<Entry>, i: nat, h: Stored)
    requires i <= |recs|
  {
    || (h == Empty && forall k | 0 <= k < i :: recs[k].None?)
    || (exists k: nat | k < i && recs[k].Some? :: h == recs[k].value.hash && forall m | k < m < i :: recs[m].None?)
  }

  lemma {:induction false} LastHashIsExpected(recs: seq<Entry>, i: nat)
    requires i <= |recs|
    ensures LastHashBefore(recs, i, PrevSeen(recs, i))
  {
    if i > 0 {
      LastHashIsExpected(recs, i - 1);
    }
  }

  /** Two neighbouring numbered records, the second of which has not the next number. */
  predicate Jumps(recs: seq<Entry>, i: nat, a: Anomaly) {
    && 0 < i < |recs| && recs[i - 1].Some? && recs[i].Some?
    && recs[i - 1].value.content.num == Some(a.from) && recs[i].value.content.num == Some(a.to)
    && a.to - a.from != 1 && a.index == i + 1
  }

  /** The listed anomalies are exactly the jumps in the numbers, in the order of the file. */
  lemma {:induction false} AnomaliesAreJumps(recs: seq<Entry>, n: nat)
    requires n <= |recs|
    ensures forall a :: a in Anomalies(recs, n) <==> 0 < a.index <= n && Jumps(recs, a.index - 1, a)
    ensures forall k, l | 0 <= k < l < |Anomalies(recs, n)| :: Anomalies(recs, n)[k].index < Anomalies(recs, n)[l].index
  {
    if n > 0 {
      AnomaliesAreJumps(recs, n - 1);
      var before := Anomalies(recs, n - 1);
      assert forall k | 0 <= k < |before| :: before[k] in before;
    }
  }

  lemma FirstBreakIsThere(recs: seq<Entry>)
    requires Explain(recs).Broken()
    ensures var b := Explain(recs).breaks[0];
            0 < b.index <= |recs| && BreakAt(recs, b.index - 1) == Some(b)
            && Explain(recs).finding == Some(Diagnose(recs, b))
  {
    BreaksSound(recs, |recs|);
    assert Breaks(recs, |recs|)[0] in Breaks(recs, |recs|);
  }

  predicate NamesTheOneBefore(recs: seq<Entry>, j: nat) {
    0 < j < |recs| && recs[j - 1].Some? && Names(recs, j, recs[j - 1].value.hash)
  }

  /** What every report says about the whole file. */
  lemma ReportCoversFile(recs: seq<Entry>)
    ensures var e := Explain(recs);
            && e.entries == |recs| && (e.finding.Some? <==> e.Broken())
            && (forall a :: a in e.seqAnomalies <==> 0 < a.index <= |recs| && Jumps(recs, a.index - 1, a))
            && (e.tailSelfConsistent <==>
                  !e.Broken() || forall j: nat | e.breaks[0].index <= j < |recs| :: NamesTheOneBefore(recs, j))
  {
    AnomaliesAreJumps(recs, |recs|);
    if Explain(recs).Broken() {
      FirstBreakIsThere(recs);
      var i := Explain(recs).breaks[0].index;
      assert forall j | i <= j < |recs| :: NamesPredecessor(recs, j) == NamesTheOneBefore(recs, j);
    }
  }

  /** The first break is reported at position `i`. */
  ghost predicate BrokenFirstAt(recs: seq<Entry>, i: nat, kind: Kind) {
    && i < |recs| && Explain(recs).Broken()
    && Explain(recs).breaks[0].index == i + 1 && Explain(recs).breaks[0].kind == kind
  }

  /** A line that holds no record: whether it is the last, and how many records follow. */
  lemma ParseEvidenceMeans(recs: seq<Entry>, i: nat)
    requires BrokenFirstAt(recs, i, ParseKind)
    ensures recs[i].None? && Explain(recs).breaks[0].num == None
    ensures Explain(recs).finding.Some?
            && Explain(recs).finding.value.evidence == ParseEvidence(i + 1 == |recs|, |Records(recs[i + 1..])|)
  {
    FirstBreakIsThere(recs);
    RecordsAreCounted(recs[i + 1..]);
  }

  /** A record that does not hash to its stored hash: both hashes, and how many records name the stored one. */
  lemma HashEvidenceMeans(recs: seq<Entry>, i: nat)
    requires BrokenFirstAt(recs, i, HashKind)
    ensures recs[i].Some? && Explain(recs).breaks[0].num == recs[i].value.content.num
    ensures var h := recs[i].value.hash;
            && h != Digest(recs[i].value.content) && Explain(recs).finding.Some?
            && Explain(recs).finding.value.evidence ==
               HashEvidence(h, Digest(recs[i].value.content), |Namers(recs, |recs|, h)|)
  {
    FirstBreakIsThere(recs);
    NamingIsCount(recs, |recs|, recs[i].value.hash);
  }

  /**
   A broken link: what it should have named and what it names, where that is, how many records name it too, and
   whether the record before it leads nowhere.
   */
  ghost predicate LinkEvidence(recs: seq<Entry>, i: nat, e: Evidence)
    requires i < |recs| && recs[i].Some?
  {
    && e.ChainEvidence? && e.actualPrev == recs[i].value.content.prev && e.actualPrev != e.expectedPrev
    && LastHashBefore(recs, i, e.expectedPrev)
    && FirstOwner(recs, |recs|, e.actualPrev, e.target)
    && e.targetSuccessors == (if e.target.None? then 0 else |Namers(recs, |recs|, e.actualPrev)|)
    && if i > 0 && recs[i - 1].Some? then
         e.abandoned == Some(i) && e.abandonedIsDeadEnd == Some(Namers(recs, |recs|, recs[i - 1].value.hash) == {})
       else e.abandoned == None && e.abandonedIsDeadEnd == None
  }

  lemma ChainEvidenceMeans(recs: seq<Entry>, i: nat)
    requires BrokenFirstAt(recs, i, ChainKind)
    ensures recs[i].Some? && Explain(recs).breaks[0].num == recs[i].value.content.num
    ensures Explain(recs).finding.Some? && LinkEvidence(recs, i, Explain(recs).finding.value.evidence)
  {
    FirstBreakIsThere(recs);
    DiagnosedLink(recs, Explain(recs).breaks[0]);
  }

  lemma DiagnosedLink(recs: seq<Entry>, head: Break)
    requires 0 < head.index <= |recs| && head.kind == ChainKind && BreakAt(recs, head.index - 1) == Some(head)
    ensures LinkEvidence(recs, head.index - 1, Diagnose(recs, head).evidence)
  {
    var i := head.index - 1;
    var actual := recs[i].value.content.prev;
    OwnerIsFirst(recs, |recs|, actual);
    NamingIsCount(recs, |recs|, actual);
    LastHashIsExpected(recs, i);
    if i > 0 && recs[i - 1].Some? {
      NamingIsCount(recs, |recs|, recs[i - 1].value.hash);
    }
  }

  lemma NumbersAfterRemoval(log: seq<Record>, i: nat, j: nat, k: nat)
    requires Numbered(log) && i <= j < |log| && k < |log[..i] + log[j..]|
    ensures Entries(log[..i] + log[j..])[k].value.content.num == Some(if k < i then k + 1 else k + j - i + 1)
  {
    assert (log[..i] + log[j..])[k] == log[if k < i then k else k + j - i];
  }

  lemma JumpAfterRemoval(log: seq<Record>, i: nat, j: nat, a: Anomaly)
    requires Numbered(log) && i <= j < |log|
    ensures var recs := Entries(log[..i] + log[j..]);
            (0 < a.index <= |recs| && Jumps(recs, a.index - 1, a)) <==> (0 < i < j && a == Anomaly(i + 1, i, j + 1))
  {
    var recs := Entries(log[..i] + log[j..]);
    if 1 < a.index <= |recs| {
      NumbersAfterRemoval(log, i, j, a.index - 1);
      NumbersAfterRemoval(log, i, j, a.index - 2);
    }
  }

  /** A numbered log has no anomaly; a removed interior block leaves exactly one, naming the missing numbers. */
  lemma RemovalLeavesGap(log: seq<Record>, i: nat, j: nat)
    requires Numbered(log) && i <= j < |log|
    ensures forall a :: a in Explain(Entries(log[..i] + log[j..])).seqAnomalies <==>
              0 < i < j && a == Anomaly(i + 1, i, j + 1)
  {
    var recs := Entries(log[..i] + log[j..]);
    AnomaliesAreJumps(recs, |recs|);
    forall a: Anomaly
      ensures (0 < a.index <= |recs| && Jumps(recs, a.index - 1, a)) <==>
              (0 < i < j && a == Anomaly(i + 1, i, j + 1))
    {
      JumpAfterRemoval(log, i, j, a);
    }
  }

  // ---- what the verifier reports ----

  /** Trimming takes whitespace-only lines off both ends and nothing else. */
  lemma TrimmedLines(file: seq<Line>) returns (i: nat, j: nat)
    ensures i <= j <= |file| && Trim(file) == file[i..j]
    ensures (forall k | 0 <= k < i :: file[k].Spaces?) && forall k | j <= k < |file| :: file[k].Spaces?
    ensures i < j ==> !file[i].Spaces? && !file[j - 1].Spaces?
  {
    i := LeadingLines(file);
    var rest := file[i..];
    var n := TrailingLines(rest);
    j := i + n;
    assert rest[..n] == file[i..j];
    assert forall k | j <= k < |file| :: file[k] == rest[k - i];
  }

  lemma {:induction false} LeadingLines(file: seq<Line>) returns (i: nat)
    ensures i <= |file| && DropLeading(file) == file[i..] && forall k | 0 <= k < i :: file[k].Spaces?
    ensures i < |file| ==> !file[i].Spaces?
  {
    if file != [] && file[0].Spaces? {
      i := LeadingLines(file[1..]);
      assert file[1..][i..] == file[i + 1..];
      assert forall k | 1 <= k < i + 1 :: file[k] == file[1..][k - 1];
      i := i + 1;
    } else {
      i := 0;
      assert file[0..] == file;
    }
  }

  lemma {:induction false} TrailingLines(file: seq<Line>) returns (n: nat)
    ensures n <= |file| && DropTrailing(file) == file[..n] && forall k | n <= k < |file| :: file[k].Spaces?
    ensures n > 0 ==> !file[n - 1].Spaces?
  {
    if file != [] && file[|file| - 1].Spaces? {
      var front := file[..|file| - 1];
      n := TrailingLines(front);
      assert front[..n] == file[..n];
      assert forall k | n <= k < |front| :: file[k] == front[k];
    } else {
      n := |file|;
      assert file[..n] == file;
    }
  }

  /** What `Verify` returns, on the lines that are left after trimming. */
  ghost function ReportOn(lines: seq<Line>): Report {
    ReportAt(lines, GoodLines(lines))
  }

  lemma ChainedLinesAreGood(log: seq<Record>, lines: seq<Line>)
    requires Chained(log) && Lines(log) <= lines
    ensures forall k | 0 <= k < |log| :: Good(lines, k)
  {
    forall k | 0 <= k < |log|
      ensures Good(lines, k)
    {
      assert Linked(log, k);
      assert lines[k] == Lines(log)[k] && (k > 0 ==> lines[k - 1] == Lines(log)[k - 1]);
    }
  }

  /** A whole chained log is accepted, with every record checked. */
  lemma AcceptedReport(log: seq<Record>)
    requires Chained(log)
    ensures ReportOn(Lines(log)) == Report(true, |log|, None, NoReason)
  {
    ChainedLinesAreGood(log, Lines(log));
    WalkStops(Lines(log), |log|);
  }

  /** The first line that does not continue a chained log decides the report, whatever comes after it. */
  lemma FirstBadReport(log: seq<Record>, bad: Line, rest: seq<Line>)
    requires Chained(log) && (bad.Parsed? ==> !Chained(log + [bad.rec]))
    ensures var report := ReportOn(Lines(log) + [bad] + rest);
            match bad
            case Parsed(r) =>
              report == Report(false, |log|, r.content.num,
                               if r.hash == Digest(r.content) then ChainBreak else HashMismatch)
            case JsonNull => report == Report(false, 0, None, Thrown)
            case JsonFalsy => report == Report(false, |log|, None, HashMismatch)
            case _ => report == Report(false, |log|, Some(|log| + 1), CorruptJson)
  {
    var lines := Lines(log) + [bad] + rest;
    assert Lines(log) <= lines && lines[|log|] == bad;
    ChainedLinesAreGood(log, lines);
    if bad.Parsed? {
      AppendChains(log, bad.rec);
    }
    assert CarriedHash(lines, |log|) == LastHash(log);
    WalkStops(lines, |log|);
  }

  /** An edited record and a cut log, as the verifier reports them. */
  lemma VerifierNamesDamage(log: seq<Record>, i: nat, c: Content, j: nat)
    requires Chained(log) && i < |log|
    ensures c != log[i].content ==>
              ReportOn(Lines(log[i := Record(c, log[i].hash)])) == Report(false, i, c.num, HashMismatch)
    ensures i < j < |log| ==>
              ReportOn(Lines(log[..i] + log[j..])) == Report(false, i, log[j].content.num, ChainBreak)
  {
    ChainedPrefix(log, i);
    assert Linked(log, i);
    if c != log[i].content {
      var r := Record(c, log[i].hash);
      AppendChains(log[..i], r);
      FirstBadReport(log[..i], Parsed(r), Lines(log[i + 1..]));
      assert Lines(log[i := r]) == Lines(log[..i]) + [Parsed(r)] + Lines(log[i + 1..]);
    }
    if i < j < |log| {
      CutNamesTheMissing(log, i, j);
      FirstBadReport(log[..i], Parsed(log[j]), Lines(log[j + 1..]));
      assert Lines(log[..i] + log[j..]) == Lines(log[..i]) + [Parsed(log[j])] + Lines(log[j + 1..]);
    }
  }

  lemma CutNamesTheMissing(log: seq<Record>, i: nat, j: nat)
    requires Chained(log) && i < j < |log|
    ensures Chained(log[..i]) && SelfHashed(log[j]) && !Chained(log[..i] + [log[j]])
  {
    ChainedPrefix(log, i);
    assert Linked(log, j) && Linked(log, j - 1);
    if i > 0 {
      HashesDistinct(log, i - 1, j - 1);
    }
    AppendChains(log[..i], log[j]);
  }
}
