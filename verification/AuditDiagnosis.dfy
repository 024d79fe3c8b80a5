/**
 The explainer's verdict matches the damage, and the explainer and the verifier agree.

 Each theorem starts from chained logs, applies one kind of damage, and states the
 verdict, the sub-cause and the position the explainer reports.
 */
module AuditDiagnosis {
  import opened Options
  import opened Sequences
  import opened AuditChain
  import opened AuditVerify
  import opened AuditExplain

  function Entries(log: seq<Record>): (recs: seq<Entry>)
    ensures |recs| == |log| && forall i | 0 <= i < |log| :: recs[i] == Some(log[i])
  {
    seq(|log|, i requires 0 <= i < |log| => Some(log[i]))
  }

  /** The chain is broken first at `index`, with this verdict and cause. */
  ghost predicate Reports(e: Explanation, index: nat, verdict: Verdict, cause: SubCause) {
    e.FirstBadIndex() == Some(index) && e.finding.Some? &&
    e.finding.value.verdict == verdict && e.finding.value.subCause == cause
  }

  // ---- facts about the walk over a hole-free log ----

  lemma {:induction false} IntactAt(log: seq<Record>, recs: seq<Entry>, k: nat)
    requires k < |log| <= |recs| && forall i | 0 <= i <= k :: recs[i] == Some(log[i])
    ensures PrevSeen(recs, k) == HashBefore(log, k)
    ensures BreakAt(recs, k).None? <==> Linked(log, k)
  {
  }

  lemma {:induction false} NamedNever(recs: seq<Entry>, n: nat, h: Stored)
    requires n <= |recs|
    requires forall k | 0 <= k < n && recs[k].Some? :: recs[k].value.content.prev != h
    ensures Naming(recs, n, h) == 0
  {
    if n > 0 {
      NamedNever(recs, n - 1, h);
    }
  }

  lemma {:induction false} NamedOnce(recs: seq<Entry>, n: nat, h: Stored, i: nat)
    requires i < n <= |recs| && recs[i].Some? && recs[i].value.content.prev == h
    ensures Naming(recs, n, h) >= 1
  {
    if i < n - 1 {
      NamedOnce(recs, n - 1, h, i);
    }
  }

  lemma {:induction false} NamedTwice(recs: seq<Entry>, n: nat, h: Stored, i: nat, j: nat)
    requires i < j < n <= |recs|
    requires recs[i].Some? && recs[i].value.content.prev == h
    requires recs[j].Some? && recs[j].value.content.prev == h
    ensures Naming(recs, n, h) >= 2
  {
    if j < n - 1 {
      NamedTwice(recs, n - 1, h, i, j);
    } else {
      NamedOnce(recs, n - 1, h, i);
    }
  }

  lemma {:induction false} OwnedNever(recs: seq<Entry>, n: nat, h: Stored)
    requires n <= |recs| && forall k | 0 <= k < n && recs[k].Some? :: recs[k].value.hash != h || !Truthy(h)
    ensures Owner(recs, n, h).None?
  {
    if n > 0 {
      OwnedNever(recs, n - 1, h);
    }
  }

  lemma {:induction false} OwnedFirstAt(recs: seq<Entry>, n: nat, h: Stored, i: nat)
    requires i < n <= |recs| && recs[i].Some? && recs[i].value.hash == h && Truthy(h)
    requires forall k | 0 <= k < i && recs[k].Some? :: recs[k].value.hash != h
    ensures Owner(recs, n, h) == Some(i + 1)
  {
    if i == n - 1 {
      OwnedNever(recs, n - 1, h);
    } else {
      OwnedFirstAt(recs, n - 1, h, i);
    }
  }

  // ---- files as the explainer reads them ----

  /** The file holds exactly these records, blank lines aside. */
  ghost predicate FileOf(file: seq<Line>, log: seq<Record>) {
    Normalise(file) == Entries(log)
  }

  lemma FileIsLog(log: seq<Record>)
    ensures FileOf(Lines(log), log)
  {
    NormaliseSolid(Lines(log));
  }

  // ---- from the first break to the report ----

  lemma FirstIsDiagnosed(recs: seq<Entry>, i: nat)
    requires i < |recs| && BreakAt(recs, i).Some? && forall k | 0 <= k < i :: BreakAt(recs, k).None?
    ensures var e := Explain(recs);
            && e.FirstBadIndex() == Some(i + 1) && e.breaks[0] == BreakAt(recs, i).value
            && e.finding == Some(Diagnose(recs, BreakAt(recs, i).value))
            && e.tailSelfConsistent == TailChains(recs, i)
  {
    FirstBreak(recs, |recs|, i);
  }

  /** What decides the verdict on a broken link at position `i`. */
  ghost function CauseAt(recs: seq<Entry>, i: nat): (Verdict, SubCause)
    requires i < |recs| && recs[i].Some?
  {
    var actual := recs[i].value.content.prev;
    var target := Owner(recs, |recs|, actual);
    ChainCause(i + 1, actual, target, if target.Some? then Naming(recs, |recs|, actual) else 0,
               i > 0 && recs[i - 1].Some? && Naming(recs, |recs|, recs[i - 1].value.hash) == 0)
  }

  lemma ChainIsDiagnosed(recs: seq<Entry>, head: Break)
    requires 0 < head.index <= |recs| && recs[head.index - 1].Some? && head.kind == ChainKind
    ensures var finding := Diagnose(recs, head);
            (finding.verdict, finding.subCause) == CauseAt(recs, head.index - 1)
  {
  }

  /** The report on a file whose first break is a broken link. */
  lemma BrokenLinkReport(recs: seq<Entry>, i: nat)
    requires i < |recs| && BreakAt(recs, i).Some? && BreakAt(recs, i).value.kind == ChainKind
    requires forall k | 0 <= k < i :: BreakAt(recs, k).None?
    ensures Reports(Explain(recs), i + 1, CauseAt(recs, i).0, CauseAt(recs, i).1)
    ensures Explain(recs).tailSelfConsistent == TailChains(recs, i)
  {
    FirstIsDiagnosed(recs, i);
    ChainIsDiagnosed(recs, BreakAt(recs, i).value);
  }

  // ---- one damage, one verdict ----

  /** Content edited under a kept hash is a rewrite, at that record and nowhere else. */
  lemma EditIsRewrite(file: seq<Line>, log: seq<Record>, i: nat, c: Content)
    requires Chained(log) && i < |log| && c != log[i].content
    requires FileOf(file, log[i := Record(c, log[i].hash)])
    ensures var e := Explain(Normalise(file));
            Reports(e, i + 1, REWRITE, ContentHashMismatch) && |e.breaks| == 1 && e.tailSelfConsistent
  {
    var damaged := log[i := Record(c, log[i].hash)];
    var recs := Entries(damaged);
    assert Linked(log, i);
    forall k | 0 <= k < |recs|
      ensures BreakAt(recs, k).None? <==> k != i
    {
      IntactAt(damaged, recs, k);
      assert Linked(log, k);
    }
    OnlyBreak(recs, |recs|, i);
    forall j | i < j < |recs|
      ensures NamesPredecessor(recs, j)
    {
      assert Linked(log, j);
    }
  }

  /** Where record `k` of the log without `i..j` came from. */
  function Origin(i: nat, j: nat, k: nat): nat
    requires i < j
  {
    if k < i then k else k + j - i
  }

  lemma RemovalBreaksOnce(log: seq<Record>, i: nat, j: nat, k: nat)
    requires Chained(log) && i < j < |log| && k < |log[..i] + log[j..]|
    ensures BreakAt(Entries(log[..i] + log[j..]), k).None? <==> k != i
    ensures (log[..i] + log[j..])[k] == log[Origin(i, j, k)]
  {
    var damaged := log[..i] + log[j..];
    IntactAt(damaged, Entries(damaged), k);
    assert Linked(log, Origin(i, j, k)) && damaged[k] == log[Origin(i, j, k)];
    assert Linked(log, j) && Linked(log, j - 1);
    if k == i && i > 0 {
      HashesDistinct(log, i - 1, j - 1);
    }
  }

  /** The only break of a hole-free file names something that no record has. */
  lemma MissingIsCut(recs: seq<Entry>, i: nat)
    requires i < |recs| && recs[i].Some? && SelfHashed(recs[i].value)
    requires forall k | 0 <= k < |recs| :: BreakAt(recs, k).None? <==> k != i
    requires recs[i].value.content.prev != Empty && Owner(recs, |recs|, recs[i].value.content.prev).None?
    requires forall k | i < k < |recs| :: NamesPredecessor(recs, k)
    ensures var e := Explain(recs);
            Reports(e, i + 1, SPLICE_COPY, CutMissingPredecessor) && |e.breaks| == 1 && e.tailSelfConsistent
  {
    BrokenLinkReport(recs, i);
    OnlyBreak(recs, |recs|, i);
  }

  /** A removed block with records after it is a cut: the named record is nowhere in the file. */
  lemma RemovalIsCut(file: seq<Line>, log: seq<Record>, i: nat, j: nat)
    requires Chained(log) && i < j < |log|
    requires FileOf(file, log[..i] + log[j..])
    ensures var e := Explain(Normalise(file));
            Reports(e, i + 1, SPLICE_COPY, CutMissingPredecessor) && |e.breaks| == 1 && e.tailSelfConsistent
  {
    var damaged := log[..i] + log[j..];
    var recs := Entries(damaged);
    var missing := log[j - 1].hash;
    forall k | 0 <= k < |recs|
      ensures BreakAt(recs, k).None? <==> k != i
      ensures recs[k].value.hash != missing
    {
      RemovalBreaksOnce(log, i, j, k);
      HashesDistinct(log, Origin(i, j, k), j - 1);
    }
    OwnedNever(recs, |recs|, missing);
    assert Linked(log, j) && Linked(log, j - 1);
    forall k | i < k < |recs|
      ensures NamesPredecessor(recs, k)
    {
      assert Linked(log, k + j - i);
    }
    MissingIsCut(recs, i);
  }

  /** A torn last line is a truncation. */
  lemma TornTailIsTruncation(file: seq<Line>, log: seq<Record>)
    requires Chained(log)
    requires Normalise(file) == Entries(log) + [None]
    ensures var e := Explain(Normalise(file));
            Reports(e, |log| + 1, TRUNCATION, PartialFinalRecord) && |e.breaks| == 1 && e.tailSelfConsistent
  {
    var recs := Entries(log) + [None];
    forall k | 0 <= k < |log|
      ensures BreakAt(recs, k).None?
    {
      IntactAt(log, recs, k);
      assert Linked(log, k);
    }
    OnlyBreak(recs, |recs|, |log|);
  }

  /** A torn line that later appends chained past leaves an honest "unknown". */
  lemma TornMiddleIsUnknown(file: seq<Line>, a: seq<Record>, b: seq<Record>)
    requires Chained(a + b) && b != []
    requires Normalise(file) == Entries(a) + [None] + Entries(b)
    ensures var e := Explain(Normalise(file));
            Reports(e, |a| + 1, UNKNOWN, DamagedRecordWithValidRecordsAfter) && |e.breaks| == 1
            && !e.tailSelfConsistent
  {
    var recs := Entries(a) + [None] + Entries(b);
    forall k | 0 <= k < |recs|
      ensures BreakAt(recs, k).None? <==> k != |a|
    {
      if k < |a| {
        assert Linked(a + b, k);
        IntactAt(a + b, recs[..|a|] + Entries(b), k);
        PrevSeenLocal(recs, recs[..|a|] + Entries(b), k);
      } else if k > |a| {
        assert Linked(a + b, k - 1);
        assert recs[k] == Some((a + b)[k - 1]);
        assert PrevSeen(recs, k) == HashBefore(a + b, k - 1) by {
          if k == |a| + 1 {
            assert recs[|a|].None? && PrevSeen(recs, k) == PrevSeen(recs, |a|);
          }
        }
      }
    }
    OnlyBreak(recs, |recs|, |a|);
    assert !NamesPredecessor(recs, |a| + 1);
  }

  /** What the walk carries depends on the earlier entries only. */
  lemma {:induction false} PrevSeenLocal(p: seq<Entry>, q: seq<Entry>, k: nat)
    requires k <= |p| && k <= |q| && forall i | 0 <= i < k :: p[i] == q[i]
    ensures PrevSeen(p, k) == PrevSeen(q, k)
  {
    if k > 0 {
      PrevSeenLocal(p, q, k - 1);
    }
  }

  /** Two branches from one tail share a hash only where they agree from the start. */
  lemma BranchesShareHashIff(b: seq<Record>, u: seq<Record>, w: seq<Record>, p: nat, q: nat)
    requires Chained(b + u) && Chained(b + w) && p < |u| && q < |w|
    ensures u[p].hash == w[q].hash <==> p == q && u[..p + 1] == w[..q + 1]
  {
    DepthIsPosition(b + u, |b| + p);
    DepthIsPosition(b + w, |b| + q);
    if u[p].hash == w[q].hash {
      var left, right := (b + u)[..|b| + p + 1], (b + w)[..|b| + q + 1];
      ChainedPrefix(b + u, |b| + p + 1);
      ChainedPrefix(b + w, |b| + q + 1);
      LastHashBindsLog(left, right);
      assert left[|b|..] == u[..p + 1] && right[|b|..] == w[..q + 1];
    } else {
      assert p == q ==> u[..p + 1][p] == u[p] && w[..q + 1][q] == w[q];
    }
  }

  lemma SecondBranchBreakAt(b: seq<Record>, u: seq<Record>, w: seq<Record>, recs: seq<Entry>, k: nat)
    requires b != [] && u != [] && w != [] && Chained(b + u) && Chained(b + w)
    requires Entries(b + u + w) <= recs && k < |b + u + w|
    ensures BreakAt(recs, k).None? <==> k != |b + u|
    ensures k == |b + u| ==> BreakAt(recs, k) == Some(Break(k + 1, w[0].content.num, ChainKind))
  {
    var log, fork := b + u + w, |b + u|;
    assert forall i | 0 <= i < |log| :: recs[i] == Entries(log)[i];
    IntactAt(log, recs, k);
    if k < fork {
      assert Linked(b + u, k);
    } else {
      assert Linked(b + w, k - |u|) && Linked(b + u, |b| - 1);
      if k == fork {
        HashesDistinct(b + u, |b| - 1, fork - 1);
      }
    }
  }

  /** The shared tail is found where it is, and named by the first record of each branch. */
  lemma SharedTailIsOwned(b: seq<Record>, u: seq<Record>, w: seq<Record>, recs: seq<Entry>)
    requires b != [] && u != [] && w != [] && Chained(b + u) && Chained(b + w)
    requires Entries(b + u + w) <= recs
    ensures w[0].content.prev == b[|b| - 1].hash
    ensures Owner(recs, |recs|, b[|b| - 1].hash) == Some(|b|)
    ensures Naming(recs, |recs|, b[|b| - 1].hash) >= 2
  {
    var log := b + u + w;
    assert forall k | 0 <= k < |log| :: recs[k] == Entries(log)[k];
    assert Linked(b + w, |b|) && Linked(b + u, |b|) && Linked(b + u, |b| - 1);
    forall k | 0 <= k < |b| - 1
      ensures recs[k].value.hash != b[|b| - 1].hash
    {
      HashesDistinct(b + u, k, |b| - 1);
    }
    OwnedFirstAt(recs, |recs|, b[|b| - 1].hash, |b| - 1);
    NamedTwice(recs, |recs|, b[|b| - 1].hash, |b|, |b + u|);
  }

  /** The break points shared by every log that restarts from an earlier tail. */
  lemma SecondBranchBreaks(b: seq<Record>, u: seq<Record>, w: seq<Record>, recs: seq<Entry>)
    requires b != [] && u != [] && w != [] && Chained(b + u) && Chained(b + w)
    requires Entries(b + u + w) <= recs
    ensures forall k | 0 <= k < |b + u + w| :: BreakAt(recs, k).None? <==> k != |b + u|
    ensures BreakAt(recs, |b + u|) == Some(Break(|b + u| + 1, w[0].content.num, ChainKind))
    ensures w[0].content.prev == b[|b| - 1].hash
    ensures Owner(recs, |recs|, b[|b| - 1].hash) == Some(|b|)
    ensures Naming(recs, |recs|, b[|b| - 1].hash) >= 2
  {
    forall k | 0 <= k < |b + u + w|
      ensures BreakAt(recs, k).None? <==> k != |b + u|
    {
      SecondBranchBreakAt(b, u, w, recs, k);
    }
    SecondBranchBreakAt(b, u, w, recs, |b + u|);
    SharedTailIsOwned(b, u, w, recs);
  }

  /** The end of the first branch is named again only by a second branch that repeats the first and goes on. */
  lemma AbandonedNamedIff(b: seq<Record>, u: seq<Record>, w: seq<Record>)
    requires b != [] && u != [] && w != [] && Chained(b + u) && Chained(b + w)
    ensures var recs := Entries(b + u + w);
            Naming(recs, |recs|, u[|u| - 1].hash) > 0 <==> u < w
  {
    var recs := Entries(b + u + w);
    var fork, abandoned := |b + u|, u[|u| - 1].hash;
    forall k | 0 <= k < |recs|
      ensures recs[k].value.content.prev == abandoned <==> u < w && k == fork + |u|
    {
      DepthIsPosition(b + u, fork - 1);
      if k < fork {
        assert Linked(b + u, k);
        if k > 0 {
          HashesDistinct(b + u, k - 1, fork - 1);
        }
      } else {
        assert Linked(b + w, k - |u|);
        if k == fork {
          HashesDistinct(b + u, |b| - 1, fork - 1);
        } else {
          BranchesShareHashIff(b, u, w, |u| - 1, k - fork - 1);
          assert u[..|u|] == u;
        }
      }
    }
    if u < w {
      NamedOnce(recs, |recs|, abandoned, fork + |u|);
    } else {
      NamedNever(recs, |recs|, abandoned);
    }
  }

  /**
   Two writers appended from one tail: the fork is named, whatever each branch holds, unless the second branch
   repeats the whole first one and goes on, which reads as a joined segment.
   */
  lemma ForkIsFork(file: seq<Line>, b: seq<Record>, u: seq<Record>, w: seq<Record>)
    requires b != [] && u != [] && w != [] && Chained(b + u) && Chained(b + w)
    requires FileOf(file, b + u + w)
    ensures var e := Explain(Normalise(file));
            && Reports(e, |b + u| + 1, SPLICE_COPY, if u < w then SegmentJoinedToEarlierEntry else ForkDuplicatePrev)
            && |e.breaks| == 1 && e.tailSelfConsistent
  {
    var recs := Entries(b + u + w);
    var fork := |b + u|;
    SecondBranchBreaks(b, u, w, recs);
    OnlyBreak(recs, |recs|, fork);
    BrokenLinkReport(recs, fork);
    AbandonedNamedIff(b, u, w);
    forall k | fork < k < |recs|
      ensures NamesPredecessor(recs, k)
    {
      assert Linked(b + w, k - |u|);
    }
  }

  /** A foreign branch inserted into a log that goes on afterwards is a joined segment, not a fork. */
  lemma InsertionIsJoinedSegment(file: seq<Line>, b: seq<Record>, u: seq<Record>, w: seq<Record>, v: seq<Record>)
    requires b != [] && u != [] && w != [] && v != []
    requires Chained(b + u + v) && Chained(b + w)
    requires FileOf(file, b + u + w + v)
    ensures var e := Explain(Normalise(file));
            Reports(e, |b + u| + 1, SPLICE_COPY, SegmentJoinedToEarlierEntry) && (e.tailSelfConsistent <==> u == w)
  {
    var recs := Entries(b + u + w + v);
    assert Entries(b + u + w) <= recs;
    ChainedPrefix(b + u + v, |b + u|);
    assert (b + u + v)[..|b + u|] == b + u;
    SecondBranchBreaks(b, u, w, recs);
    BrokenLinkReport(recs, |b + u|);
    var rejoin := |b + u + w|;
    assert Linked(b + u + v, |b + u|) && recs[rejoin] == Some(v[0]);
    NamedOnce(recs, |recs|, u[|u| - 1].hash, rejoin);
    InsertionTail(b, u, w, v);
  }

  /** The log goes on after the inserted branch by naming its own last record, which only a copy of it has. */
  lemma InsertionTail(b: seq<Record>, u: seq<Record>, w: seq<Record>, v: seq<Record>)
    requires b != [] && u != [] && w != [] && v != [] && Chained(b + u + v) && Chained(b + w)
    ensures TailChains(Entries(b + u + w + v), |b + u|) <==> u == w
  {
    var recs, rejoin := Entries(b + u + w + v), |b + u + w|;
    ChainedPrefix(b + u + v, |b + u|);
    assert (b + u + v)[..|b + u|] == b + u;
    assert Linked(b + u + v, |b + u|);
    BranchesShareHashIff(b, u, w, |u| - 1, |w| - 1);
    assert u[..|u|] == u && w[..|w|] == w;
    assert NamesPredecessor(recs, rejoin) <==> u == w;
    forall k | |b + u| < k < |recs| && k != rejoin
      ensures NamesPredecessor(recs, k)
    {
      if k < rejoin {
        assert Linked(b + w, k - |u|);
      } else {
        assert Linked(b + u + v, k - |w|);
      }
    }
  }

  lemma ConcatenationBreaksOnce(a: seq<Record>, b: seq<Record>, k: nat)
    requires a != [] && b != [] && Chained(a) && Chained(b) && k < |a + b|
    ensures BreakAt(Entries(a + b), k).None? <==> k != |a|
    ensures k > |a| ==> NamesPredecessor(Entries(a + b), k)
    ensures k == |a| ==> SelfHashed((a + b)[k]) && (a + b)[k].content.prev == Empty
  {
    IntactAt(a + b, Entries(a + b), k);
    assert Linked(a, |a| - 1);
    if k < |a| {
      assert Linked(a, k);
    } else {
      assert Linked(b, k - |a|);
    }
  }

  /** The only break of a hole-free file names no predecessor at all. */
  lemma EmptyIsFreshHead(recs: seq<Entry>, i: nat)
    requires i < |recs| && recs[i].Some? && SelfHashed(recs[i].value)
    requires forall k | 0 <= k < |recs| :: BreakAt(recs, k).None? <==> k != i
    requires recs[i].value.content.prev == Empty
    requires forall k | i < k < |recs| :: NamesPredecessor(recs, k)
    ensures var e := Explain(recs);
            Reports(e, i + 1, SPLICE_COPY, FreshHeadMidFile) && |e.breaks| == 1 && e.tailSelfConsistent
  {
    OwnedNever(recs, |recs|, Empty);
    BrokenLinkReport(recs, i);
    OnlyBreak(recs, |recs|, i);
  }

  /** A second file pasted after a first one shows as a fresh head. */
  lemma ConcatenationIsFreshHead(file: seq<Line>, a: seq<Record>, b: seq<Record>)
    requires a != [] && b != [] && Chained(a) && Chained(b)
    requires FileOf(file, a + b)
    ensures var e := Explain(Normalise(file));
            Reports(e, |a| + 1, SPLICE_COPY, FreshHeadMidFile) && |e.breaks| == 1 && e.tailSelfConsistent
  {
    var recs := Entries(a + b);
    forall k | 0 <= k < |recs|
      ensures BreakAt(recs, k).None? <==> k != |a|
      ensures k > |a| ==> NamesPredecessor(recs, k)
    {
      ConcatenationBreaksOnce(a, b, k);
    }
    ConcatenationBreaksOnce(a, b, |a|);
    EmptyIsFreshHead(recs, |a|);
  }

  /** Up to the moved block nothing is wrong, and its follower names its end. */
  lemma MovedBlockBreaks(a: seq<Record>, b: seq<Record>, c: seq<Record>, d: seq<Record>, k: nat)
    requires b != [] && c != [] && Chained(a + b + c + d) && k <= |a|
    ensures var recs := Entries(a + c + b + d);
            && (k < |a| ==> BreakAt(recs, k).None?)
            && (k == |a| ==> BreakAt(recs, k) == Some(Break(k + 1, c[0].content.num, ChainKind)))
    ensures c[0].content.prev == b[|b| - 1].hash
  {
    var log, damaged := a + b + c + d, a + c + b + d;
    assert log[|a + b| - 1] == b[|b| - 1] && log[|a + b|] == c[0];
    assert Linked(log, |a + b|) && Linked(log, |a + b| - 1) && Linked(log, k);
    assert damaged[..|a|] == log[..|a|];
    IntactAt(damaged, Entries(damaged), k);
    if a != [] {
      HashesDistinct(log, |a| - 1, |a + b| - 1);
    }
  }

  /** A block moved behind the block that followed it makes a `prev` point forward. */
  lemma MovedBlockPointsForward(file: seq<Line>, a: seq<Record>, b: seq<Record>, c: seq<Record>, d: seq<Record>)
    requires b != [] && c != [] && Chained(a + b + c + d)
    requires FileOf(file, a + c + b + d)
    ensures var e := Explain(Normalise(file));
            Reports(e, |a| + 1, SPLICE_COPY, PrevPointsForward) && !e.tailSelfConsistent
  {
    var recs := Entries(a + c + b + d);
    forall k | 0 <= k < |a|
      ensures BreakAt(recs, k).None?
    {
      MovedBlockBreaks(a, b, c, d, k);
    }
    MovedBlockBreaks(a, b, c, d, |a|);
    assert recs[|a|] == Some(c[0]);
    MovedBlockOwner(a, b, c, d);
    ForwardTarget(recs, |a|);
    MovedBlockLeavesTail(a, b, c, d);
  }

  /** The moved block itself does not name the block it stands behind now. */
  lemma MovedBlockLeavesTail(a: seq<Record>, b: seq<Record>, c: seq<Record>, d: seq<Record>)
    requires b != [] && c != [] && Chained(a + b + c + d)
    ensures !TailChains(Entries(a + c + b + d), |a|)
  {
    var log, damaged := a + b + c + d, a + c + b + d;
    var k := |a + c|;
    assert damaged[k] == log[|a|] && damaged[k - 1] == log[|a + b + c| - 1];
    assert Linked(log, |a|) && Linked(log, |a + b + c| - 1);
    if a != [] {
      HashesDistinct(log, |a| - 1, |a + b + c| - 1);
    }
    assert !NamesPredecessor(Entries(damaged), k);
  }

  lemma ForwardTarget(recs: seq<Entry>, i: nat)
    requires i < |recs| && BreakAt(recs, i).Some? && BreakAt(recs, i).value.kind == ChainKind
    requires forall k | 0 <= k < i :: BreakAt(recs, k).None?
    requires var target := Owner(recs, |recs|, recs[i].value.content.prev); target.Some? && target.value > i + 1
    ensures Reports(Explain(recs), i + 1, SPLICE_COPY, PrevPointsForward)
    ensures Explain(recs).tailSelfConsistent == TailChains(recs, i)
  {
    BrokenLinkReport(recs, i);
  }

  lemma MovedBlockOwner(a: seq<Record>, b: seq<Record>, c: seq<Record>, d: seq<Record>)
    requires b != [] && c != [] && Chained(a + b + c + d)
    ensures Owner(Entries(a + c + b + d), |a + c + b + d|, b[|b| - 1].hash) == Some(|a + c + b|)
  {
    var log, damaged := a + b + c + d, a + c + b + d;
    var home := |a + c + b| - 1;
    assert damaged[home] == b[|b| - 1] == log[|a + b| - 1];
    forall k | 0 <= k < home
      ensures damaged[k].hash != b[|b| - 1].hash
    {
      var origin := if k < |a| then k else if k < |a + c| then k + |b| else k - |c|;
      assert damaged[k] == log[origin];
      HashesDistinct(log, origin, |a + b| - 1);
    }
    assert Linked(log, |a + b| - 1);
    OwnedFirstAt(Entries(damaged), |damaged|, b[|b| - 1].hash, home);
  }

  // ---- statements about every file ----

  /** A record never names itself, and a record with a broken link does not name its predecessor. */
  lemma BrokenLinkTarget(recs: seq<Entry>, i: nat)
    requires i < |recs| && BreakAt(recs, i).Some? && BreakAt(recs, i).value.kind == ChainKind
    ensures var target := Owner(recs, |recs|, recs[i].value.content.prev);
            target != Some(i + 1) && (i > 0 && recs[i - 1].Some? ==> target != Some(i))
  {
    var actual := recs[i].value.content.prev;
    if Owner(recs, |recs|, actual).Some? {
      OwnerCarries(recs, |recs|, actual);
    }
    assert Depth(recs[i].value.hash) == 1 + Depth(actual);
  }

  /** A first break in the chain is always attributed: the last catch-all verdict cannot be reached. */
  lemma ChainBreakIsAttributed(recs: seq<Entry>)
    ensures var e := Explain(recs);
            e.Broken() ==> e.finding.Some? && e.finding.value.subCause != UnattributablePrevMismatch
  {
    var breaks := Breaks(recs, |recs|);
    BreaksSound(recs, |recs|);
    if breaks != [] && breaks[0].kind == ChainKind {
      assert breaks[0] in breaks;
      LinkIsAttributed(recs, breaks[0].index - 1);
      ChainIsDiagnosed(recs, breaks[0]);
    }
  }

  lemma LinkIsAttributed(recs: seq<Entry>, i: nat)
    requires i < |recs| && BreakAt(recs, i).Some? && BreakAt(recs, i).value.kind == ChainKind
    ensures CauseAt(recs, i).1 != UnattributablePrevMismatch
  {
    BrokenLinkTarget(recs, i);
    var actual := recs[i].value.content.prev;
    if Owner(recs, |recs|, actual).Some? {
      OwnerCarries(recs, |recs|, actual);
    }
  }

  lemma {:induction false} OwnerCarries(recs: seq<Entry>, n: nat, h: Stored)
    requires n <= |recs| && Owner(recs, n, h).Some?
    ensures 0 < Owner(recs, n, h).value <= n
    ensures recs[Owner(recs, n, h).value - 1].Some? && recs[Owner(recs, n, h).value - 1].value.hash == h
    ensures Truthy(h)
  {
    if Owner(recs, n - 1, h).Some? {
      OwnerCarries(recs, n - 1, h);
    }
  }

  // ---- the verifier and the explainer agree ----

  function EntryOf(line: Line): seq<Entry> {
    match line
    case Spaces => []
    case Parsed(r) => [Some(r)]
    case _ => [None]
  }

  lemma NormaliseHead(line: Line, rest: seq<Line>)
    ensures Normalise([line] + rest) == EntryOf(line) + Normalise(rest)
  {
    assert ([line] + rest)[1..] == rest;
  }

  lemma {:induction false} NormaliseConcat(p: seq<Line>, q: seq<Line>)
    ensures Normalise(p + q) == Normalise(p) + Normalise(q)
  {
    if p == [] {
      assert p + q == q;
    } else {
      var tail := p[1..];
      NormaliseConcat(tail, q);
      NormaliseHead(p[0], tail);
      NormaliseHead(p[0], tail + q);
      Associate([p[0]], tail, q);
      Associate(EntryOf(p[0]), Normalise(tail), Normalise(q));
      assert [p[0]] + tail == p;
    }
  }

  lemma {:induction false} LeadingIgnored(file: seq<Line>)
    ensures Normalise(DropLeading(file)) == Normalise(file)
  {
    if file != [] && file[0].Spaces? {
      LeadingIgnored(file[1..]);
    }
  }

  lemma {:induction false} TrailingIgnored(file: seq<Line>)
    ensures Normalise(DropTrailing(file)) == Normalise(file)
  {
    if file != [] && file[|file| - 1].Spaces? {
      TrailingIgnored(file[..|file| - 1]);
      NormaliseConcat(file[..|file| - 1], [Spaces]);
      assert file == file[..|file| - 1] + [Spaces];
      assert Normalise([Spaces]) == [];
    }
  }

  lemma {:induction false} NormaliseSolid(lines: seq<Line>)
    requires Spaces !in lines
    ensures |Normalise(lines)| == |lines|
    ensures forall i | 0 <= i < |lines| ::
              Normalise(lines)[i] == if lines[i].Parsed? then Some(lines[i].rec) else None
  {
    if lines != [] {
      NormaliseSolid(lines[1..]);
    }
  }

  lemma SolidBreak(lines: seq<Line>, i: nat)
    requires Spaces !in lines && i < |lines| && forall k | 0 <= k < i :: Good(lines, k)
    ensures |Normalise(lines)| == |lines|
    ensures BreakAt(Normalise(lines), i).None? <==> Good(lines, i)
  {
    NormaliseSolid(lines);
    var recs := Normalise(lines);
    assert i > 0 ==> Good(lines, i - 1);
    assert PrevSeen(recs, i) == CarriedHash(lines, i);
  }

  /**
   The verifier accepts exactly the unbroken files without a whitespace-only line between records,
   which only the explainer skips. On files without such a line both stop at the same place for the
   same reason, except that the verifier calls a falsy JSON value a hash mismatch, and forgets
   its count when a line is JSON `null`.
   */
  lemma VerifierAndExplainerAgree(file: seq<Line>)
    ensures var lines := Trim(file);
            var n := GoodLines(lines);
            var report, e := ReportAt(lines, n), Explain(Normalise(file));
            && (report.ok <==> !e.Broken() && Spaces !in lines)
            && (Spaces !in lines && e.Broken() ==>
                  && n < |lines|
                  && e.FirstBadIndex() == Some(n + 1)
                  && (report.checked + 1 == n + 1 <==> !lines[n].JsonNull? || n == 0)
                  && (e.breaks[0].kind == ChainKind <==> report.reason == ChainBreak)
                  && (e.breaks[0].kind == HashKind <==> report.reason == HashMismatch && !lines[n].JsonFalsy?)
                  && (e.breaks[0].kind == ParseKind <==>
                        lines[n].NotJson? || lines[n].JsonNull? || lines[n].JsonFalsy?))
  {
    var lines := Trim(file);
    var n := GoodLines(lines);
    LeadingIgnored(file);
    TrailingIgnored(DropLeading(file));
    var recs := Normalise(lines);
    if Spaces in lines {
      var i :| 0 <= i < |lines| && lines[i] == Spaces;
      assert !Good(lines, i);
    } else {
      NormaliseSolid(lines);
      forall i | 0 <= i < n
        ensures BreakAt(recs, i).None?
      {
        SolidBreak(lines, i);
      }
      if n < |lines| {
        SolidBreak(lines, n);
        FirstBreak(recs, |recs|, n);
      } else {
        NoBreaks(recs, n);
      }
    }
  }

  /** On the file of any log, chained, accepted by the verifier and unbroken for the explainer are one and the same. */
  lemma ChainedAcceptedUnbroken(log: seq<Record>)
    ensures var lines := Lines(log);
            && (Chained(log) <==> ReportAt(Trim(lines), GoodLines(Trim(lines))).ok)
            && (Chained(log) <==> !Explain(Normalise(lines)).Broken())
  {
    var lines := Lines(log);
    TrimKeepsSolid(lines);
    AcceptedIffChained(lines);
    VerifierAndExplainerAgree(lines);
    if other :| lines == Lines(other) && Chained(other) {
      assert |other| == |log| && forall i | 0 <= i < |log| :: Lines(log)[i] == Lines(other)[i];
      assert other == log;
    }
  }

  /** A whitespace-only line between two good records: the explainer accepts, the verifier does not. */
  lemma BlankLineDisagreement(a: Record, b: Record)
    requires Chained([a, b])
    ensures var file := [Parsed(a), Spaces, Parsed(b)];
            !Explain(Normalise(file)).Broken() && !ReportAt(Trim(file), GoodLines(Trim(file))).ok
  {
    var file := [Parsed(a), Spaces, Parsed(b)];
    TrimKeepsSolid(file);
    assert !Good(file, 1);
    calc {
      Normalise(file);
      [Some(a)] + Normalise(file[1..]);
      { assert file[1..][0] == Spaces && file[1..][1..] == [Parsed(b)]; }
      [Some(a)] + Normalise([Parsed(b)]);
      { assert [Parsed(b)][1..] == []; }
      [Some(a)] + [Some(b)];
    }
    var recs := [Some(a), Some(b)];
    assert Normalise(file) == recs;
    assert Linked([a, b], 0) && Linked([a, b], 1);
    IntactAt([a, b], recs, 0);
    IntactAt([a, b], recs, 1);
    NoBreaks(recs, 2);
  }
}
