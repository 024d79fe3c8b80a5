/** The verifier `auditVerify`: one walk over the lines that stops at the first bad one. */
module AuditVerify {
  import opened Options
  import opened AuditChain

  /** One non-empty line of the log file, as `JSON.parse` sees it. */
  datatype Line =
    | Spaces       // only whitespace
    | NotJson
    | JsonNull
    | JsonFalsy    // 0, false or ""
    | Parsed(rec: Record)

  datatype Reason = NoReason | CorruptJson | HashMismatch | ChainBreak | Thrown

  datatype Report = Report(ok: bool, checked: nat, brokenAt: Option<int>, reason: Reason)

  function DropLeading(lines: seq<Line>): seq<Line> {
    if lines != [] && lines[0].Spaces? then DropLeading(lines[1..]) else lines
  }

  function DropTrailing(lines: seq<Line>): seq<Line> {
    if lines != [] && lines[|lines| - 1].Spaces? then DropTrailing(lines[..|lines| - 1]) else lines
  }

  /** The file text is trimmed before it is split, so blank lines go at both ends only. */
  function Trim(lines: seq<Line>): seq<Line> {
    DropTrailing(DropLeading(lines))
  }

  /** The hash the walk carries when it reaches line `i`, all lines before it being good. */
  function CarriedHash(lines: seq<Line>, i: nat): Stored
    requires i <= |lines|
  {
    if i == 0 || !lines[i - 1].Parsed? then Empty else lines[i - 1].rec.hash
  }

  predicate Good(lines: seq<Line>, i: nat)
    requires i < |lines|
  {
    lines[i].Parsed? && SelfHashed(lines[i].rec) && lines[i].rec.content.prev == CarriedHash(lines, i)
  }

  /** The number of good lines before the first bad one. */
  ghost function GoodLines(lines: seq<Line>): (n: nat)
    ensures n <= |lines|
    ensures forall i | 0 <= i < n :: Good(lines, i)
    ensures n < |lines| ==> !Good(lines, n)
  {
    if forall i | 0 <= i < |lines| :: Good(lines, i) then |lines|
    else FirstBad(lines, 0)
  }

  ghost function FirstBad(lines: seq<Line>, from: nat): (n: nat)
    requires from <= |lines| && exists i | from <= i < |lines| :: !Good(lines, i)
    ensures from <= n < |lines| && !Good(lines, n)
    ensures forall i | from <= i < n :: Good(lines, i)
    decreases |lines| - from
  {
    if !Good(lines, from) then from else FirstBad(lines, from + 1)
  }

  lemma WalkStops(lines: seq<Line>, n: nat)
    requires n <= |lines| && forall i | 0 <= i < n :: Good(lines, i)
    requires n < |lines| ==> !Good(lines, n)
    ensures GoodLines(lines) == n
  {
    assert GoodLines(lines) >= n;
  }

  /** The report of a walk that found `n` good lines. */
  ghost function ReportAt(lines: seq<Line>, n: nat): Report
    requires n <= |lines|
  {
    if n == |lines| then Report(true, n, None, NoReason)
    else match lines[n]
      case Spaces => Report(false, n, Some(n + 1), CorruptJson)
      case NotJson => Report(false, n, Some(n + 1), CorruptJson)
      case JsonNull => Report(false, 0, None, Thrown)
      case JsonFalsy => Report(false, n, None, HashMismatch)
      case Parsed(r) =>
        Report(false, n, r.content.num, if SelfHashed(r) then ChainBreak else HashMismatch)
  }

  /** Reading a field of a parsed `null` throws, and the outer handler reports nothing checked. */
  method Verify(file: seq<Line>) returns (report: Report)
    ensures report == ReportAt(Trim(file), GoodLines(Trim(file)))
  {
    var lines := Trim(file);
    var prev := Empty;
    for i := 0 to |lines|
      invariant prev == CarriedHash(lines, i)
      invariant forall j | 0 <= j < i :: Good(lines, j)
    {
      if !Good(lines, i) {
        WalkStops(lines, i);
      }
      match lines[i] {
        case Spaces => return Report(false, i, Some(i + 1), CorruptJson);
        case NotJson => return Report(false, i, Some(i + 1), CorruptJson);
        case JsonNull => return Report(false, 0, None, Thrown);
        case JsonFalsy => return Report(false, i, None, HashMismatch);
        case Parsed(r) =>
          if r.hash != Digest(r.content) {
            return Report(false, i, r.content.num, HashMismatch);
          }
          if r.content.prev != prev {
            return Report(false, i, r.content.num, ChainBreak);
          }
          prev := r.hash;
      }
    }
    WalkStops(lines, |lines|);
    return Report(true, |lines|, None, NoReason);
  }

  /** The file that holds exactly these records. */
  function Lines(log: seq<Record>): (lines: seq<Line>)
    ensures |lines| == |log| && forall i | 0 <= i < |log| :: lines[i] == Parsed(log[i])
  {
    seq(|log|, i requires 0 <= i < |log| => Parsed(log[i]))
  }

  lemma TrimKeepsSolid(lines: seq<Line>)
    requires lines != [] ==> !lines[0].Spaces? && !lines[|lines| - 1].Spaces?
    ensures Trim(lines) == lines
  {
  }

  /** What verification means: the file is accepted exactly when its records form a chain. */
  lemma AcceptedIffChained(file: seq<Line>)
    ensures GoodLines(Trim(file)) == |Trim(file)| <==> exists log :: Trim(file) == Lines(log) && Chained(log)
  {
    var lines := Trim(file);
    if GoodLines(lines) == |lines| {
      assert forall i | 0 <= i < |lines| :: Good(lines, i);
      var log := seq(|lines|, i requires 0 <= i < |lines| && Good(lines, i) => lines[i].rec);
      forall i | 0 <= i < |lines|
        ensures lines[i] == Lines(log)[i]
      {
        assert Good(lines, i) && log[i] == lines[i].rec;
      }
      assert lines == Lines(log);
      forall i | 0 <= i < |log|
        ensures Linked(log, i)
      {
        assert Good(lines, i);
      }
    }
    if log :| lines == Lines(log) && Chained(log) {
      forall i | 0 <= i < |lines|
        ensures Good(lines, i)
      {
        assert Linked(log, i);
      }
    }
  }
}
