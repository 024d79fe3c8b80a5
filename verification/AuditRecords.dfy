/** What the writers' log says: every record holds exactly what its caller handed in, in the order of the appends. */
module AuditRecords {
  import opened Options
  import opened AuditChain
  import opened AuditWriters

  /** One audit entry as a caller sees it. */
  datatype Note = Note(ts: string, body: string)

  /** The entry of the last call a writer made. */
  function LastBody(steps: seq<Step>, p: Pid): string {
    if steps == [] then ""
    else
      var last := steps[|steps| - 1];
      if last.Call? && last.p == p then last.body else LastBody(steps[..|steps| - 1], p)
  }

  /** How often a writer found the lock taken since it was called last. */
  function TriesSince(steps: seq<Step>, p: Pid): nat {
    if steps == [] then 0
    else
      var last := steps[|steps| - 1];
      if last.p != p then TriesSince(steps[..|steps| - 1], p)
      else if last.Call? then 0
      else TriesSince(steps[..|steps| - 1], p) + if last.Wait? || last.Steal? then 1 else 0
  }

  /** Whether a writer got the lock since it was called last. */
  predicate GotLock(steps: seq<Step>, p: Pid) {
    if steps == [] then false
    else
      var last := steps[|steps| - 1];
      if last.p != p then GotLock(steps[..|steps| - 1], p)
      else last.Lock? || (!last.Call? && GotLock(steps[..|steps| - 1], p))
  }

  /** What the callers handed in, append by append, read off the steps alone. */
  function Handed(steps: seq<Step>): seq<Note> {
    if steps == [] then []
    else
      var front, last := steps[..|steps| - 1], steps[|steps| - 1];
      Handed(front) + if last.Append? then [Note(last.ts, LastBody(front, last.p))] else []
  }

  function Noted(log: seq<Record>): (notes: seq<Note>)
    ensures |notes| == |log|
    ensures forall i | 0 <= i < |log| :: notes[i] == Note(log[i].content.ts, log[i].content.body)
  {
    seq(|log|, i requires 0 <= i < |log| => Note(log[i].content.ts, log[i].content.body))
  }

  /** A writer that is under way still has the entry of its last call, its tries, and whether it got the lock. */
  ghost predicate Remembers(steps: seq<Step>, p: Pid, phase: Phase) {
    match phase
    case Idle => true
    case Trying(body, tries) =>
      body == LastBody(steps, p) && tries == TriesSince(steps, p) && !GotLock(steps, p)
    case Inside(body, locked) => body == LastBody(steps, p) && locked == GotLock(steps, p)
    case TailRead(body, locked, _) => body == LastBody(steps, p) && locked == GotLock(steps, p)
    case Written(locked) => locked == GotLock(steps, p)
  }

  lemma RunSnoc(steps: seq<Step>)
    requires steps != [] && Run(START, steps).Some?
    ensures var front := steps[..|steps| - 1];
            Run(START, front).Some? && Next(Run(START, front).value, steps[|steps| - 1]) == Run(START, steps)
  {
    var k := |steps| - 1;
    RunSplits(START, steps, k);
    assert steps[k..] == [steps[k]] && [steps[k]][1..] == [];
    assert Run(Run(START, steps[..k]).value, [steps[k]]) == Next(Run(START, steps[..k]).value, steps[k]);
  }

  /** One step keeps what every writer remembers, and writes down what an append was handed. */
  lemma StepNotes(front: seq<Step>, last: Step, s: Sys)
    requires s.Shaped() && Next(s, last).Some? && forall p :: Remembers(front, p, s.Phase(p))
    requires Noted(s.log) == Handed(front)
    ensures var t := Next(s, last).value;
            (forall p :: Remembers(front + [last], p, t.Phase(p))) && Noted(t.log) == Handed(front + [last])
  {
    var t, steps := Next(s, last).value, front + [last];
    assert steps[..|steps| - 1] == front;
    assert Remembers(front, last.p, s.Phase(last.p));
    forall p
      ensures Remembers(steps, p, t.Phase(p))
    {
      assert Remembers(front, p, s.Phase(p));
      assert p != last.p ==> t.Phase(p) == s.Phase(p);
    }
    assert Noted(t.log) == Noted(s.log) + if last.Append? then [Note(last.ts, LastBody(front, last.p))] else [];
  }

  /**
   In every run, orderly or not, the log lists the time and the entry of every append that was made, in the order
   of the appends, and nothing else.
   */
  lemma {:induction false} RunsNoteWhatTheyAreHanded(steps: seq<Step>)
    requires Run(START, steps).Some?
    ensures Noted(Run(START, steps).value.log) == Handed(steps)
    ensures forall p :: Remembers(steps, p, Run(START, steps).value.Phase(p))
  {
    if steps != [] {
      RunSnoc(steps);
      var front, last := steps[..|steps| - 1], steps[|steps| - 1];
      RunsNoteWhatTheyAreHanded(front);
      StepNotes(front, last, Run(START, front).value);
      assert front + [last] == steps;
    }
  }

  /**
   The whole promise of the writers. Any number of them, interleaved in any way: the log verifies, its numbers are
   1, 2, 3, ..., it holds exactly what was handed in, one record per append and in that order, records are never
   removed or changed, and at most one writer is past the lock.
   */
  lemma OrderlyRunsVerify(steps: seq<Step>, k: nat)
    requires Run(START, steps).Some? && k <= |steps| && forall i | 0 <= i < |steps| :: Orderly(steps[i])
    ensures Run(START, steps[..k]).Some?
    ensures var middle, end := Run(START, steps[..k]).value, Run(START, steps).value;
            && Chained(end.log) && middle.log <= end.log && |end.log| == |Handed(steps)|
            && (forall p, q | PastLock(end.Phase(p)) && PastLock(end.Phase(q)) :: p == q)
    ensures var log := Run(START, steps).value.log;
            forall i | 0 <= i < |log| ::
              && log[i].content == Content(Some(i + 1), Handed(steps)[i].ts, Handed(steps)[i].body, HashBefore(log, i))
              && log[i].hash == Digest(log[i].content)
  {
    OrderlyRunsChain(steps, k);
    RunsNoteWhatTheyAreHanded(steps);
    var log := Run(START, steps).value.log;
    forall i | 0 <= i < |log|
      ensures log[i].content == Content(Some(i + 1), Handed(steps)[i].ts, Handed(steps)[i].body, HashBefore(log, i))
      ensures log[i].hash == Digest(log[i].content)
    {
      assert Linked(log, i);
      assert Noted(log)[i] == Handed(steps)[i];
    }
  }

  /** A writer gives up on the lock after exactly a hundred tries since its call, and does not try once more. */
  lemma GivesUpAfterAHundredTries(steps: seq<Step>, step: Step)
    requires Run(START, steps).Some? && Next(Run(START, steps).value, step).Some?
    ensures step.GiveUp? ==> TriesSince(steps, step.p) == 100
    ensures step.Lock? || step.Wait? || step.Steal? ==> TriesSince(steps, step.p) < 100
  {
    RunsNoteWhatTheyAreHanded(steps);
    var s := Run(START, steps).value;
    assert Remembers(steps, step.p, s.Phase(step.p));
  }

  /** A writer takes the lock file away exactly when it made it; one that gave up leaves the lock to its owner. */
  lemma OnlyTheLockerUnlocks(steps: seq<Step>, step: Step)
    requires Run(START, steps).Some? && step.Release? && Next(Run(START, steps).value, step).Some?
    ensures Next(Run(START, steps).value, step).value.lock ==
            if GotLock(steps, step.p) then None else Run(START, steps).value.lock
  {
    RunsNoteWhatTheyAreHanded(steps);
    var s := Run(START, steps).value;
    assert Remembers(steps, step.p, s.Phase(step.p));
  }

  lemma AppendAndRelease(s: Sys, p: Pid, ts: string, size: nat)
    requires s.Shaped() && s.Phase(p).TailRead? && s.Phase(p).locked
    ensures var t := Run(s, [Append(p, ts, size)] + ([Release(p)] + []));
            && t.Some? && t.value.lock.None? && t.value.Phase(p).Idle?
            && t.value.log == s.log + [NewRecord(s.Phase(p).at, ts, s.Phase(p).body)]
  {
    var s1 := Next(s, Append(p, ts, size)).value;
    RunCons(s, Append(p, ts, size), [Release(p)] + []);
    RunCons(s1, Release(p), []);
  }

  /** An idle writer that finds the lock free gets its entry written, and leaves the lock free again. */
  lemma UncontendedWriteCompletes(s: Sys, p: Pid, body: string, ts: string, size: nat)
    requires Inv(s) && s.lock.None? && s.Phase(p).Idle?
    ensures var before := [Call(p, body)] + ([Lock(p)] + ([Read(p)] + []));
            var steps := before + ([Append(p, ts, size)] + ([Release(p)] + []));
            var c := Content(Some(|s.log| + 1), ts, body, LastHash(s.log));
            && Run(s, steps).Some?
            && var t := Run(s, steps).value;
               t.log == s.log + [Record(c, Digest(c))] && t.lock.None? && t.Phase(p).Idle?
  {
    LockAndRead(s, p, body);
    var first := [Call(p, body)] + ([Lock(p)] + ([Read(p)] + []));
    RunConcat(s, first, [Append(p, ts, size)] + ([Release(p)] + []));
    AppendAndRelease(Run(s, first).value, p, ts, size);
    assert AfterRead(s, p) == Memory(|s.log|, LastHash(s.log)) by {
      if s.log != [] {
        assert Linked(s.log, |s.log| - 1);
      }
    }
  }

  /** A line that fits the window shows its number and hash to every writer, a longer one hides it from the others. */
  lemma LongLineHidesTheTail(s: Sys, step: Step, p: Pid)
    requires s.Shaped() && step.Append? && step.p != p && Next(s, step).Some?
    ensures var t := Next(s, step).value;
            var last := t.log[|t.log| - 1];
            AfterRead(t, p) == if step.size <= 65536 then Memory(last.content.num.value, last.hash) else s.Recall(p)
  {
  }

  /** After a last line without a number the numbers start over. */
  lemma NumbersStartOver(s: Sys, p: Pid, ts: string, size: nat)
    requires s.Shaped() && s.Phase(p).Inside? && s.log != [] && s.sizes[|s.log| - 1] <= 65536
    requires s.log[|s.log| - 1].content.num.None? && Truthy(s.log[|s.log| - 1].hash)
    ensures var t := Run(s, [Read(p)] + ([Append(p, ts, size)] + []));
            && t.Some? && |t.value.log| == |s.log| + 1 && t.value.log[|s.log|].content.num == Some(1)
            && t.value.log[|s.log|].content.prev == s.log[|s.log| - 1].hash
  {
    RunCons(s, Read(p), [Append(p, ts, size)] + []);
    RunCons(Next(s, Read(p)).value, Append(p, ts, size), []);
  }

  /** Whatever its line's length, the writer that appended last reads on from its own record, with its number. */
  lemma AppenderStaysCurrent(s: Sys, step: Step)
    requires s.Shaped() && step.Append? && Next(s, step).Some?
    ensures var t := Next(s, step).value;
            var last := t.log[|t.log| - 1];
            AfterRead(t, step.p) == Memory(last.content.num.value, last.hash)
  {
  }
}
