/**
 Many processes appending to one audit log (`auditWrite` under `withAuditLock`), as a state
 machine over the steps between file-system calls.

 The two exceptional steps are part of the machine: a waiter that finds a stale lock removes
 it, and a waiter that used up its tries goes on without the lock. They are the source of forks.
 */
module AuditWriters {
  import opened Options
  import opened AuditChain
  import opened AuditDiagnosis
  import opened AuditVerify
  import opened AuditExplain

  type Pid = nat

  const MAX_TRIES := 100
  const TAIL_WINDOW := 65536

  /** The per-process `{ seq, prev }` that is used only when the tail is unreadable. */
  datatype Memory = Memory(num: int, prev: Stored)

  datatype Phase =
    | Idle
    | Trying(body: string, tries: nat)
    | Inside(body: string, locked: bool)
    | TailRead(body: string, locked: bool, at: Memory)
    | Written(locked: bool)

  /** `sizes[i]` is the length in bytes of line `i`, newline included. */
  datatype Sys = Sys(
    log: seq<Record>, sizes: seq<nat>, lock: Option<Pid>, phases: map<Pid, Phase>, memory: map<Pid, Memory>)
  {
    function Phase(p: Pid): Phase { if p in phases then phases[p] else Idle }
    function Set(p: Pid, phase: Phase): Sys { this.(phases := phases[p := phase]) }
    function Recall(p: Pid): Memory { if p in memory then memory[p] else Memory(0, Empty) }
    ghost predicate Shaped() { |sizes| == |log| }
  }

  const START := Sys([], [], None, map[], map[])

  datatype Step =
    | Call(p: Pid, body: string)
    | Lock(p: Pid)
    | Wait(p: Pid)                          // the lock file exists: sleep and try again
    | Steal(p: Pid)                         // the lock file exists and looks stale: unlink it, then sleep
    | GiveUp(p: Pid)                        // out of tries: go on without the lock
    | Read(p: Pid)
    | Append(p: Pid, ts: string, size: nat)
    | Release(p: Pid)

  /** The last complete record in the window at the end of the file. */
  function Tail(s: Sys): Option<Record>
    requires s.Shaped()
  {
    if s.log == [] || s.sizes[|s.log| - 1] > TAIL_WINDOW then None else Some(s.log[|s.log| - 1])
  }

  /** What a writer chains on from after reading the tail. */
  function AfterRead(s: Sys, p: Pid): Memory
    requires s.Shaped()
  {
    match Tail(s)
    case None => s.Recall(p)
    case Some(r) => Memory(if r.content.num.Some? then r.content.num.value else 0,
                           if Truthy(r.hash) then r.hash else Empty)
  }

  function NewRecord(at: Memory, ts: string, body: string): Record {
    var c := Content(Some(at.num + 1), ts, body, at.prev);
    Record(c, Digest(c))
  }

  /** One step, or `None` when the step is not enabled. */
  function Next(s: Sys, step: Step): (t: Option<Sys>)
    requires s.Shaped()
    ensures t.Some? ==> t.value.Shaped()
  {
    match (step, s.Phase(step.p))
    case (Call(p, body), Idle) => Some(s.Set(p, Trying(body, 0)))
    case (Lock(p), Trying(body, tries)) =>
      if tries < MAX_TRIES && s.lock.None? then Some(s.(lock := Some(p)).Set(p, Inside(body, true))) else None
    case (Wait(p), Trying(body, tries)) =>
      if tries < MAX_TRIES && s.lock.Some? then Some(s.Set(p, Trying(body, tries + 1))) else None
    case (Steal(p), Trying(body, tries)) =>
      if tries < MAX_TRIES && s.lock.Some? then Some(s.(lock := None).Set(p, Trying(body, tries + 1))) else None
    case (GiveUp(p), Trying(body, tries)) =>
      if tries == MAX_TRIES then Some(s.Set(p, Inside(body, false))) else None
    case (Read(p), Inside(body, locked)) => Some(s.Set(p, TailRead(body, locked, AfterRead(s, p))))
    case (Append(p, ts, size), TailRead(body, locked, at)) =>
      var r := NewRecord(at, ts, body);
      Some(s.(log := s.log + [r], sizes := s.sizes + [size],
              memory := s.memory[p := Memory(at.num + 1, r.hash)]).Set(p, Written(locked)))
    case (Release(p), Written(locked)) =>
      Some((if locked then s.(lock := None) else s).Set(p, Idle))
    case _ => None
  }

  /** The whole run from `s`, or `None` when some step is not enabled. */
  function Run(s: Sys, steps: seq<Step>): (t: Option<Sys>)
    requires s.Shaped()
    ensures t.Some? ==> t.value.Shaped()
    decreases |steps|
  {
    if steps == [] then Some(s)
    else match Next(s, steps[0])
      case None => None
      case Some(t) => Run(t, steps[1..])
  }

  function Appends(steps: seq<Step>): nat {
    if steps == [] then 0 else Appends(steps[1..]) + if steps[0].Append? then 1 else 0
  }

  /** No stale lock is stolen, no waiter runs out of tries, and the line fits the tail window. */
  predicate Orderly(step: Step) {
    !step.Steal? && !step.GiveUp? && (step.Append? ==> step.size <= 65536)
  }

  ghost predicate Numbered(log: seq<Record>) {
    forall i | 0 <= i < |log| :: log[i].content.num == Some(i + 1)
  }

  predicate PastLock(phase: Phase) {
    phase.Inside? || phase.TailRead? || phase.Written?
  }

  ghost predicate Inv(s: Sys) {
    && s.Shaped()
    && Chained(s.log)
    && Numbered(s.log)
    && (forall i | 0 <= i < |s.sizes| :: s.sizes[i] <= TAIL_WINDOW)
    && (s.log == [] ==> s.memory == map[])
    && (forall p | p in s.phases && PastLock(s.phases[p]) :: s.phases[p].locked && s.lock == Some(p))
    && (forall p | p in s.phases && s.phases[p].TailRead? :: s.phases[p].at == Memory(|s.log|, LastHash(s.log)))
  }

  lemma OrderlyStepKeepsInv(s: Sys, step: Step)
    requires Inv(s) && Orderly(step) && Next(s, step).Some?
    ensures Inv(Next(s, step).value)
    ensures var t := Next(s, step).value;
            if step.Append? then
              var c := Content(Some(|s.log| + 1), step.ts, s.Phase(step.p).body, LastHash(s.log));
              t.log == s.log + [Record(c, Digest(c))]
            else t.log == s.log
  {
    var t := Next(s, step).value;
    match step
    case Read(p) =>
      if s.log != [] {
        assert Linked(s.log, |s.log| - 1);
      }
    case Append(p, ts, size) =>
      assert s.Phase(p).TailRead?;
      var r := NewRecord(s.Phase(p).at, ts, s.Phase(p).body);
      AppendChains(s.log, r);
    case _ =>
  }

  lemma {:induction false} OrderlyRunKeepsInv(s: Sys, steps: seq<Step>)
    requires Inv(s) && Run(s, steps).Some? && forall i | 0 <= i < |steps| :: Orderly(steps[i])
    ensures Inv(Run(s, steps).value)
    ensures s.log <= Run(s, steps).value.log
    ensures |Run(s, steps).value.log| == |s.log| + Appends(steps)
    decreases |steps|
  {
    if steps != [] {
      OrderlyStepKeepsInv(s, steps[0]);
      OrderlyRunKeepsInv(Next(s, steps[0]).value, steps[1..]);
    }
  }

  /**
   Any number of writers, interleaved in any way: the log always verifies, its numbers are 1, 2, 3, ...,
   every append adds one record, records are never removed or changed, and at most one writer is past the lock.
   */
  lemma OrderlyRunsChain(steps: seq<Step>, k: nat)
    requires Run(START, steps).Some? && k <= |steps| && forall i | 0 <= i < |steps| :: Orderly(steps[i])
    ensures Run(START, steps[..k]).Some?
    ensures var middle, end := Run(START, steps[..k]).value, Run(START, steps).value;
            && Chained(end.log) && Numbered(end.log)
            && middle.log <= end.log && |end.log| == Appends(steps)
            && (forall p, q | PastLock(end.Phase(p)) && PastLock(end.Phase(q)) :: p == q)
  {
    RunSplits(START, steps, k);
    OrderlyRunKeepsInv(START, steps);
    LogsGrow(steps, k);
    AtMostOneInside(Run(START, steps).value);
  }

  lemma LogsGrow(steps: seq<Step>, k: nat)
    requires Run(START, steps).Some? && k <= |steps| && forall i | 0 <= i < |steps| :: Orderly(steps[i])
    requires Run(START, steps[..k]).Some?
             && Run(Run(START, steps[..k]).value, steps[k..]) == Run(START, steps)
    ensures Run(START, steps[..k]).value.log <= Run(START, steps).value.log
  {
    OrderlyRunKeepsInv(START, steps[..k]);
    OrderlyRunKeepsInv(Run(START, steps[..k]).value, steps[k..]);
  }

  lemma AtMostOneInside(s: Sys)
    requires Inv(s)
    ensures forall p, q | PastLock(s.Phase(p)) && PastLock(s.Phase(q)) :: p == q
  {
  }

  lemma {:induction false} RunSplits(s: Sys, steps: seq<Step>, k: nat)
    requires s.Shaped() && Run(s, steps).Some? && k <= |steps|
    ensures Run(s, steps[..k]).Some?
    ensures Run(Run(s, steps[..k]).value, steps[k..]) == Run(s, steps)
    decreases k
  {
    if k > 0 {
      RunSplits(Next(s, steps[0]).value, steps[1..], k - 1);
      assert steps[..k][1..] == steps[1..][..k - 1];
      assert steps[1..][k - 1..] == steps[k..];
    } else {
      assert steps[k..] == steps;
    }
  }

  /** A writer chains on from the true tail exactly when the last line fits the window or it wrote that line itself. */
  lemma ReadIsCurrentIff(s: Sys, p: Pid)
    requires s.Shaped() && Chained(s.log)
    ensures AfterRead(s, p).prev == LastHash(s.log) <==>
            (s.log != [] && s.sizes[|s.log| - 1] <= 65536) || s.Recall(p).prev == LastHash(s.log)
  {
    if s.log != [] {
      assert Linked(s.log, |s.log| - 1);
    }
  }

  /** Whatever happened before, an append keeps a verified log verified exactly when its tail is still current. */
  lemma AppendVerifiesIff(s: Sys, step: Step)
    requires s.Shaped() && Chained(s.log) && step.Append? && Next(s, step).Some?
    ensures Chained(Next(s, step).value.log) <==> s.Phase(step.p).at.prev == LastHash(s.log)
  {
    assert s.Phase(step.p).TailRead?;
    AppendChains(s.log, NewRecord(s.Phase(step.p).at, step.ts, s.Phase(step.p).body));
  }

  /** Two records that both chain on from the end of one log. */
  lemma TwoFromOneTail(log: seq<Record>, x: Record, y: Record)
    requires Chained(log) && SelfHashed(x) && SelfHashed(y)
    requires x.content.prev == LastHash(log) && y.content.prev == LastHash(log)
    ensures !Chained(log + [x] + [y])
    ensures Reports(Explain(Normalise(Lines(log + [x] + [y]))), |log| + 2, SPLICE_COPY,
                    if log == [] then FreshHeadMidFile else ForkDuplicatePrev)
  {
    AppendChains(log, x);
    AppendChains(log, y);
    AppendChains(log + [x], y);
    DepthIsPosition(log + [x], |log|);
    FileIsLog(log + [x] + [y]);
    if log == [] {
      assert log + [x] == [x] && log + [y] == [y];
      ConcatenationIsFreshHead(Lines(log + [x] + [y]), [x], [y]);
    } else {
      DepthIsPosition(log, |log| - 1);
      ForkIsFork(Lines(log + [x] + [y]), log, [x], [y]);
    }
  }

  /**
   Two writers past the lock that read one tail break the chain, in whichever order they append, whatever and
   whenever they write. The explainer names the place: a fork, or in an empty file a second fresh head.
   */
  lemma SharedTailForks(s: Sys, first: Step, second: Step)
    requires s.Shaped() && Chained(s.log)
    requires first.Append? && second.Append? && first.p != second.p
    requires s.Phase(first.p).TailRead? && s.Phase(second.p).TailRead?
    requires s.Phase(first.p).at.prev == s.Phase(second.p).at.prev == LastHash(s.log)
    ensures Run(s, [first, second]).Some?
    ensures var log := Run(s, [first, second]).value.log;
            && !Chained(log)
            && Reports(Explain(Normalise(Lines(log))), |s.log| + 2, SPLICE_COPY,
                       if s.log == [] then FreshHeadMidFile else ForkDuplicatePrev)
  {
    var x := NewRecord(s.Phase(first.p).at, first.ts, s.Phase(first.p).body);
    var y := NewRecord(s.Phase(second.p).at, second.ts, s.Phase(second.p).body);
    TwoAppends(s, first, second, x, y);
    TwoFromOneTail(s.log, x, y);
  }

  lemma TwoAppends(s: Sys, first: Step, second: Step, x: Record, y: Record)
    requires s.Shaped() && first.Append? && second.Append? && first.p != second.p
    requires s.Phase(first.p).TailRead? && s.Phase(second.p).TailRead?
    requires x == NewRecord(s.Phase(first.p).at, first.ts, s.Phase(first.p).body)
    requires y == NewRecord(s.Phase(second.p).at, second.ts, s.Phase(second.p).body)
    ensures Run(s, [first, second]).Some? && Run(s, [first, second]).value.log == s.log + [x] + [y]
  {
    var t := Next(s, first).value;
    assert t.Phase(second.p) == s.Phase(second.p);
    assert [first, second][1..] == [second] && [second][1..] == [];
    assert Run(s, [first, second]) == Run(t, [second]) == Next(t, second);
  }

  lemma {:induction false} RunConcat(s: Sys, a: seq<Step>, b: seq<Step>)
    requires s.Shaped() && Run(s, a).Some?
    ensures Run(s, a + b) == Run(Run(s, a).value, b)
    decreases |a|
  {
    if a == [] {
      assert a + b == b;
    } else {
      RunConcat(Next(s, a[0]).value, a[1..], b);
      assert (a + b)[1..] == a[1..] + b;
    }
  }

  lemma RunCons(s: Sys, step: Step, rest: seq<Step>)
    requires s.Shaped() && Next(s, step).Some?
    ensures Run(s, [step] + rest) == Run(Next(s, step).value, rest)
  {
    assert ([step] + rest)[1..] == rest;
  }

  /** `t` differs from `s` only in the lock and in writer `p`, who has read the tail under the lock. */
  ghost predicate OneMoreReader(s: Sys, t: Sys, p: Pid, body: string)
    requires s.Shaped()
  {
    && t.log == s.log && t.sizes == s.sizes && t.memory == s.memory && t.lock == Some(p)
    && t.Phase(p) == TailRead(body, true, AfterRead(s, p))
    && forall o | o != p :: t.Phase(o) == s.Phase(o)
  }

  lemma LockAndRead(s: Sys, p: Pid, body: string)
    requires s.Shaped() && s.lock.None? && s.Phase(p).Idle?
    ensures var t := Run(s, [Call(p, body)] + ([Lock(p)] + ([Read(p)] + [])));
            t.Some? && OneMoreReader(s, t.value, p, body)
  {
    var s1 := Next(s, Call(p, body)).value;
    var s2 := Next(s1, Lock(p)).value;
    RunCons(s, Call(p, body), [Lock(p)] + ([Read(p)] + []));
    RunCons(s1, Lock(p), [Read(p)] + []);
    RunCons(s2, Read(p), []);
  }

  lemma StealAndRead(s: Sys, p: Pid, body: string)
    requires s.Shaped() && s.lock.Some? && s.Phase(p).Idle?
    ensures var t := Run(s, [Call(p, body)] + ([Steal(p)] + ([Lock(p)] + ([Read(p)] + []))));
            t.Some? && OneMoreReader(s, t.value, p, body)
  {
    var s1 := Next(s, Call(p, body)).value;
    var s2 := Next(s1, Steal(p)).value;
    var s3 := Next(s2, Lock(p)).value;
    RunCons(s, Call(p, body), [Steal(p)] + ([Lock(p)] + ([Read(p)] + [])));
    RunCons(s1, Steal(p), [Lock(p)] + ([Read(p)] + []));
    RunCons(s2, Lock(p), [Read(p)] + []);
    RunCons(s3, Read(p), []);
  }

  /** From any orderly state, one stolen lock puts two writers on one tail. */
  lemma StealSharesTail(s: Sys, p: Pid, q: Pid, b: string, c: string)
    requires Inv(s) && s.lock.None? && s.Phase(p).Idle? && s.Phase(q).Idle? && p != q
    ensures var steps := [Call(p, b), Lock(p), Read(p)] + [Call(q, c), Steal(q), Lock(q), Read(q)];
            Run(s, steps).Some? && var t := Run(s, steps).value;
            && t.log == s.log
            && t.Phase(p).TailRead? && t.Phase(p).body == b
            && t.Phase(q).TailRead? && t.Phase(q).body == c
            && t.Phase(p).at.prev == t.Phase(q).at.prev == LastHash(t.log)
  {
    var first, second := [Call(p, b), Lock(p), Read(p)], [Call(q, c), Steal(q), Lock(q), Read(q)];
    LockAndRead(s, p, b);
    assert [Call(p, b)] + ([Lock(p)] + ([Read(p)] + [])) == first;
    var t := Run(s, first).value;
    StealAndRead(t, q, c);
    assert [Call(q, c)] + ([Steal(q)] + ([Lock(q)] + ([Read(q)] + []))) == second;
    RunConcat(s, first, second);
    ReadIsCurrentIff(s, p);
    ReadIsCurrentIff(t, q);
    SecondReaderSharesTail(s, t, Run(t, second).value, p, q, b, c);
  }

  lemma SecondReaderSharesTail(s: Sys, t: Sys, u: Sys, p: Pid, q: Pid, b: string, c: string)
    requires s.Shaped() && t.Shaped() && p != q && Chained(s.log)
    requires OneMoreReader(s, t, p, b) && OneMoreReader(t, u, q, c)
    requires AfterRead(s, p).prev == LastHash(s.log) && AfterRead(t, q).prev == LastHash(t.log)
    ensures u.log == s.log
    ensures u.Phase(p).TailRead? && u.Phase(p).body == b && u.Phase(q).TailRead? && u.Phase(q).body == c
    ensures u.Phase(p).at.prev == u.Phase(q).at.prev == LastHash(u.log)
  {
  }
}
