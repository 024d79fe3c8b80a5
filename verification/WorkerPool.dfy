/**
 The bounded worker pool of `runSubtasks`: workers share one counter and write into one array of results.
 The steps are what each worker does between two of its awaits.
 */
module WorkerPool {
  import opened Options

  datatype Worker = Ready | Busy(idx: nat) | Stopped

  /** `claims` records who claimed which index, oldest first. */
  datatype Pool<Out> = Pool(
    next: nat, results: seq<Option<Out>>, workers: seq<Worker>, claims: seq<nat>)

  datatype Step = Claim(w: nat) | Finish(w: nat) | Stop(w: nat)

  function Fresh<Out>(tasks: nat, pool: nat): Pool<Out> {
    Pool(0, seq(tasks, i => None), seq(pool, i => Ready), [])
  }

  /** One step of one worker; `run` is the outcome of each task's sub-loop. */
  function Next<Out>(s: Pool<Out>, run: nat -> Out, step: Step): Option<Pool<Out>>
  {
    if step.w >= |s.workers| then None
    else
      var worker := s.workers[step.w];
      match step
      case Claim(w) =>
        if worker != Ready || s.next >= |s.results| then None
        else Some(s.(next := s.next + 1, workers := s.workers[w := Busy(s.next)], claims := s.claims + [w]))
      case Finish(w) =>
        if !worker.Busy? || worker.idx >= |s.results| then None
        else Some(s.(results := s.results[worker.idx := Some(run(worker.idx))], workers := s.workers[w := Ready]))
      case Stop(w) =>
        if worker != Ready || s.next < |s.results| then None
        else Some(s.(workers := s.workers[w := Stopped]))
  }

  ghost predicate Inv<Out(!new)>(s: Pool<Out>, run: nat -> Out, tasks: nat, pool: nat) {
    && |s.results| == tasks && |s.workers| == pool && s.next <= tasks
    && |s.claims| == s.next
    && (forall w | 0 <= w < pool && s.workers[w].Busy? ::
          s.workers[w].idx < s.next && s.claims[s.workers[w].idx] == w && s.results[s.workers[w].idx] == None)
    && (forall i | 0 <= i < tasks :: s.results[i].Some? ==> i < s.next && s.results[i] == Some(run(i)))
    && (forall i | 0 <= i < s.next ::
          s.claims[i] < pool && (s.results[i] == None ==> s.workers[s.claims[i]] == Busy(i)))
    && (forall w | 0 <= w < pool && s.workers[w].Stopped? :: s.next == tasks)
  }

  function Run<Out>(s: Pool<Out>, run: nat -> Out, steps: seq<Step>): Option<Pool<Out>>
    decreases |steps|
  {
    if steps == [] then Some(s)
    else match Next(s, run, steps[0])
      case None => None
      case Some(t) => Run(t, run, steps[1..])
  }

  lemma StepKeepsInv<Out(!new)>(s: Pool<Out>, run: nat -> Out, tasks: nat, pool: nat, step: Step)
    requires Inv(s, run, tasks, pool) && Next(s, run, step).Some?
    ensures Inv(Next(s, run, step).value, run, tasks, pool)
    ensures s.claims <= Next(s, run, step).value.claims
  {
    var t := Next(s, run, step).value;
    forall i | 0 <= i < t.next
      ensures t.claims[i] < pool && (t.results[i] == None ==> t.workers[t.claims[i]] == Busy(i))
    {
      if i < s.next {
        assert t.claims[i] == s.claims[i];
      }
    }
  }

  lemma {:induction false} RunKeepsInv<Out(!new)>(s: Pool<Out>, run: nat -> Out, tasks: nat, pool: nat,
                                                  steps: seq<Step>)
    requires Inv(s, run, tasks, pool) && Run(s, run, steps).Some?
    ensures Inv(Run(s, run, steps).value, run, tasks, pool)
    ensures s.claims <= Run(s, run, steps).value.claims
    decreases |steps|
  {
    if steps != [] {
      StepKeepsInv(s, run, tasks, pool, steps[0]);
      RunKeepsInv(Next(s, run, steps[0]).value, run, tasks, pool, steps[1..]);
    }
  }

  /** How many sub-loops are in flight. */
  function InFlight(workers: seq<Worker>): nat {
    if workers == [] then 0 else InFlight(workers[1..]) + if workers[0].Busy? then 1 else 0
  }

  lemma {:induction false} InFlightBounded(workers: seq<Worker>)
    ensures InFlight(workers) <= |workers|
  {
    if workers != [] {
      InFlightBounded(workers[1..]);
    }
  }

  /**
   Every interleaving: each index is claimed by one worker once and claims never change, no two workers run
   one index, at most `pool` sub-loops are in flight, finished indices hold their own task's outcome, and
   when a worker has stopped and none is busy every result is in.
   */
  lemma PoolIsExact<Out(!new)>(run: nat -> Out, tasks: nat, pool: nat, steps: seq<Step>)
    requires Run(Fresh(tasks, pool), run, steps).Some?
    ensures var s := Run(Fresh(tasks, pool), run, steps).value;
            && |s.results| == tasks && |s.workers| == pool && |s.claims| == s.next <= tasks
            && (forall v, w | 0 <= v < w < pool && s.workers[v].Busy? && s.workers[w].Busy? ::
                  s.workers[v].idx != s.workers[w].idx)
            && InFlight(s.workers) <= pool
            && (forall i | 0 <= i < tasks :: s.results[i].Some? ==> s.results[i] == Some(run(i)))
            && ((exists w :: 0 <= w < pool && s.workers[w].Stopped?)
                && (forall w | 0 <= w < pool :: !s.workers[w].Busy?)
                ==> forall i | 0 <= i < tasks :: s.results[i] == Some(run(i)))
  {
    RunKeepsInv(Fresh(tasks, pool), run, tasks, pool, steps);
    var s := Run(Fresh(tasks, pool), run, steps).value;
    InFlightBounded(s.workers);
  }

  /** Steps left at most: two per unclaimed task, one per sub-loop in flight and one per live worker. */
  function Remaining<Out>(s: Pool<Out>): int {
    2 * (|s.results| - s.next) + InFlight(s.workers) + Running(s.workers)
  }

  function Running(workers: seq<Worker>): nat {
    if workers == [] then 0 else Running(workers[1..]) + if workers[0].Stopped? then 0 else 1
  }

  lemma {:induction false} CountsUpdate(workers: seq<Worker>, w: nat, worker: Worker)
    requires w < |workers|
    ensures InFlight(workers[w := worker]) == InFlight(workers)
              + (if worker.Busy? then 1 else 0) - (if workers[w].Busy? then 1 else 0)
    ensures Running(workers[w := worker]) == Running(workers)
              + (if worker.Stopped? then 0 else 1) - (if workers[w].Stopped? then 0 else 1)
  {
    if w > 0 {
      CountsUpdate(workers[1..], w - 1, worker);
      assert workers[w := worker][1..] == workers[1..][w - 1 := worker];
    } else {
      assert workers[w := worker][1..] == workers[1..];
    }
  }

  /** Every step brings the pool closer to its end, and while a worker has not stopped some step is possible. */
  lemma PoolTerminates<Out(!new)>(s: Pool<Out>, run: nat -> Out, tasks: nat, pool: nat)
    requires Inv(s, run, tasks, pool)
    ensures forall step | Next(s, run, step).Some? :: 0 <= Remaining(Next(s, run, step).value) < Remaining(s)
    ensures (exists w :: 0 <= w < pool && !s.workers[w].Stopped?) ==> exists step :: Next(s, run, step).Some?
  {
    forall step | Next(s, run, step).Some?
      ensures 0 <= Remaining(Next(s, run, step).value) < Remaining(s)
    {
      CountsUpdate(s.workers, step.w, Next(s, run, step).value.workers[step.w]);
    }
    if w :| 0 <= w < pool && !s.workers[w].Stopped? {
      var step := if s.workers[w].Busy? then Finish(w) else if s.next < tasks then Claim(w) else Stop(w);
      assert Next(s, run, step).Some?;
    }
  }

  /** The pool under any scheduler: whichever live worker goes next, it ends with every outcome in its place. */
  method RunSubtasks<Out(!new, 0)>(tasks: nat, pool: nat, run: nat -> Out) returns (results: array<Option<Out>>)
    requires pool >= 1
    ensures results.Length == tasks && forall i | 0 <= i < tasks :: results[i] == Some(run(i))
  {
    results := new Option<Out>[tasks](i => None);
    var next := 0;
    var workers := seq(pool, i => Ready);
    ghost var claims: seq<nat> := [];
    while exists w :: 0 <= w < pool && !workers[w].Stopped?
      invariant |workers| == pool && fresh(results) && results.Length == tasks
      invariant Inv(Pool(next, results[..], workers, claims), run, tasks, pool)
      decreases Remaining(Pool(next, results[..], workers, claims))
    {
      var w: nat :| w < pool && !workers[w].Stopped?;
      ghost var before := Pool(next, results[..], workers, claims);
      ghost var step := if workers[w].Busy? then Finish(w) else if next < tasks then Claim(w) else Stop(w);
      PoolTerminates(before, run, tasks, pool);
      StepKeepsInv(before, run, tasks, pool, step);
      match workers[w] {
        case Ready =>
          if next < tasks {
            workers := workers[w := Busy(next)];
            claims := claims + [w];
            next := next + 1;
          } else {
            workers := workers[w := Stopped];
          }
        case Busy(idx) =>
          results[idx] := Some(run(idx));
          workers := workers[w := Ready];
        case Stopped =>
      }
      assert Pool(next, results[..], workers, claims) == Next(before, run, step).value;
    }
    assert workers[0].Stopped?;
    ghost var end := Pool(next, results[..], workers, claims);
    assert forall i | 0 <= i < tasks :: end.results[i] == results[i] && end.claims[i] < pool;
  }
}
