/**
 The serial task queue, step by step between the points where other code can run: every `emit`, where
 listeners may call back into the queue, and the `await` of a running job.
 */
module TaskQueue {
  import opened Options
  import opened Sequences

  /** `ticket` tells apart two jobs accepted under one run id at different times. */
  datatype Job = Job(ticket: nat, runId: string)

  /** Where the drain loop is: not live, inside a job's run, or announcing that a job is done. */
  datatype Drain = Stopped | InRun(job: Job) | Announcing(job: Job)

  /**
   `pending` counts the enqueue calls that have pushed their job and emitted `queued`, and still have to
   start the drain loop. `accepted`, `started`, `withdrawn` and `lost` record the history: `lost` are the jobs whose
   run was left by an exception, before they could be taken off the table.
   */
  datatype State = State(
    queue: seq<Job>, running: bool, current: Option<Job>, jobs: map<string, Job>, aborted: set<Job>,
    drain: Drain, pending: nat,
    accepted: seq<Job>, started: seq<Job>, withdrawn: set<Job>, lost: seq<Job>)

  const EMPTY := State([], false, None, map[], {}, Stopped, 0, [], [], {}, [])

  datatype Event =
    | Enqueue(runId: string)
    | StartDrain             // a pending enqueue call goes on to the drain loop
    | RunEnds                // the running job settles, whether it fails or not
    | Announced              // the listeners of `done` have returned
    | Cancel(runId: string)
    | LoopThrows             // a listener of the loop's events throws: the loop ends through its `finally`
    | QueuedThrows           // a listener of `queued` throws: that enqueue call never gets to the drain loop

  function Load(s: State): nat {
    |s.queue| + if s.running then 1 else 0
  }

  function IndexOf(queue: seq<Job>, job: Job): (i: nat)
    ensures i <= |queue|
    ensures i < |queue| ==> queue[i] == job
    ensures forall k | 0 <= k < i :: queue[k] != job
  {
    if queue == [] || queue[0] == job then 0 else 1 + IndexOf(queue[1..], job)
  }

  function AfterEnqueue(s: State, maxSize: nat, runId: string): State {
    if runId in s.jobs || Load(s) >= maxSize then s
    else
      var job := Job(|s.accepted|, runId);
      s.(queue := s.queue + [job], jobs := s.jobs[runId := job], pending := s.pending + 1,
         accepted := s.accepted + [job])
  }

  /** The head of the drain loop: the next job starts, or the loop ends. */
  function LoopHead(s: State): State {
    if s.queue == [] then s.(running := false, current := None, drain := Stopped)
    else
      var job := s.queue[0];
      s.(queue := s.queue[1..], running := true, current := Some(job), drain := InRun(job),
         started := s.started + [job])
  }

  function AfterCancel(s: State, runId: string): State {
    if runId !in s.jobs then s
    else
      var job := s.jobs[runId];
      if s.current == Some(job) then s.(aborted := s.aborted + {job})
      else
        var i := IndexOf(s.queue, job);
        if i == |s.queue| then s
        else s.(queue := Without(s.queue, i), jobs := s.jobs - {runId}, withdrawn := s.withdrawn + {job})
  }

  /** The job whose run has not ended. */
  function InFlight(drain: Drain): seq<Job> {
    if drain.InRun? then [drain.job] else []
  }

  function AfterThrow(s: State): State {
    s.(running := false, current := None, drain := Stopped, lost := s.lost + InFlight(s.drain))
  }

  /** The next state, or nothing when the event cannot happen now. */
  function Next(s: State, maxSize: nat, event: Event): Option<State> {
    match event
    case Enqueue(runId) => Some(AfterEnqueue(s, maxSize, runId))
    case StartDrain =>
      if s.pending == 0 then None
      else
        var t := s.(pending := s.pending - 1);
        Some(if s.running then t else LoopHead(t))
    case RunEnds =>
      if s.drain.InRun? then Some(s.(jobs := s.jobs - {s.drain.job.runId}, drain := Announcing(s.drain.job)))
      else None
    case Announced => if s.drain.Announcing? then Some(LoopHead(s)) else None
    case Cancel(runId) => Some(AfterCancel(s, runId))
    case LoopThrows => if s.drain.Stopped? then None else Some(AfterThrow(s))
    case QueuedThrows => if s.pending == 0 then None else Some(s.(pending := s.pending - 1))
  }

  function Run(s: State, maxSize: nat, events: seq<Event>): Option<State>
    decreases |events|
  {
    if events == [] then Some(s)
    else match Next(s, maxSize, events[0])
      case None => None
      case Some(t) => Run(t, maxSize, events[1..])
  }

  // ---- what every run keeps ----

  /** The accepted jobs that were not cancelled while waiting, in acceptance order. */
  ghost function Due(accepted: seq<Job>, withdrawn: set<Job>): seq<Job> {
    if accepted == [] then []
    else
      var last := accepted[|accepted| - 1];
      Due(accepted[..|accepted| - 1], withdrawn) + if last in withdrawn then [] else [last]
  }

  ghost predicate Ticketed(accepted: seq<Job>) {
    forall i | 0 <= i < |accepted| :: accepted[i].ticket == i
  }

  /** The jobs the table has to know: the lost ones, the one in its run and the waiting ones. */
  function Tabled(s: State): seq<Job> {
    s.lost + InFlight(s.drain) + s.queue
  }

  /** The table holds exactly these jobs, each under its own run id. */
  ghost predicate TableOf(jobs: map<string, Job>, known: seq<Job>) {
    && (forall i, j | 0 <= i < j < |known| :: known[i].runId != known[j].runId)
    && (forall job | job in known :: job.runId in jobs && jobs[job.runId] == job)
    && (forall id | id in jobs :: jobs[id] in known && jobs[id].runId == id)
  }

  /** The started and the waiting jobs are together the due ones. */
  ghost predicate HistoryOf(s: State) {
    && Ticketed(s.accepted) && s.withdrawn <= (set job | job in s.accepted)
    && s.started + s.queue == Due(s.accepted, s.withdrawn)
  }

  ghost predicate Inv(s: State, maxSize: nat) {
    && (s.running <==> !s.drain.Stopped?)
    && s.current == (if s.drain.Stopped? then None else Some(s.drain.job))
    && Load(s) <= maxSize
    && (!s.drain.Stopped? ==> s.drain.job in s.started && s.drain.job !in s.lost)
    && (forall job | job in s.lost :: job in s.started)
    && HistoryOf(s)
    && TableOf(s.jobs, Tabled(s))
  }

  lemma WithoutMembers(known: seq<Job>, k: nat)
    requires k < |known| && forall i, j | 0 <= i < j < |known| :: known[i].runId != known[j].runId
    ensures forall job :: job in Without(known, k) <==> job in known && job != known[k]
    ensures forall job | job in Without(known, k) :: job.runId != known[k].runId
  {
    assert known == known[..k] + [known[k]] + known[k + 1..];
    forall job | job in Without(known, k)
      ensures job.runId != known[k].runId
    {
      var i :| 0 <= i < |known| - 1 && Without(known, k)[i] == job;
    }
  }

  lemma TableWithout(jobs: map<string, Job>, known: seq<Job>, k: nat)
    requires TableOf(jobs, known) && k < |known|
    ensures TableOf(jobs - {known[k].runId}, Without(known, k))
  {
    WithoutMembers(known, k);
    var less := Without(known, k);
    forall i, j | 0 <= i < j < |less|
      ensures less[i].runId != less[j].runId
    {
    }
  }

  lemma TableWith(jobs: map<string, Job>, known: seq<Job>, job: Job)
    requires TableOf(jobs, known) && job.runId !in jobs
    ensures TableOf(jobs[job.runId := job], known + [job])
  {
  }

  lemma {:induction false} DueMembers(accepted: seq<Job>, withdrawn: set<Job>)
    ensures forall job :: job in Due(accepted, withdrawn) <==> job in accepted && job !in withdrawn
  {
    if accepted != [] {
      DueMembers(accepted[..|accepted| - 1], withdrawn);
      assert accepted == accepted[..|accepted| - 1] + [accepted[|accepted| - 1]];
    }
  }

  /** Due jobs are in ticket order, so no job is due twice. */
  lemma {:induction false} DueInOrder(accepted: seq<Job>, withdrawn: set<Job>)
    requires Ticketed(accepted)
    ensures forall i, j | 0 <= i < j < |Due(accepted, withdrawn)| ::
              Due(accepted, withdrawn)[i].ticket < Due(accepted, withdrawn)[j].ticket
  {
    if accepted != [] {
      var front := accepted[..|accepted| - 1];
      DueInOrder(front, withdrawn);
      DueMembers(front, withdrawn);
      forall job | job in Due(front, withdrawn)
        ensures job.ticket < |accepted| - 1
      {
        var i :| 0 <= i < |front| && front[i] == job;
      }
    }
  }

  lemma DueAppend(accepted: seq<Job>, withdrawn: set<Job>, job: Job)
    requires job !in withdrawn
    ensures Due(accepted + [job], withdrawn) == Due(accepted, withdrawn) + [job]
  {
    assert (accepted + [job])[..|accepted|] == accepted;
  }

  /** Withdrawing a job removes exactly it from the due list. */
  lemma {:induction false} DueWithdraw(accepted: seq<Job>, withdrawn: set<Job>, job: Job, a: seq<Job>, b: seq<Job>)
    requires Ticketed(accepted) && Due(accepted, withdrawn) == a + [job] + b
    ensures Due(accepted, withdrawn + {job}) == a + b
    decreases |accepted|
  {
    if accepted != [] {
      var front, last := accepted[..|accepted| - 1], accepted[|accepted| - 1];
      DueMembers(front, withdrawn);
      if last in withdrawn {
        DueWithdraw(front, withdrawn, job, a, b);
      } else if b == [] {
        EndsWith(Due(front, withdrawn), last, a, job);
        assert job !in front;
        DueIgnores(front, withdrawn, job);
      } else {
        var rest := b[..|b| - 1];
        EndsWith(Due(front, withdrawn), last, a + [job] + rest, b[|b| - 1]);
        DueWithdraw(front, withdrawn, job, a, rest);
        DueInOrder(accepted, withdrawn);
        assert Due(accepted, withdrawn)[|a|] == job && Due(accepted, withdrawn)[|a| + |b|] == last;
        assert b == rest + [last];
      }
    }
  }

  lemma EndsWith(front: seq<Job>, last: Job, a: seq<Job>, end: Job)
    requires front + [last] == a + [end]
    ensures front == a && last == end
  {
    assert (front + [last])[..|front|] == front && (a + [end])[..|a|] == a;
    assert (front + [last])[|front|] == last && (a + [end])[|a|] == end;
  }

  lemma {:induction false} DueIgnores(accepted: seq<Job>, withdrawn: set<Job>, job: Job)
    requires job !in accepted
    ensures Due(accepted, withdrawn + {job}) == Due(accepted, withdrawn)
  {
    if accepted != [] {
      assert accepted[|accepted| - 1] in accepted;
      DueIgnores(accepted[..|accepted| - 1], withdrawn, job);
    }
  }

  lemma EnqueueKeepsTable(jobs: map<string, Job>, front: seq<Job>, queue: seq<Job>, job: Job)
    requires TableOf(jobs, front + queue) && job.runId !in jobs
    ensures TableOf(jobs[job.runId := job], front + (queue + [job]))
  {
    TableWith(jobs, front + queue, job);
    assert front + (queue + [job]) == (front + queue) + [job];
  }

  lemma EnqueueKeepsHistory(s: State, job: Job)
    requires HistoryOf(s) && job.ticket == |s.accepted|
    ensures HistoryOf(s.(queue := s.queue + [job], accepted := s.accepted + [job]))
  {
    assert job !in s.accepted && job !in s.withdrawn;
    DueAppend(s.accepted, s.withdrawn, job);
    assert s.started + (s.queue + [job]) == (s.started + s.queue) + [job];
  }

  lemma EnqueueKeepsInv(s: State, maxSize: nat, runId: string)
    requires Inv(s, maxSize)
    ensures Inv(AfterEnqueue(s, maxSize, runId), maxSize)
  {
    if runId !in s.jobs && Load(s) < maxSize {
      var job := Job(|s.accepted|, runId);
      EnqueueKeepsTable(s.jobs, s.lost + InFlight(s.drain), s.queue, job);
      EnqueueKeepsHistory(s, job);
    }
  }

  lemma NothingInFlight(lost: seq<Job>, queue: seq<Job>)
    ensures lost + [] + queue == lost + queue
  {
  }

  lemma HeadStarts(front: seq<Job>, queue: seq<Job>)
    requires queue != []
    ensures (front + [queue[0]]) + queue[1..] == front + queue
  {
  }

  lemma HeadIsNotLost(jobs: map<string, Job>, lost: seq<Job>, queue: seq<Job>)
    requires TableOf(jobs, lost + queue) && queue != []
    ensures queue[0] !in lost
  {
    forall i | 0 <= i < |lost|
      ensures lost[i] != queue[0]
    {
      assert (lost + queue)[i] == lost[i] && (lost + queue)[|lost|] == queue[0];
    }
  }

  /** The loop head is reached with no job in its run: either the loop starts, or the last job was announced. */
  lemma LoopHeadKeepsInv(s: State, maxSize: nat)
    requires |s.queue| + (if s.drain.Stopped? then 0 else 1) <= maxSize && !s.drain.InRun?
    requires HistoryOf(s) && TableOf(s.jobs, s.lost + s.queue) && forall job | job in s.lost :: job in s.started
    ensures Inv(LoopHead(s), maxSize)
  {
    NothingInFlight(s.lost, s.queue);
    if s.queue != [] {
      HeadStarts(s.started, s.queue);
      HeadStarts(s.lost, s.queue);
      HeadIsNotLost(s.jobs, s.lost, s.queue);
    }
  }

  lemma RunEndsKeepsInv(s: State, maxSize: nat)
    requires Inv(s, maxSize) && s.drain.InRun?
    ensures Inv(Next(s, maxSize, RunEnds).value, maxSize)
  {
    RunEndsKeepsTable(s.jobs, s.lost, s.drain, s.queue);
    RunEndsKeepsRest(s, maxSize);
  }

  lemma RunEndsKeepsRest(s: State, maxSize: nat)
    requires Inv(s, maxSize) && s.drain.InRun?
    requires var t := Next(s, maxSize, RunEnds).value; TableOf(t.jobs, Tabled(t))
    ensures Inv(Next(s, maxSize, RunEnds).value, maxSize)
  {
  }

  /** The job in its run is lost, or the announced one is off the table already; either way the table stays as it is. */
  lemma ThrowKeepsInv(s: State, maxSize: nat)
    requires Inv(s, maxSize) && !s.drain.Stopped?
    ensures Inv(AfterThrow(s), maxSize) && Tabled(AfterThrow(s)) == Tabled(s)
  {
    NothingInFlight(s.lost + InFlight(s.drain), s.queue);
  }

  lemma DropInside(front: seq<Job>, queue: seq<Job>, i: nat)
    requires i < |queue|
    ensures (front + queue)[|front| + i] == queue[i]
    ensures Without(front + queue, |front| + i) == front + Without(queue, i)
  {
  }

  lemma RunEndsKeepsTable(jobs: map<string, Job>, lost: seq<Job>, drain: Drain, queue: seq<Job>)
    requires drain.InRun? && TableOf(jobs, lost + InFlight(drain) + queue)
    ensures TableOf(jobs - {drain.job.runId}, lost + InFlight(Announcing(drain.job)) + queue)
  {
    var known := lost + [drain.job] + queue;
    assert known[|lost|] == drain.job && Without(known, |lost|) == lost + [] + queue;
    TableWithout(jobs, known, |lost|);
  }

  lemma CancelKeepsInv(s: State, maxSize: nat, runId: string)
    requires Inv(s, maxSize)
    ensures Inv(AfterCancel(s, runId), maxSize)
  {
    if runId in s.jobs && s.current != Some(s.jobs[runId]) {
      var i := IndexOf(s.queue, s.jobs[runId]);
      if i < |s.queue| {
        assert s.queue[i].runId == runId;
        WithdrawalKeepsHistory(s, i);
        WithdrawalKeepsTable(s.jobs, s.lost + InFlight(s.drain), s.queue, i);
        WithdrawalKeepsRest(s, maxSize, i);
      }
    }
  }

  lemma WithdrawalKeepsRest(s: State, maxSize: nat, i: nat)
    requires Inv(s, maxSize) && i < |s.queue|
    requires var t := s.(queue := Without(s.queue, i), jobs := s.jobs - {s.queue[i].runId},
                         withdrawn := s.withdrawn + {s.queue[i]});
             HistoryOf(t) && TableOf(t.jobs, Tabled(t))
    ensures Inv(s.(queue := Without(s.queue, i), jobs := s.jobs - {s.queue[i].runId},
                   withdrawn := s.withdrawn + {s.queue[i]}), maxSize)
  {
  }

  lemma WithdrawalKeepsTable(jobs: map<string, Job>, front: seq<Job>, queue: seq<Job>, i: nat)
    requires TableOf(jobs, front + queue) && i < |queue|
    ensures TableOf(jobs - {queue[i].runId}, front + Without(queue, i))
  {
    DropInside(front, queue, i);
    TableWithout(jobs, front + queue, |front| + i);
  }

  lemma WithdrawalKeepsHistory(s: State, i: nat)
    requires HistoryOf(s) && i < |s.queue|
    ensures HistoryOf(s.(queue := Without(s.queue, i), withdrawn := s.withdrawn + {s.queue[i]}))
  {
    var job, front, back := s.queue[i], s.started + s.queue[..i], s.queue[i + 1..];
    assert s.started + s.queue == front + [job] + back;
    DueWithdraw(s.accepted, s.withdrawn, job, front, back);
    DueMembers(s.accepted, s.withdrawn);
    assert job in front + [job] + back;
    assert s.started + Without(s.queue, i) == front + back;
  }

  lemma StartDrainKeepsInv(s: State, maxSize: nat)
    requires Inv(s, maxSize) && s.pending > 0
    ensures Inv(Next(s, maxSize, StartDrain).value, maxSize)
  {
    if !s.running {
      NothingInFlight(s.lost, s.queue);
      LoopHeadKeepsInv(s.(pending := s.pending - 1), maxSize);
    }
  }

  lemma AnnouncedKeepsInv(s: State, maxSize: nat)
    requires Inv(s, maxSize) && s.drain.Announcing?
    ensures Inv(Next(s, maxSize, Announced).value, maxSize)
  {
    NothingInFlight(s.lost, s.queue);
    LoopHeadKeepsInv(s, maxSize);
  }

  lemma StepKeepsInv(s: State, maxSize: nat, event: Event)
    requires Inv(s, maxSize) && Next(s, maxSize, event).Some?
    ensures Inv(Next(s, maxSize, event).value, maxSize)
    ensures s.lost <= Next(s, maxSize, event).value.lost
  {
    match event
    case Enqueue(runId) => EnqueueKeepsInv(s, maxSize, runId);
    case StartDrain => StartDrainKeepsInv(s, maxSize);
    case RunEnds => RunEndsKeepsInv(s, maxSize);
    case Announced => AnnouncedKeepsInv(s, maxSize);
    case Cancel(runId) => CancelKeepsInv(s, maxSize, runId);
    case LoopThrows => ThrowKeepsInv(s, maxSize);
    case QueuedThrows =>
  }

  lemma {:induction false} RunKeepsInv(s: State, maxSize: nat, events: seq<Event>)
    requires Inv(s, maxSize) && Run(s, maxSize, events).Some?
    ensures Inv(Run(s, maxSize, events).value, maxSize)
    ensures s.lost <= Run(s, maxSize, events).value.lost
    decreases |events|
  {
    if events != [] {
      StepKeepsInv(s, maxSize, events[0]);
      RunKeepsInv(Next(s, maxSize, events[0]).value, maxSize, events[1..]);
    }
  }

  /**
   Every interleaving of enqueue, cancel, completion, re-entrant listeners and listeners that throw: started jobs
   are the accepted ones minus those cancelled while waiting, in acceptance order and each once; the queue never
   holds more than `maxSize`; and the job table knows exactly the waiting jobs, the running one and the lost ones.
   */
  lemma QueueIsSerial(maxSize: nat, events: seq<Event>)
    requires Run(EMPTY, maxSize, events).Some?
    ensures var s := Run(EMPTY, maxSize, events).value;
            && s.started <= Due(s.accepted, s.withdrawn)
            && (forall i, j | 0 <= i < j < |s.started| :: s.started[i].ticket < s.started[j].ticket)
            && |s.queue| + (if s.current.Some? then 1 else 0) <= maxSize
            && (s.queue == [] ==> s.started == Due(s.accepted, s.withdrawn))
            && (s.running <==> s.current.Some?)
            && s.jobs.Keys == set job | job in Tabled(s) :: job.runId
  {
    EmptyIsFine(maxSize);
    RunKeepsInv(EMPTY, maxSize, events);
    var s := Run(EMPTY, maxSize, events).value;
    DueInOrder(s.accepted, s.withdrawn);
    assert forall i | 0 <= i < |s.started| :: s.started[i] == Due(s.accepted, s.withdrawn)[i];
    assert s.queue == [] ==> s.started == s.started + s.queue;
    forall id | id in s.jobs
      ensures id in set job | job in Tabled(s) :: job.runId
    {
      assert s.jobs[id] in Tabled(s);
    }
  }

  lemma EmptyIsFine(maxSize: nat)
    ensures Inv(EMPTY, maxSize) && Served(EMPTY)
  {
    assert EMPTY.started + EMPTY.queue == Due([], {});
  }

  // ---- what the calls of a caller do ----

  /** A new id is taken while there is room, and its job waits last; any other enqueue changes nothing. */
  lemma EnqueueMeans(s: State, maxSize: nat, runId: string)
    ensures var t := Next(s, maxSize, Enqueue(runId)).value;
            if runId !in s.jobs && |s.queue| + (if s.running then 1 else 0) < maxSize then
              && t == s.(queue := t.queue, jobs := t.jobs, pending := s.pending + 1, accepted := t.accepted)
              && |t.queue| == |s.queue| + 1 && s.queue <= t.queue
              && var job := t.queue[|s.queue|];
                 job.runId == runId && t.accepted == s.accepted + [job] && t.jobs == s.jobs[runId := job]
            else t == s
  {
  }

  /** The loop takes the job that waited longest, and no other. */
  lemma StartMeans(s: State, maxSize: nat, event: Event)
    requires Inv(s, maxSize) && Next(s, maxSize, event).Some?
    ensures var t := Next(s, maxSize, event).value;
            || t.started == s.started
            || ((event.StartDrain? || event.Announced?) && s.queue != [] && t.started == s.started + [s.queue[0]]
                && t.current == Some(s.queue[0]) && t.queue == s.queue[1..])
  {
  }

  /** A job that waits has not started. */
  lemma WaitingIsNotStarted(s: State, i: nat)
    requires HistoryOf(s) && i < |s.queue|
    ensures s.queue[i] !in s.started
    ensures forall k | 0 <= k < |s.queue| && k != i :: s.queue[k] != s.queue[i]
  {
    var due := Due(s.accepted, s.withdrawn);
    DueInOrder(s.accepted, s.withdrawn);
    assert forall k | 0 <= k < |s.queue| :: due[|s.started| + k] == s.queue[k];
    assert forall k | 0 <= k < |s.started| :: due[k] == s.started[k];
  }

  /** The table knows a waiting job under its own id. */
  lemma WaitingIsTabled(s: State, maxSize: nat, i: nat)
    requires Inv(s, maxSize) && i < |s.queue|
    ensures s.queue[i].runId in s.jobs && s.jobs[s.queue[i].runId] == s.queue[i]
    ensures s.current != Some(s.queue[i])
    ensures forall k | 0 <= k < |s.queue| && k != i :: s.queue[k] != s.queue[i]
  {
    assert s.queue[i] in Tabled(s);
    WaitingIsNotStarted(s, i);
  }

  /**
   Cancelling a waiting job takes exactly that job out of the queue, frees its id and records it as withdrawn.
   The others keep their places.
   */
  lemma CancelOfWaiting(s: State, maxSize: nat, i: nat)
    requires Inv(s, maxSize) && i < |s.queue|
    ensures var job := s.queue[i];
            Next(s, maxSize, Cancel(job.runId)) ==
            Some(s.(queue := s.queue[..i] + s.queue[i + 1..], jobs := s.jobs - {job.runId},
                    withdrawn := s.withdrawn + {job}))
  {
    WaitingIsTabled(s, maxSize, i);
    assert IndexOf(s.queue, s.queue[i]) == i;
  }

  /** Cancelling the job in its run signals exactly that job, and leaves everything else as it is. */
  lemma CancelOfRunning(s: State, maxSize: nat)
    requires Inv(s, maxSize) && s.drain.InRun?
    ensures Next(s, maxSize, Cancel(s.drain.job.runId)) == Some(s.(aborted := s.aborted + {s.drain.job}))
  {
    assert Tabled(s)[|s.lost|] == s.drain.job && s.drain.job in Tabled(s);
  }

  /** Cancelling any other id changes nothing. */
  lemma CancelOfOther(s: State, maxSize: nat, runId: string)
    requires Inv(s, maxSize) && !Cancellable(s, runId)
    ensures Next(s, maxSize, Cancel(runId)) == Some(s)
  {
    CancellableIff(s, maxSize, runId);
  }

  /** The id of a waiting job, or of the one in its run. */
  predicate Cancellable(s: State, runId: string) {
    (exists job | job in s.queue :: job.runId == runId) || (s.drain.InRun? && s.drain.job.runId == runId)
  }

  /** What the code looks at to find such a job. */
  lemma CancellableIff(s: State, maxSize: nat, runId: string)
    requires Inv(s, maxSize)
    ensures Cancellable(s, runId) <==>
            runId in s.jobs && (s.current == Some(s.jobs[runId]) || IndexOf(s.queue, s.jobs[runId]) < |s.queue|)
  {
    if i :| 0 <= i < |s.queue| && s.queue[i].runId == runId {
      WaitingIsTabled(s, maxSize, i);
    }
    if s.drain.InRun? {
      assert Tabled(s)[|s.lost|] == s.drain.job && s.drain.job in Tabled(s);
    }
    if runId in s.jobs {
      var job := s.jobs[runId];
      assert job in Tabled(s) && job.runId == runId;
      assert job in s.lost || job in InFlight(s.drain) || job in s.queue;
    }
  }

  lemma StepKeepsWithdrawn(s: State, maxSize: nat, event: Event)
    requires Next(s, maxSize, event).Some?
    ensures s.withdrawn <= Next(s, maxSize, event).value.withdrawn
  {
  }

  lemma {:induction false} RunKeepsWithdrawn(s: State, maxSize: nat, events: seq<Event>)
    requires Run(s, maxSize, events).Some?
    ensures s.withdrawn <= Run(s, maxSize, events).value.withdrawn
    decreases |events|
  {
    if events != [] {
      StepKeepsWithdrawn(s, maxSize, events[0]);
      RunKeepsWithdrawn(Next(s, maxSize, events[0]).value, maxSize, events[1..]);
    }
  }

  /** A job that was withdrawn is not started in any continuation, and does not wait again. */
  lemma WithdrawnNeverStarts(s: State, maxSize: nat, events: seq<Event>, job: Job)
    requires Inv(s, maxSize) && job in s.withdrawn && Run(s, maxSize, events).Some?
    ensures var t := Run(s, maxSize, events).value; job !in t.started && job !in t.queue
  {
    RunKeepsInv(s, maxSize, events);
    RunKeepsWithdrawn(s, maxSize, events);
    var t := Run(s, maxSize, events).value;
    DueMembers(t.accepted, t.withdrawn);
    assert job !in t.started + t.queue;
  }

  /** From the cancel of a waiting job on, that job never runs. */
  lemma CancelledNeverStarts(s: State, maxSize: nat, i: nat, events: seq<Event>)
    requires Inv(s, maxSize) && i < |s.queue|
    requires Run(s, maxSize, [Cancel(s.queue[i].runId)] + events).Some?
    ensures s.queue[i] !in Run(s, maxSize, [Cancel(s.queue[i].runId)] + events).value.started
  {
    var cancel := Cancel(s.queue[i].runId);
    CancelOfWaiting(s, maxSize, i);
    StepKeepsInv(s, maxSize, cancel);
    RunCons(s, maxSize, cancel, events);
    WithdrawnNeverStarts(Next(s, maxSize, cancel).value, maxSize, events, s.queue[i]);
  }

  // ---- whether waiting jobs are served ----

  /** A waiting job will be taken: a drain loop is live, or an enqueue call is about to start one. */
  predicate Served(s: State) {
    s.queue == [] || s.running || s.pending > 0
  }

  /** A throw that leaves waiting jobs behind: no loop is left, and no enqueue call that could start one. */
  predicate Strands(s: State, event: Event) {
    match event
    case LoopThrows => s.queue != [] && s.pending == 0
    case QueuedThrows => s.queue != [] && !s.running && s.pending == 1
    case _ => false
  }

  /** One step leaves the waiting jobs served exactly when it is no such throw. */
  lemma StepServesIff(s: State, maxSize: nat, event: Event)
    requires Inv(s, maxSize) && Served(s) && Next(s, maxSize, event).Some?
    ensures Served(Next(s, maxSize, event).value) <==> !Strands(s, event)
  {
  }

  predicate NeverStrands(s: State, maxSize: nat, events: seq<Event>)
    requires Run(s, maxSize, events).Some?
    decreases |events|
  {
    events == [] || (!Strands(s, events[0]) && NeverStrands(Next(s, maxSize, events[0]).value, maxSize, events[1..]))
  }

  predicate AlwaysServed(s: State, maxSize: nat, events: seq<Event>)
    requires Run(s, maxSize, events).Some?
    decreases |events|
  {
    Served(s) && (events == [] || AlwaysServed(Next(s, maxSize, events[0]).value, maxSize, events[1..]))
  }

  /** Over every history: the waiting jobs are served at every moment exactly when no step in it strands them. */
  lemma {:induction false} AlwaysServedIff(s: State, maxSize: nat, events: seq<Event>)
    requires Inv(s, maxSize) && Served(s) && Run(s, maxSize, events).Some?
    ensures AlwaysServed(s, maxSize, events) <==> NeverStrands(s, maxSize, events)
    decreases |events|
  {
    if events != [] {
      StepKeepsInv(s, maxSize, events[0]);
      StepServesIff(s, maxSize, events[0]);
      if !Strands(s, events[0]) {
        AlwaysServedIff(Next(s, maxSize, events[0]).value, maxSize, events[1..]);
      }
    }
  }

  // ---- jobs lost to a throw ----

  lemma LostIsTabled(s: State, maxSize: nat, job: Job)
    requires Inv(s, maxSize) && job in s.lost
    ensures job.runId in s.jobs && s.jobs[job.runId] == job && job !in s.queue && s.current != Some(job)
  {
    var i :| 0 <= i < |s.lost| && s.lost[i] == job;
    assert Tabled(s)[i] == job && job in Tabled(s);
    forall k | 0 <= k < |s.queue|
      ensures s.queue[k] != job
    {
      assert Tabled(s)[|s.lost + InFlight(s.drain)| + k] == s.queue[k];
    }
  }

  /** The id of a lost job is refused, and cancelling it finds nothing, in every continuation. */
  lemma LostIdIsRefused(s: State, maxSize: nat, events: seq<Event>, job: Job)
    requires Inv(s, maxSize) && job in s.lost && Run(s, maxSize, events).Some?
    ensures var t := Run(s, maxSize, events).value;
            job in t.lost && AfterEnqueue(t, maxSize, job.runId) == t && AfterCancel(t, job.runId) == t
  {
    RunKeepsInv(s, maxSize, events);
    LostIsTabled(Run(s, maxSize, events).value, maxSize, job);
  }

  /** A job is lost exactly when a listener throws before the job has left the table. */
  lemma LostIff(s: State, maxSize: nat, event: Event)
    requires Inv(s, maxSize) && Next(s, maxSize, event).Some?
    ensures var t := Next(s, maxSize, event).value;
            t.lost == if event.LoopThrows? && s.drain.InRun? then s.lost + [s.drain.job] else s.lost
  {
    assert s.lost + [] == s.lost;
  }

  lemma RunCons(s: State, maxSize: nat, event: Event, rest: seq<Event>)
    requires Next(s, maxSize, event).Some?
    ensures Run(s, maxSize, [event] + rest) == Run(Next(s, maxSize, event).value, maxSize, rest)
  {
    assert ([event] + rest)[1..] == rest;
  }

  /** A run from the empty queue in which a listener of `start` throws: a stranded job and a lost one. */
  lemma ThrowingListenerStrandsQueue(maxSize: nat, a: string, b: string)
    requires maxSize >= 2 && a != b
    ensures var events := [Enqueue(a)] + ([StartDrain] + ([Enqueue(b)] + ([StartDrain] + ([LoopThrows] + []))));
            && Run(EMPTY, maxSize, events).Some?
            && var t := Run(EMPTY, maxSize, events).value;
               t.queue == [Job(1, b)] && !Served(t) && t.lost == [Job(0, a)]
  {
    var one := Next(EMPTY, maxSize, Enqueue(a)).value;
    var two := Next(one, maxSize, StartDrain).value;
    var three := Next(two, maxSize, Enqueue(b)).value;
    var four := Next(three, maxSize, StartDrain).value;
    RunCons(EMPTY, maxSize, Enqueue(a), [StartDrain] + ([Enqueue(b)] + ([StartDrain] + ([LoopThrows] + []))));
    RunCons(one, maxSize, StartDrain, [Enqueue(b)] + ([StartDrain] + ([LoopThrows] + [])));
    RunCons(two, maxSize, Enqueue(b), [StartDrain] + ([LoopThrows] + []));
    RunCons(three, maxSize, StartDrain, [LoopThrows] + []);
    RunCons(four, maxSize, LoopThrows, []);
  }

  /** A run of two events in which a listener of `queued` throws: the job waits, and nothing will take it. */
  lemma ThrowingQueuedListenerStrandsJob(maxSize: nat, a: string)
    requires maxSize >= 1
    ensures var events := [Enqueue(a)] + ([QueuedThrows] + []);
            && Run(EMPTY, maxSize, events).Some?
            && var t := Run(EMPTY, maxSize, events).value;
               t.queue == [Job(0, a)] && !Served(t) && t.lost == []
  {
    var one := Next(EMPTY, maxSize, Enqueue(a)).value;
    RunCons(EMPTY, maxSize, Enqueue(a), [QueuedThrows] + []);
    RunCons(one, maxSize, QueuedThrows, []);
  }

  // ---- the queue as it is written ----

  class TaskQueue {
    const maxSize: nat
    var queue: seq<Job>
    var running: bool
    var current: Option<Job>
    var jobs: map<string, Job>
    var made: nat           // gives every accepted job its own identity
    ghost var rest: State   // the call stack (`drain`, `pending`), the abort signals, and the history

    ghost function Now(): State
      reads this
    {
      rest.(queue := queue, running := running, current := current, jobs := jobs)
    }

    ghost predicate Valid()
      reads this
    {
      Inv(Now(), maxSize) && made == |rest.accepted|
    }

    constructor (maxSize: nat)
      requires maxSize >= 1
      ensures Valid() && Now() == EMPTY && this.maxSize == maxSize
    {
      this.maxSize := maxSize;
      queue, running, current, jobs, made, rest := [], false, None, map[], 0, EMPTY;
      new;
      EmptyIsFine(maxSize);
    }

    /** Up to the `queued` event: a known run id and a full queue are refused. */
    method Enqueue(runId: string) returns (accepted: bool)
      requires Valid()
      modifies this
      ensures Valid() && Now() == AfterEnqueue(old(Now()), maxSize, runId)
      ensures accepted <==> runId !in old(jobs) && Load(old(Now())) < maxSize
    {
      EnqueueKeepsInv(Now(), maxSize, runId);
      accepted := Push(runId);
    }

    method Push(runId: string) returns (accepted: bool)
      requires made == |rest.accepted|
      modifies this
      ensures Now() == AfterEnqueue(old(Now()), maxSize, runId) && made == |rest.accepted|
      ensures accepted <==> runId !in old(jobs) && Load(old(Now())) < maxSize
    {
      if runId in jobs || |queue| + (if running then 1 else 0) >= maxSize {
        return false;
      }
      var job := Job(made, runId);
      made := made + 1;
      queue := queue + [job];
      jobs := jobs[runId := job];
      rest := rest.(pending := rest.pending + 1, accepted := rest.accepted + [job]);
      return true;
    }

    /** The entry of the drain loop: a second loop never starts. */
    method Drain()
      requires Valid() && rest.pending > 0
      modifies this
      ensures Valid() && Some(Now()) == Next(old(Now()), maxSize, StartDrain)
    {
      StepKeepsInv(Now(), maxSize, StartDrain);
      EnterLoop();
    }

    method EnterLoop()
      requires rest.pending > 0 && (!running ==> !rest.drain.InRun?)
      modifies this
      ensures Some(Now()) == Next(old(Now()), maxSize, StartDrain)
      ensures made == old(made) && rest.accepted == old(rest.accepted)
    {
      rest := rest.(pending := rest.pending - 1);
      if running {
        return;
      }
      running := true;
      TakeNext();
    }

    /** The head of the loop, up to the `start` event of the next job. */
    method TakeNext()
      requires running && !rest.drain.InRun?
      modifies this
      ensures Now() == LoopHead(old(Now())) && made == old(made) && rest.accepted == old(rest.accepted)
    {
      if queue == [] {
        running, current := false, None;
        rest := rest.(drain := Stopped);
      } else {
        var job := queue[0];
        queue := queue[1..];
        current := Some(job);
        rest := rest.(drain := InRun(job), started := rest.started + [job]);
      }
    }

    /** The awaited run settled: the job leaves the table before `done` is emitted. */
    method Settle()
      requires Valid() && rest.drain.InRun?
      modifies this
      ensures Valid() && Some(Now()) == Next(old(Now()), maxSize, RunEnds)
    {
      StepKeepsInv(Now(), maxSize, RunEnds);
      jobs := jobs - {current.value.runId};
      rest := rest.(drain := Announcing(rest.drain.job));
    }

    method Continue()
      requires Valid() && rest.drain.Announcing?
      modifies this
      ensures Valid() && Some(Now()) == Next(old(Now()), maxSize, Announced)
    {
      StepKeepsInv(Now(), maxSize, Announced);
      TakeNext();
    }

    /** The `finally` of the loop, when a listener has thrown. */
    method LeaveLoop()
      requires Valid() && !rest.drain.Stopped?
      modifies this
      ensures Valid() && Some(Now()) == Next(old(Now()), maxSize, LoopThrows)
    {
      StepKeepsInv(Now(), maxSize, LoopThrows);
      running, current := false, None;
      rest := rest.(drain := Stopped, lost := rest.lost + InFlight(rest.drain));
    }

    /** A waiting job leaves the queue; the running one is only asked to stop. */
    method Cancel(runId: string) returns (found: bool)
      requires Valid()
      modifies this
      ensures Valid() && Now() == AfterCancel(old(Now()), runId)
      ensures found <==> Cancellable(old(Now()), runId)
    {
      CancelKeepsInv(Now(), maxSize, runId);
      CancellableIff(Now(), maxSize, runId);
      if runId !in jobs {
        return false;
      }
      var job := jobs[runId];
      if current == Some(job) {
        rest := rest.(aborted := rest.aborted + {job});
        return true;
      }
      var index := IndexOf(queue, job);
      if index == |queue| {
        return false;
      }
      queue := Without(queue, index);
      jobs := jobs - {runId};
      rest := rest.(withdrawn := rest.withdrawn + {job});
      return true;
    }
  }
}
