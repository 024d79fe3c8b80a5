/** The store itself: an in-memory map of runs, updated by each call and reloaded from disk. */
module RunStore {
  import opened Options
  import opened Sequences
  import opened RunLedger
  import opened RunEffects

  /** What a call reports: nothing for an unknown run or attempt, else the stored run or the error. */
  type Reply = Option<Result<Run, string>>

  predicate UnknownAttempt(run: Run, op: Op) {
    op.Finish? && IndexOf(run.attempts, op.attemptId) == |run.attempts|
  }

  function Expected(runs: map<string, Run>, id: string, op: Op): Reply {
    if id !in runs || UnknownAttempt(runs[id], op) then None
    else match Apply(runs[id], op)
      case Ok(next) => Some(Ok(Normalise(next)))
      case Err(e) => Some(Err(e))
  }

  function Updated(runs: map<string, Run>, id: string, op: Op): map<string, Run> {
    if id !in runs then runs else runs[id := After(runs[id], op)]
  }

  /** A call answers with the run it stores, or changes nothing; it answers nothing for an unknown run or attempt. */
  lemma ReplyIsStored(runs: map<string, Run>, id: string, op: Op)
    ensures match Expected(runs, id, op)
            case Some(Ok(run)) => id in runs && Updated(runs, id, op) == runs[id := run] && run == After(runs[id], op)
            case Some(Err(_)) => id in runs && Updated(runs, id, op) == runs && Apply(runs[id], op).Err?
            case None => id !in runs || (op.Finish? && forall a | a in runs[id].attempts :: a.id != op.attemptId)
    ensures id !in runs ==> Updated(runs, id, op) == runs && Expected(runs, id, op) == None
    ensures id in runs && op.Finish? && (forall a | a in runs[id].attempts :: a.id != op.attemptId) ==>
              Expected(runs, id, op) == None
  {
    if id in runs && op.Finish? {
      var i := IndexOf(runs[id].attempts, op.attemptId);
      if i == |runs[id].attempts| {
        forall a | a in runs[id].attempts
          ensures a.id != op.attemptId
        {
          var k :| 0 <= k < |runs[id].attempts| && runs[id].attempts[k] == a;
        }
      } else {
        assert runs[id].attempts[i] in runs[id].attempts;
      }
    }
  }

  class RunStore {
    var runs: map<string, Run>

    ghost predicate Valid()
      reads this
    {
      forall id | id in runs :: Fits(runs[id]) && runs[id].id == id
    }

    constructor ()
      ensures Valid() && runs == map[]
    {
      runs := map[];
    }

    method Get(id: string) returns (run: Option<Run>)
      requires Valid()
      ensures run == if id in runs then Some(runs[id]) else None
    {
      if id !in runs {
        return None;
      }
      StoredRunIsFixed(runs[id]);
      return Some(Normalise(runs[id]));
    }

    method Put(run: Run) returns (stored: Run)
      requires Valid()
      modifies this
      ensures Valid()
      ensures stored == Normalise(run) && runs == old(runs)[run.id := stored]
    {
      NormaliseFits(run);
      stored := Normalise(run);
      runs := runs[stored.id := stored];
    }

    /** An id that exists keeps its run. */
    method Create(id: string, task: string, policy: string, plan: string, checkpoint: Data) returns (run: Run)
      requires Valid()
      modifies this
      ensures Valid() && id in runs && run == runs[id]
      ensures id in old(runs) ==> runs == old(runs)
      ensures id !in old(runs) ==> runs == old(runs)[id := run] && run.status.Created? && run.attempts == []
                                   && run.checkpoints == [] && run.checkpoint == checkpoint && run.approvals == []
                                   && CutTo(task, run.task, 4000) && CutTo(plan, run.plan, 200)
                                   && CutTo(policy, run.policy, 200) && run.id == id
    {
      if id in runs {
        return runs[id];
      }
      run := Put(Run(id, task, Created, plan, policy, checkpoint, [], [], [], [], ""));
    }

    method Transition(id: string, status: Status, reason: string, data: Option<Data>) returns (reply: Reply)
      requires Valid()
      modifies this
      ensures Valid()
      ensures reply == Expected(old(runs), id, Op.Transition(status, reason, data))
      ensures runs == Updated(old(runs), id, Op.Transition(status, reason, data))
    {
      var found := Get(id);
      if found.None? {
        return None;
      }
      var run := found.value;
      if run.status != status && status !in run.status.Targets() {
        return Some(Err("invalid run transition"));
      }
      run := run.(status := status);
      if reason != "" {
        run := run.(reason := Cut(reason, 1000));
      }
      if data.Some? {
        run := run.(checkpoint := data.value, checkpoints := run.checkpoints + [Point(|run.checkpoints|, data.value)]);
      }
      run := Put(run);
      return Some(Ok(run));
    }

    method Checkpoint(id: string, data: Option<Data>) returns (reply: Reply)
      requires Valid()
      modifies this
      ensures Valid()
      ensures reply == Expected(old(runs), id, Op.Checkpoint(data))
      ensures runs == Updated(old(runs), id, Op.Checkpoint(data))
    {
      var found := Get(id);
      if found.None? {
        return None;
      }
      var run := found.value;
      var point := if data.Some? then data.value else NO_DATA;
      run := run.(checkpoint := point, checkpoints := run.checkpoints + [Point(|run.checkpoints|, point)]);
      run := Put(run);
      return Some(Ok(run));
    }

    method Cancel(id: string, reason: string) returns (reply: Reply)
      requires Valid()
      modifies this
      ensures Valid()
      ensures reply == Expected(old(runs), id, Op.Cancel(reason))
      ensures runs == Updated(old(runs), id, Op.Cancel(reason))
    {
      var found := Get(id);
      if found.None? {
        return None;
      }
      StoredRunIsFixed(found.value);
      if found.value.status.Terminal() {
        return Some(Ok(found.value));
      }
      reply := Transition(id, Cancelled, reason, None);
    }

    method Resume(id: string) returns (reply: Reply)
      requires Valid()
      modifies this
      ensures Valid()
      ensures reply == Expected(old(runs), id, Op.Resume)
      ensures runs == Updated(old(runs), id, Op.Resume)
    {
      var found := Get(id);
      if found.None? {
        return None;
      }
      var run := found.value;
      StoredRunIsFixed(run);
      if run.status.Terminal() {
        return Some(Err("cannot resume terminal run"));
      }
      if run.status.Running? {
        return Some(Ok(run));
      }
      run := run.(status := Running,
                  reason := Cut(if run.reason != "" then run.reason else "resumed after interruption", 1000));
      run := Put(run);
      return Some(Ok(run));
    }

    method RollBack(id: string, toIndex: Option<int>, reason: string) returns (reply: Reply)
      requires Valid()
      modifies this
      ensures Valid()
      ensures reply == Expected(old(runs), id, Op.RollBack(toIndex, reason))
      ensures runs == Updated(old(runs), id, Op.RollBack(toIndex, reason))
    {
      var found := Get(id);
      if found.None? {
        return None;
      }
      var run := found.value;
      if run.status.Succeeded? || run.status.Cancelled? {
        return Some(Err("cannot roll back"));
      }
      if run.checkpoints == [] {
        return Some(Err("no recovery point"));
      }
      var n := |run.checkpoints|;
      var target := if toIndex.Some? then toIndex.value else if n >= 2 then n - 2 else 0;
      if target < 0 || target >= n {
        return Some(Err("invalid recovery point index"));
      }
      var why := Cut(if reason != "" then reason else "rolled back to recovery point " + Decimal(target), 1000);
      run := run.(checkpoint := run.checkpoints[target].data);
      run := run.(rollbacks := run.rollbacks + [Rollback(n - 1, target, why)]);
      run := run.(status := RolledBack, reason := why);
      run := Put(run);
      return Some(Ok(run));
    }

    method Approve(id: string, actor: string, decision: Decision, expiry: Expiry, note: string,
                   plan: Option<string>, policy: Option<string>) returns (reply: Reply)
      requires Valid()
      modifies this
      ensures Valid()
      ensures reply == Expected(old(runs), id, Op.Approve(actor, decision, expiry, note, plan, policy))
      ensures runs == Updated(old(runs), id, Op.Approve(actor, decision, expiry, note, plan, policy))
    {
      var found := Get(id);
      if found.None? {
        return None;
      }
      var run := found.value;
      if !run.status.AwaitingApproval? {
        return Some(Err("run is not awaiting approval"));
      }
      if run.plan == "" || run.policy == "" {
        return Some(Err("approval requires revisions"));
      }
      if plan.Some? && plan.value != run.plan {
        return Some(Err("approval plan revision mismatch"));
      }
      if policy.Some? && policy.value != run.policy {
        return Some(Err("approval policy revision mismatch"));
      }
      if expiry.text != "" && expiry.time.None? {
        return Some(Err("invalid expiry"));
      }
      var receipt := Approval(Cut(actor, 300), decision, CutExpiry(expiry), Cut(note, 1000), run.plan, run.policy,
                              BindingOf(BindingText(run)));
      run := run.(approvals := run.approvals + [receipt]);
      assert Apply(found.value, Op.Approve(actor, decision, expiry, note, plan, policy)) == Ok(run);
      run := Put(run);
      return Some(Ok(run));
    }

    method StartAttempt(id: string, attemptId: string, tool: string, key: string, sideEffects: bool,
                        idempotent: bool, compensation: bool, now: int) returns (reply: Reply)
      requires Valid()
      modifies this
      ensures Valid()
      ensures reply ==
              Expected(old(runs), id, Start(attemptId, tool, key, sideEffects, idempotent, compensation, now))
      ensures runs ==
              Updated(old(runs), id, Start(attemptId, tool, key, sideEffects, idempotent, compensation, now))
    {
      var found := Get(id);
      if found.None? {
        return None;
      }
      var run := found.value;
      if tool == "" {
        return Some(Err("attempt tool is required"));
      }
      if |run.attempts| >= MAX_ATTEMPTS {
        return Some(Err("max attempts reached"));
      }
      if sideEffects && run.status.AwaitingApproval? {
        if !ApprovedAt(run, now) {
          return Some(Err("requires valid approval"));
        }
        run := run.(status := Running);
      }
      if sideEffects && key == "" {
        return Some(Err("requires an idempotency key"));
      }
      if !Retryable(Prior(run.attempts, tool, key)) {
        return Some(Err("unsafe retry refused"));
      }
      var attempt := CutAttempt(Attempt(attemptId, tool, key, sideEffects, idempotent, compensation, Started, None));
      run := run.(attempts := run.attempts + [attempt]);
      run := Put(run);
      return Some(Ok(run));
    }

    method FinishAttempt(id: string, attemptId: string, outcome: Outcome, result: Option<Data>) returns (reply: Reply)
      requires Valid()
      modifies this
      ensures Valid()
      ensures reply == Expected(old(runs), id, Finish(attemptId, outcome, result))
      ensures runs == Updated(old(runs), id, Finish(attemptId, outcome, result))
    {
      var found := Get(id);
      if found.None? {
        return None;
      }
      var run := found.value;
      var i := IndexOf(run.attempts, attemptId);
      if i == |run.attempts| {
        return None;
      }
      if outcome.Started? {
        return Some(Err("invalid attempt status"));
      }
      var attempt := run.attempts[i].(outcome := outcome, result := result);
      run := Put(run.(attempts := run.attempts[i := attempt]));
      return Some(Ok(run));
    }

    /** A restart: the runs in `kept` are read back from the file, each through normalisation. */
    method Reload(kept: set<string>)
      requires Valid()
      modifies this
      ensures Valid()
      ensures runs == map id | id in old(runs) && id in kept :: old(runs)[id]
    {
      forall id | id in runs
        ensures Normalise(runs[id]) == runs[id]
      {
        StoredRunIsFixed(runs[id]);
      }
      runs := map id | id in runs && id in kept :: Normalise(runs[id]);
    }
  }
}
