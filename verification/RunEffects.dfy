/** What each call does to a stored run, said on its fields, and what a finished side effect means for later calls. */
module RunEffects {
  import opened Options
  import opened Sequences
  import opened RunLedger
  import opened RunHistory

  // ---- what storing keeps ----

  /** The first `n` characters of a text, or all of it. */
  predicate CutTo(text: string, kept: string, n: nat) {
    kept <= text && |kept| == if |text| < n then |text| else n
  }

  /** How many elements of a list are kept, and where the kept ones came from. */
  function KeptCount(all: nat, n: nat): nat {
    if all < n then all else n
  }

  /** Texts keep their beginnings, lists their ends. */
  lemma NormaliseKeeps(run: Run)
    ensures var r := Normalise(run);
            && r.id == run.id && r.status == run.status && r.checkpoint == run.checkpoint
            && CutTo(run.task, r.task, 4000) && CutTo(run.reason, r.reason, 1000)
            && CutTo(run.plan, r.plan, 200) && CutTo(run.policy, r.policy, 200)
            && |r.checkpoints| == KeptCount(|run.checkpoints|, 100) && |r.rollbacks| == KeptCount(|run.rollbacks|, 100)
            && |r.approvals| == KeptCount(|run.approvals|, 100) && |r.attempts| == KeptCount(|run.attempts|, 200)
    ensures var r := Normalise(run);
            && (forall i | 0 <= i < |r.checkpoints| ::
                  r.checkpoints[i] == run.checkpoints[|run.checkpoints| - |r.checkpoints| + i])
            && (forall i | 0 <= i < |r.rollbacks| ::
                  KeptRollback(run.rollbacks[|run.rollbacks| - |r.rollbacks| + i], r.rollbacks[i]))
            && (forall i | 0 <= i < |r.attempts| ::
                  KeptAttempt(run.attempts[|run.attempts| - |r.attempts| + i], r.attempts[i]))
            && (forall i | 0 <= i < |r.approvals| ::
                  KeptApproval(run.approvals[|run.approvals| - |r.approvals| + i], r.approvals[i]))
  {
    CutsKeep();
  }

  predicate KeptRollback(was: Rollback, r: Rollback) {
    r == was.(reason := r.reason) && CutTo(was.reason, r.reason, 1000)
  }

  predicate KeptAttempt(was: Attempt, a: Attempt) {
    a == was.(tool := a.tool, key := a.key) && CutTo(was.tool, a.tool, 200) && CutTo(was.key, a.key, 300)
  }

  predicate KeptApproval(was: Approval, a: Approval) {
    && a.decision == was.decision && a.binding == was.binding
    && CutTo(was.actor, a.actor, 300) && CutTo(was.note, a.note, 1000)
    && CutTo(was.plan, a.plan, 200) && CutTo(was.policy, a.policy, 200)
    && CutTo(was.expiry.text, a.expiry.text, 100)
    && a.expiry.time == if |was.expiry.text| <= 100 then was.expiry.time else was.expiry.timeOfCut
  }

  lemma CutsKeep()
    ensures forall r :: KeptRollback(r, CutRollback(r))
    ensures forall a :: KeptAttempt(a, CutAttempt(a))
    ensures forall a :: KeptApproval(a, CutApproval(a))
  {
  }

  // ---- the lifecycle, status by status ----

  /** The transition table read by its targets. */
  lemma TableByTarget(from: Status)
    ensures Created !in from.Targets()
    ensures Planned in from.Targets() <==> from.Created? || from.AwaitingApproval?
    ensures AwaitingApproval in from.Targets() <==> from.Created? || from.Planned?
    ensures Running in from.Targets() <==> from.Created? || from.Planned? || from.AwaitingApproval?
    ensures Verifying in from.Targets() <==> from.Running?
    ensures RollbackRequired in from.Targets() <==> from.Running? || from.Verifying?
    ensures Succeeded in from.Targets() <==> from.Running? || from.Verifying?
    ensures Failed in from.Targets() <==> !from.Terminal()
    ensures Cancelled in from.Targets() <==> from.Created? || from.Planned? || from.AwaitingApproval? || from.Running?
    ensures RolledBack in from.Targets() <==> from.RollbackRequired?
    ensures from.Terminal() <==> from in {Succeeded, Failed, Cancelled, RolledBack}
  {
  }

  /** A run as stored after some fields were set, the others staying as they are. */
  lemma StoredAs(run: Run, op: Op, next: Run)
    requires Apply(run, op) == Ok(next) && Fits(next)
    ensures After(run, op) == next
  {
    StoredRunIsFixed(next);
  }

  /** A transition sets the status, and the reason if one is given, when the status stays or the table allows it. */
  lemma TransitionMeans(run: Run, status: Status, reason: string)
    requires Fits(run)
    ensures var next := After(run, Transition(status, reason, None));
            if run.status == status || status in run.status.Targets() then
              && next == run.(status := status, reason := next.reason)
              && (if reason == "" then next.reason == run.reason else CutTo(reason, next.reason, 1000))
            else next == run
  {
    if run.status == status || status in run.status.Targets() {
      StoredAs(run, Transition(status, reason, None),
               run.(status := status, reason := if reason != "" then Cut(reason, 1000) else run.reason));
    }
  }

  /** Only a run that neither is finished nor being verified or rolled back can be cancelled. */
  lemma CancelMeans(run: Run, reason: string)
    requires Fits(run)
    ensures var next := After(run, Cancel(reason));
            if run.status in {Created, Planned, AwaitingApproval, Running} then
              && next == run.(status := Cancelled, reason := next.reason)
              && (if reason == "" then next.reason == run.reason else CutTo(reason, next.reason, 1000))
            else next == run
  {
    TransitionMeans(run, Cancelled, reason);
    StoredRunIsFixed(run);
    assert !run.status.Terminal() ==> Apply(run, Cancel(reason)) == Apply(run, Transition(Cancelled, reason, None));
  }

  /** Every run that is not finished can be resumed; it keeps its reason, if it has one. */
  lemma ResumeMeans(run: Run)
    requires Fits(run)
    ensures var next := After(run, Resume);
            if run.status.Running? || run.status in {Succeeded, Failed, Cancelled, RolledBack} then next == run
            else next == run.(status := Running,
                              reason := if run.reason == "" then "resumed after interruption" else run.reason)
  {
    StoredRunIsFixed(run);
    if !run.status.Terminal() && !run.status.Running? {
      StoredAs(run, Resume, run.(status := Running,
                                 reason := if run.reason == "" then "resumed after interruption" else run.reason));
    }
  }

  /** No call changes which run it is, and each list is changed by its own calls only. */
  lemma CallsTouchTheirOwn(run: Run, op: Op)
    requires Fits(run)
    ensures var next := After(run, op);
            && next.id == run.id && next.task == run.task && next.plan == run.plan && next.policy == run.policy
            && (!op.Approve? ==> next.approvals == run.approvals)
            && (!op.RollBack? ==> next.rollbacks == run.rollbacks)
            && (!op.Start? && !op.Finish? ==> next.attempts == run.attempts)
            && (!op.Transition? && !op.Checkpoint? ==> next.checkpoints == run.checkpoints)
            && (!op.Transition? && !op.Checkpoint? && !op.RollBack? ==> next.checkpoint == run.checkpoint)
    ensures var next := After(run, op);
            && (op.Finish? || op.Checkpoint? || op.Approve? ==> next.status == run.status && next.reason == run.reason)
            && (op.Start? ==> next.reason == run.reason)
  {
    StoredRunIsFixed(run);
  }

  // ---- recovery points ----

  /** The current point is the last one added, as long as nothing was rolled back. */
  lemma {:induction false} CurrentPointIsLatest(run: Run, ops: seq<Op>)
    requires Fits(run) && forall i | 0 <= i < |ops| :: !ops[i].RollBack?
    ensures var all := AllPoints(run, ops);
            Replay(run, ops).checkpoint == if all == [] then run.checkpoint else all[|all| - 1]
    decreases |ops|
  {
    if ops != [] {
      AfterFits(run, ops[0]);
      CurrentPointIsLatest(After(run, ops[0]), ops[1..]);
      AddedIsCurrent(run, ops[0]);
    }
  }

  lemma AddedIsCurrent(run: Run, op: Op)
    requires !op.RollBack?
    ensures After(run, op).checkpoint == if Added(run, op) == [] then run.checkpoint else Added(run, op)[0]
    ensures |Added(run, op)| <= 1
  {
  }

  /** A rollback without a position goes to the point before the last, or to the only one. */
  lemma RollbackDefaultsToPrevious(run: Run, reason: string)
    requires run.checkpoints != []
    ensures After(run, RollBack(None, reason)) ==
            After(run, RollBack(Some(if |run.checkpoints| == 1 then 0 else |run.checkpoints| - 2), reason))
  {
  }

  /** A rollback is refused exactly for a succeeded or cancelled run, without points, or outside them. */
  lemma RollbackRefusedIff(run: Run, target: int, reason: string)
    ensures Apply(run, RollBack(Some(target), reason)).Err? <==>
            run.status in {Succeeded, Cancelled} || !(0 <= target < |run.checkpoints|)
    ensures Apply(run, RollBack(None, reason)).Err? <==> run.status in {Succeeded, Cancelled} || run.checkpoints == []
  {
  }

  lemma NotedRollbackFits(run: Run, data: Data, r: Rollback)
    requires Fits(run) && |r.reason| <= 1000
    ensures var noted := run.(checkpoint := data, status := RolledBack, reason := r.reason);
            Normalise(noted.(rollbacks := run.rollbacks + [r])) == noted.(rollbacks := Last(run.rollbacks, 99) + [r])
  {
    var kept := Last(run.rollbacks, 99) + [r];
    assert Last(run.rollbacks + [r], 100) == kept;
    forall b | b in kept
      ensures CutRollback(b) == b
    {
    }
    StoredRunIsFixed(run.(checkpoint := data, rollbacks := kept, status := RolledBack, reason := r.reason));
  }

  /** A rollback notes its reason, or where it went when none is given; nothing else but the status changes. */
  lemma RollbackRecords(run: Run, target: nat, reason: string)
    requires Fits(run) && Apply(run, RollBack(Some(target), reason)).Ok?
    ensures var next := After(run, RollBack(Some(target), reason));
            && target < |run.checkpoints| && next.rollbacks != []
            && var r := next.rollbacks[|next.rollbacks| - 1];
               && r == Rollback(|run.checkpoints| - 1, target, r.reason)
               && var why := if reason == "" then "rolled back to recovery point " + Decimal(target) else reason;
               && CutTo(why, r.reason, 1000)
               && next == run.(checkpoint := run.checkpoints[target].data, status := RolledBack, reason := r.reason,
                               rollbacks := Last(run.rollbacks, 99) + [r])
  {
    var why := if reason == "" then "rolled back to recovery point " + Decimal(target) else reason;
    NotedRollbackFits(run, run.checkpoints[target].data, Rollback(|run.checkpoints| - 1, target, Cut(why, 1000)));
  }

  // ---- attempts ----

  /** Finishing an attempt records exactly the given outcome and result in the first attempt of that id. */
  lemma FinishRecords(run: Run, i: nat, attemptId: string, outcome: Outcome, result: Option<Data>)
    requires Fits(run) && i < |run.attempts| && run.attempts[i].id == attemptId
    requires forall k | 0 <= k < i :: run.attempts[k].id != attemptId
    ensures var next := After(run, Finish(attemptId, outcome, result));
            if outcome.Started? then next == run
            else
              && next == run.(attempts := next.attempts) && |next.attempts| == |run.attempts|
              && next.attempts[i] == run.attempts[i].(outcome := outcome, result := result)
              && forall k | 0 <= k < |run.attempts| && k != i :: next.attempts[k] == run.attempts[k]
  {
    assert IndexOf(run.attempts, attemptId) == i;
    AfterAttempts(run, Finish(attemptId, outcome, result));
    CallsTouchTheirOwn(run, Finish(attemptId, outcome, result));
  }

  lemma FinishOfUnknown(run: Run, attemptId: string, outcome: Outcome, result: Option<Data>)
    requires forall a | a in run.attempts :: a.id != attemptId
    ensures After(run, Finish(attemptId, outcome, result)) == run
  {
    assert forall i | 0 <= i < |run.attempts| :: run.attempts[i] in run.attempts;
    assert IndexOf(run.attempts, attemptId) == |run.attempts|;
  }

  /** The attempt at `i` is of this pair, with a key, and not compensated. */
  predicate Counts(attempts: seq<Attempt>, i: nat, tool: string, key: string) {
    && i < |attempts| && key != "" && attempts[i].key == key && attempts[i].tool == tool
    && attempts[i].outcome != Compensated
  }

  ghost predicate FirstThatCounts(attempts: seq<Attempt>, i: nat, tool: string, key: string) {
    Counts(attempts, i, tool, key) && forall k | 0 <= k < i :: !Counts(attempts, k, tool, key)
  }

  /** The rule that decides a start, on the fields of the run: the first attempt that counts must be safe to repeat. */
  ghost predicate MayStart(run: Run, op: Op)
    requires op.Start?
  {
    && op.tool != "" && |run.attempts| < 10
    && (op.sideEffects ==> op.key != "" && (run.status.AwaitingApproval? ==> ApprovedAt(run, op.now)))
    && forall i: nat | FirstThatCounts(run.attempts, i, op.tool, op.key) ::
         !run.attempts[i].sideEffects || (run.attempts[i].idempotent && run.attempts[i].outcome != Done)
  }

  lemma PriorIsFirstThatCounts(run: Run, tool: string, key: string)
    ensures match Prior(run.attempts, tool, key)
            case Some(a) => exists i: nat :: FirstThatCounts(run.attempts, i, tool, key) && run.attempts[i] == a
            case None => forall i: nat :: !FirstThatCounts(run.attempts, i, tool, key)
  {
    PriorIsFirst(run.attempts, tool, key);
    if Prior(run.attempts, tool, key).Some? {
      var i :| 0 <= i < |run.attempts| && Prior(run.attempts, tool, key) == Some(run.attempts[i])
        && Matches(run.attempts[i], tool, key) && forall j | 0 <= j < i :: !Matches(run.attempts[j], tool, key);
      assert FirstThatCounts(run.attempts, i, tool, key);
    } else {
      assert forall i | 0 <= i < |run.attempts| :: run.attempts[i] in run.attempts;
    }
  }

  lemma FirstIsUnique(attempts: seq<Attempt>, i: nat, j: nat, tool: string, key: string)
    requires FirstThatCounts(attempts, i, tool, key) && FirstThatCounts(attempts, j, tool, key)
    ensures i == j
  {
  }

  lemma StartAllowedIff(run: Run, op: Op)
    requires op.Start?
    ensures Apply(run, op).Ok? <==> MayStart(run, op)
  {
    PriorIsFirstThatCounts(run, op.tool, op.key);
    if Prior(run.attempts, op.tool, op.key).Some? {
      var i: nat :| FirstThatCounts(run.attempts, i, op.tool, op.key)
        && run.attempts[i] == Prior(run.attempts, op.tool, op.key).value;
      forall j: nat | FirstThatCounts(run.attempts, j, op.tool, op.key)
        ensures j == i
      {
        FirstIsUnique(run.attempts, i, j, op.tool, op.key);
      }
    }
  }

  /** A start is accepted exactly by that rule, and then adds one started attempt with the names it was given. */
  lemma StartMeans(run: Run, op: Op)
    requires Fits(run) && op.Start?
    ensures var next := After(run, op);
            if MayStart(run, op) then
              && next == run.(attempts := next.attempts,
                              status := if run.status.AwaitingApproval? && op.sideEffects then Running else run.status)
              && |next.attempts| == |run.attempts| + 1 && run.attempts <= next.attempts
              && var a := next.attempts[|run.attempts|];
                 && a == Attempt(op.attemptId, a.tool, a.key, op.sideEffects, op.idempotent, op.compensation,
                                 Started, None)
                 && CutTo(op.tool, a.tool, 200) && CutTo(op.key, a.key, 300)
            else next == run
  {
    StartAllowedIff(run, op);
    if MayStart(run, op) {
      var a := CutAttempt(Attempt(op.attemptId, op.tool, op.key, op.sideEffects, op.idempotent, op.compensation,
                                  Started, None));
      var status := if op.sideEffects && run.status.AwaitingApproval? then Running else run.status;
      StoredAs(run, op, run.(status := status, attempts := run.attempts + [a]));
    }
  }

  /** No call in the history finishes one of the first `n` attempts. */
  ghost predicate LeavesFirst(run: Run, ops: seq<Op>, n: nat) {
    forall k, i | 0 <= k < |ops| && ops[k].Finish? && 0 <= i < |run.attempts| && i < n ::
      ops[k].attemptId != run.attempts[i].id
  }

  lemma StepLeavesFirst(run: Run, op: Op, n: nat)
    requires Fits(run) && n <= |run.attempts|
    requires op.Finish? ==> forall i | 0 <= i < n :: op.attemptId != run.attempts[i].id
    ensures n <= |After(run, op).attempts| && After(run, op).attempts[..n] == run.attempts[..n]
  {
    AfterAttempts(run, op);
  }

  lemma {:induction false} HistoryLeavesFirst(run: Run, ops: seq<Op>, n: nat)
    requires Fits(run) && n <= |run.attempts| && LeavesFirst(run, ops, n)
    ensures Fits(Replay(run, ops)) && n <= |Replay(run, ops).attempts|
    ensures Replay(run, ops).attempts[..n] == run.attempts[..n]
    decreases |ops|
  {
    if ops != [] {
      var next := After(run, ops[0]);
      StepLeavesFirst(run, ops[0], n);
      AfterFits(run, ops[0]);
      assert forall i | 0 <= i < n :: next.attempts[i] == next.attempts[..n][i] == run.attempts[i];
      assert forall k | 0 <= k < |ops| - 1 :: ops[1..][k] == ops[k + 1];
      HistoryLeavesFirst(next, ops[1..], n);
    }
  }

  /**
   A side effect that has succeeded and is the first attempt of its pair that counts: in every history that finishes
   neither it nor an attempt before it again, every start of that pair is refused, idempotent or not.
   */
  lemma DoneRefusesStarts(run: Run, i: nat, ops: seq<Op>, start: Op)
    requires Fits(run) && start.Start? && FirstThatCounts(run.attempts, i, start.tool, start.key)
    requires run.attempts[i].sideEffects && run.attempts[i].outcome == Done
    requires LeavesFirst(run, ops, i + 1)
    ensures var now := Replay(run, ops);
            && Apply(now, start).Err? && After(now, start) == now
            && i < |now.attempts| && now.attempts[i] == run.attempts[i]
  {
    HistoryLeavesFirst(run, ops, i + 1);
    var now := Replay(run, ops);
    SamePrefixSameFirst(run.attempts, now.attempts, i, start.tool, start.key);
    StartAllowedIff(now, start);
  }

  lemma SamePrefixSameFirst(p: seq<Attempt>, q: seq<Attempt>, i: nat, tool: string, key: string)
    requires i < |p| && i < |q| && p[..i + 1] == q[..i + 1] && FirstThatCounts(p, i, tool, key)
    ensures FirstThatCounts(q, i, tool, key) && q[i] == p[i]
  {
    assert forall k | 0 <= k <= i :: p[k] == p[..i + 1][k] == q[..i + 1][k] == q[k];
    forall k | 0 <= k < i
      ensures !Counts(q, k, tool, key)
    {
      assert !Counts(p, k, tool, key);
    }
  }

  // ---- approvals ----

  /** A run is approved exactly on a newest approving receipt that is alive and made for this run, plan and policy. */
  lemma ApprovedIff(run: Run, now: int)
    ensures ApprovedAt(run, now) <==>
            exists i :: 0 <= i < |run.approvals| && LiveReceipt(run, i, now)
  {
    ReceiptIsNewestApproval(run.approvals);
    if ApprovedAt(run, now) {
      var i :| 0 <= i < |run.approvals| && Receipt(run.approvals) == Some(run.approvals[i])
        && run.approvals[i].decision.Approved?
        && forall j | i < j < |run.approvals| :: !run.approvals[j].decision.Approved?;
      assert LiveReceipt(run, i, now);
    }
    if i :| 0 <= i < |run.approvals| && LiveReceipt(run, i, now) {
      assert run.approvals[i] in run.approvals;
      var j :| 0 <= j < |run.approvals| && Receipt(run.approvals) == Some(run.approvals[j])
        && run.approvals[j].decision.Approved?
        && forall k | j < k < |run.approvals| :: !run.approvals[k].decision.Approved?;
      assert i == j;
    }
  }

  ghost predicate LiveReceipt(run: Run, i: nat, now: int)
    requires i < |run.approvals|
  {
    var a := run.approvals[i];
    && a.decision.Approved? && (forall j | i < j < |run.approvals| :: !run.approvals[j].decision.Approved?)
    && (a.expiry.text == "" || a.expiry.time.None? || now < a.expiry.time.value)
    && a.plan == run.plan && a.policy == run.policy
    && a.binding == BindingOf(run.id + "\0" + run.plan + "\0" + run.policy)
  }

  /** When an approval is taken: the run waits and has both revisions, those given match, the expiry is a time. */
  predicate MayApprove(run: Run, expiry: Expiry, plan: Option<string>, policy: Option<string>) {
    && run.status.AwaitingApproval? && run.plan != "" && run.policy != ""
    && (plan.None? || plan.value == run.plan) && (policy.None? || policy.value == run.policy)
    && (expiry.text == "" || expiry.time.Some?)
  }

  /** An approval call adds one receipt for this run, plan and policy, or changes nothing. */
  lemma ApproveMeans(run: Run, actor: string, decision: Decision, expiry: Expiry, note: string,
                     plan: Option<string>, policy: Option<string>)
    requires Fits(run)
    ensures var next := After(run, Approve(actor, decision, expiry, note, plan, policy));
            if MayApprove(run, expiry, plan, policy) then
              && next == run.(approvals := next.approvals) && next.approvals != []
              && var n := |next.approvals| - 1;
                 var a := next.approvals[n];
                 && next.approvals[..n] == (if |run.approvals| < 100 then run.approvals else run.approvals[1..])
                 && a == Approval(a.actor, decision, CutExpiry(expiry), a.note, run.plan, run.policy,
                                  BindingOf(run.id + "\0" + run.plan + "\0" + run.policy))
                 && CutTo(actor, a.actor, 300) && CutTo(note, a.note, 1000)
            else next == run
  {
    if MayApprove(run, expiry, plan, policy) {
      var a := Approval(Cut(actor, 300), decision, CutExpiry(expiry), Cut(note, 1000), run.plan, run.policy,
                        BindingOf(BindingText(run)));
      assert CutApproval(a) == a;
      var op := Approve(actor, decision, expiry, note, plan, policy);
      assert Apply(run, op) == Ok(run.(approvals := run.approvals + [a]));
      ReceiptStored(run, a);
    }
  }

  lemma ReceiptStored(run: Run, a: Approval)
    requires Fits(run) && CutApproval(a) == a
    ensures var kept := if |run.approvals| < 100 then run.approvals else run.approvals[1..];
            Normalise(run.(approvals := run.approvals + [a])) == run.(approvals := kept + [a])
  {
    var kept := if |run.approvals| < 100 then run.approvals else run.approvals[1..];
    assert Last(run.approvals + [a], 100) == kept + [a];
    assert Normalise(run.(approvals := run.approvals + [a])) == Normalise(run.(approvals := kept + [a]));
    assert forall b | b in kept + [a] :: CutApproval(b) == b;
    StoredRunIsFixed(run.(approvals := kept + [a]));
  }

  lemma NewReceiptDecides(run: Run, now: int)
    requires run.approvals != [] && run.approvals[|run.approvals| - 1].decision.Approved?
    ensures ApprovedAt(run, now) <==> LiveReceipt(run, |run.approvals| - 1, now)
  {
    ApprovedIff(run, now);
    var n := |run.approvals| - 1;
    assert forall i | 0 <= i < n :: !LiveReceipt(run, i, now);
  }

  lemma RejectionIsIgnored(run: Run, next: Run, now: int)
    requires next == run.(approvals := next.approvals) && |next.approvals| == |run.approvals| + 1
    requires run.approvals <= next.approvals && !next.approvals[|run.approvals|].decision.Approved?
    ensures ApprovedAt(next, now) <==> ApprovedAt(run, now)
  {
    assert next.approvals[..|run.approvals|] == run.approvals;
    assert Receipt(next.approvals) == Receipt(run.approvals);
  }

  /** After an approval the run is approved until the expiry; a rejection takes no earlier approval back. */
  lemma DecisionsTakeEffect(run: Run, actor: string, decision: Decision, expiry: Expiry, note: string, now: int)
    requires Fits(run) && MayApprove(run, expiry, None, None) && |expiry.text| <= 100
    requires decision.Approved? || |run.approvals| < 100
    ensures var next := After(run, Approve(actor, decision, expiry, note, None, None));
            ApprovedAt(next, now) <==>
            if decision.Approved? then expiry.text == "" || now < expiry.time.value else ApprovedAt(run, now)
  {
    ApproveMeans(run, actor, decision, expiry, note, None, None);
    var next := After(run, Approve(actor, decision, expiry, note, None, None));
    if decision.Approved? {
      NewReceiptDecides(next, now);
    } else {
      RejectionIsIgnored(run, next, now);
    }
  }
}
