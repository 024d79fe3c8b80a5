/** What every history of calls keeps: recovery points, the lifecycle, and at-most-once side effects. */
module RunHistory {
  import opened Options
  import opened Sequences
  import opened RunLedger

  /** The run after a whole history of calls; failing calls change nothing. */
  function Replay(run: Run, ops: seq<Op>): Run
    decreases |ops|
  {
    if ops == [] then run else Replay(After(run, ops[0]), ops[1..])
  }

  // ---- recovery points ----

  /** The recovery point a call adds, if it adds one. */
  function Added(run: Run, op: Op): seq<Data> {
    if Apply(run, op).Err? then []
    else match op
      case Transition(_, _, Some(data)) => [data]
      case Checkpoint(data) => [if data.Some? then data.value else NO_DATA]
      case _ => []
  }

  /** Every recovery point ever added, oldest first, although the run stores only a window of them. */
  function AllPoints(run: Run, ops: seq<Op>): seq<Data>
    decreases |ops|
  {
    if ops == [] then [] else Added(run, ops[0]) + AllPoints(After(run, ops[0]), ops[1..])
  }

  function Datas(points: seq<Point>): (datas: seq<Data>)
    ensures |datas| == |points| && forall i | 0 <= i < |points| :: datas[i] == points[i].data
  {
    seq(|points|, i requires 0 <= i < |points| => points[i].data)
  }

  /** Keeping a window and then adding is adding and then keeping a window. */
  lemma WindowAbsorbs<T>(all: seq<T>, more: seq<T>, n: nat)
    ensures Last(Last(all, n) + more, n) == Last(all + more, n)
  {
    var inner := Last(all, n) + more;
    if |all| > n {
      assert all == all[..|all| - n] + Last(all, n);
      assert all + more == all[..|all| - n] + inner;
    }
  }

  lemma PointsAdded(run: Run, op: Op)
    requires Fits(run) && Apply(run, op).Ok?
    ensures Datas(Apply(run, op).value.checkpoints) == Datas(run.checkpoints) + Added(run, op)
  {
    var points := Apply(run, op).value.checkpoints;
    assert Added(run, op) == [] ==> points == run.checkpoints;
    assert Added(run, op) != [] ==> points == run.checkpoints + [Point(|run.checkpoints|, Added(run, op)[0])];
  }

  lemma StepKeepsWindow(run: Run, op: Op, before: seq<Data>)
    requires Fits(run) && Datas(run.checkpoints) == Last(before, MAX_CHECKPOINTS)
    ensures Datas(After(run, op).checkpoints) == Last(before + Added(run, op), MAX_CHECKPOINTS)
  {
    match Apply(run, op)
    case Err(_) =>
      assert before + Added(run, op) == before;
    case Ok(next) =>
      PointsAdded(run, op);
      WindowAbsorbs(before, Added(run, op), MAX_CHECKPOINTS);
      assert Datas(Last(next.checkpoints, MAX_CHECKPOINTS)) == Last(Datas(next.checkpoints), MAX_CHECKPOINTS);
  }

  /** The stored recovery points are always the last hundred ever added, in order. */
  lemma {:induction false} StoredPointsAreTheLastHundred(run: Run, ops: seq<Op>, before: seq<Data>)
    requires Fits(run) && Datas(run.checkpoints) == Last(before, MAX_CHECKPOINTS)
    ensures Datas(Replay(run, ops).checkpoints) == Last(before + AllPoints(run, ops), MAX_CHECKPOINTS)
    decreases |ops|
  {
    if ops == [] {
      assert before + [] == before;
    } else {
      StepKeepsWindow(run, ops[0], before);
      AfterFits(run, ops[0]);
      var next := before + Added(run, ops[0]);
      StoredPointsAreTheLastHundred(After(run, ops[0]), ops[1..], next);
      Associate(before, Added(run, ops[0]), AllPoints(After(run, ops[0]), ops[1..]));
    }
  }

  /** After any history, a rollback restores the chosen one of the last hundred points and keeps them all. */
  lemma RollbackRestoresChosenPoint(run: Run, ops: seq<Op>, target: nat, reason: string)
    requires Fits(run) && run.checkpoints == []
    requires var now := Replay(run, ops); Apply(now, RollBack(Some(target), reason)).Ok?
    ensures var now := Replay(run, ops);
            var window := Last(AllPoints(run, ops), MAX_CHECKPOINTS);
            var next := After(now, RollBack(Some(target), reason));
            && target < |window| && next.checkpoint == window[target]
            && Datas(next.checkpoints) == window
            && next.status.RolledBack? && next.attempts == now.attempts
            && next.rollbacks != []
            && next.rollbacks[|next.rollbacks| - 1].toIndex == target
            && next.rollbacks[|next.rollbacks| - 1].fromIndex == |window| - 1
  {
    StoredPointsAreTheLastHundred(run, ops, []);
    assert [] + AllPoints(run, ops) == AllPoints(run, ops);
    var now := Replay(run, ops);
    ReplayFits(run, ops);
    StoredRunIsFixed(now);
    var undone := Apply(now, RollBack(Some(target), reason)).value;
    assert Normalise(undone).attempts == Normalise(now).attempts;
  }

  lemma {:induction false} ReplayFits(run: Run, ops: seq<Op>)
    requires Fits(run)
    ensures Fits(Replay(run, ops))
    decreases |ops|
  {
    if ops != [] {
      AfterFits(run, ops[0]);
      ReplayFits(After(run, ops[0]), ops[1..]);
    }
  }

  // ---- lifecycle ----

  /** Every status change one call can make, table or not. */
  predicate Edge(from: Status, to: Status) {
    || from == to
    || to in from.Targets()
    || (to.Running? && !from.Terminal())
    || (to.RolledBack? && !from.Succeeded? && !from.Cancelled?)
  }

  lemma CallFollowsEdge(run: Run, op: Op)
    ensures Edge(run.status, After(run, op).status)
    ensures After(run, op).status.RolledBack? && run.status != RolledBack ==>
              op.RollBack? || (op.Transition? && run.status.RollbackRequired?)
  {
  }

  /** Finished stays finished: only a failed run can still change, and only into a rolled-back one. */
  lemma {:induction false} TerminalIsFinal(run: Run, ops: seq<Op>)
    requires run.status.Terminal()
    ensures Replay(run, ops).status == run.status
            || (run.status.Failed? && Replay(run, ops).status.RolledBack?)
    decreases |ops|
  {
    if ops != [] {
      CallFollowsEdge(run, ops[0]);
      TerminalIsFinal(After(run, ops[0]), ops[1..]);
    }
  }

  // ---- at-most-once side effects ----

  /** A non-idempotent side effect that has not been compensated. */
  predicate Live(a: Attempt) {
    a.sideEffects && !a.idempotent && !a.outcome.Compensated?
  }

  predicate SamePair(a: Attempt, b: Attempt) {
    a.tool == b.tool && a.key == b.key
  }

  ghost predicate AtMostOnce(attempts: seq<Attempt>) {
    forall i, j | 0 <= i < j < |attempts| && Live(attempts[i]) && Live(attempts[j]) ::
      !SamePair(attempts[i], attempts[j])
  }

  ghost predicate FlagsAgree(attempts: seq<Attempt>) {
    forall i, j | 0 <= i < j < |attempts| && SamePair(attempts[i], attempts[j]) ::
      attempts[i].sideEffects == attempts[j].sideEffects && attempts[i].idempotent == attempts[j].idempotent
  }

  /** What the caller has to respect, checkable before the call. */
  ghost predicate Conforms(run: Run, op: Op) {
    match op
    case Start(_, tool, key, sideEffects, idempotent, _, _) =>
      && |tool| <= MAX_TOOL && |key| <= MAX_KEY
      && forall a | a in run.attempts && a.tool == tool && a.key == key ::
           a.sideEffects == sideEffects && a.idempotent == idempotent
    case Finish(attemptId, outcome, _) =>
      var i := IndexOf(run.attempts, attemptId);
      i < |run.attempts| && run.attempts[i].outcome.Compensated? ==> outcome.Compensated?
    case _ => true
  }

  ghost predicate ConformingHistory(run: Run, ops: seq<Op>)
    decreases |ops|
  {
    ops == [] || (Conforms(run, ops[0]) && ConformingHistory(After(run, ops[0]), ops[1..]))
  }

  /** The attempt consulted before a retry is the first one that matches. */
  lemma {:induction false} PriorIsFirst(attempts: seq<Attempt>, tool: string, key: string)
    ensures Prior(attempts, tool, key).Some? ==>
              exists i :: 0 <= i < |attempts| && Prior(attempts, tool, key) == Some(attempts[i])
                          && Matches(attempts[i], tool, key)
                          && forall j | 0 <= j < i :: !Matches(attempts[j], tool, key)
    ensures Prior(attempts, tool, key).None? ==> forall a | a in attempts :: !Matches(a, tool, key)
  {
    if attempts != [] && !Matches(attempts[0], tool, key) {
      PriorIsFirst(attempts[1..], tool, key);
      if Prior(attempts[1..], tool, key).Some? {
        var i :| 0 <= i < |attempts| - 1 && Prior(attempts[1..], tool, key) == Some(attempts[1..][i])
                 && Matches(attempts[1..][i], tool, key)
                 && forall j | 0 <= j < i :: !Matches(attempts[1..][j], tool, key);
        assert Prior(attempts, tool, key) == Some(attempts[i + 1]);
        forall j | 0 <= j < i + 1
          ensures !Matches(attempts[j], tool, key)
        {
          assert j > 0 ==> attempts[j] == attempts[1..][j - 1];
        }
      }
    }
  }

  /** Accepted starts of a conforming caller find no live attempt of their pair. */
  lemma AcceptedStartFindsNoLiveAttempt(run: Run, op: Op)
    requires Fits(run) && op.Start? && Conforms(run, op) && Apply(run, op).Ok?
    requires op.sideEffects && !op.idempotent
    ensures forall a | a in run.attempts && Live(a) :: a.tool != op.tool || a.key != op.key
  {
    PriorIsFirst(run.attempts, op.tool, op.key);
  }

  lemma AfterAttempts(run: Run, op: Op)
    requires Fits(run)
    ensures After(run, op).attempts ==
            match Apply(run, op)
            case Ok(next) => next.attempts
            case Err(_) => run.attempts
  {
    AfterFits(run, op);
    if Apply(run, op).Ok? {
      var next := Apply(run, op).value;
      forall i | 0 <= i < |next.attempts|
        ensures CutAttempt(next.attempts[i]) == next.attempts[i]
      {
        assert i < |run.attempts| ==> run.attempts[i] in run.attempts;
      }
      assert Normalise(next).attempts == next.attempts;
    }
  }

  /** A new attempt that no live one of its pair precedes, with the flags its pair already has. */
  lemma AppendKeepsAtMostOnce(attempts: seq<Attempt>, a: Attempt)
    requires AtMostOnce(attempts) && FlagsAgree(attempts)
    requires forall b | b in attempts && SamePair(b, a) ::
               b.sideEffects == a.sideEffects && b.idempotent == a.idempotent
    requires Live(a) ==> forall b | b in attempts && Live(b) :: !SamePair(b, a)
    ensures AtMostOnce(attempts + [a]) && FlagsAgree(attempts + [a])
  {
    assert forall i | 0 <= i < |attempts| :: attempts[i] in attempts;
  }

  /** A finished attempt keeps its pair and flags, and only a compensated one could come back to life. */
  lemma UpdateKeepsAtMostOnce(attempts: seq<Attempt>, i: nat, a: Attempt)
    requires AtMostOnce(attempts) && FlagsAgree(attempts) && i < |attempts|
    requires SamePair(attempts[i], a) && attempts[i].sideEffects == a.sideEffects
    requires attempts[i].idempotent == a.idempotent && (Live(a) ==> Live(attempts[i]))
    ensures AtMostOnce(attempts[i := a]) && FlagsAgree(attempts[i := a])
  {
  }

  lemma ConformingStartKeepsAtMostOnce(run: Run, op: Op)
    requires Fits(run) && AtMostOnce(run.attempts) && FlagsAgree(run.attempts) && Conforms(run, op) && op.Start?
    ensures AtMostOnce(After(run, op).attempts) && FlagsAgree(After(run, op).attempts)
  {
    AfterAttempts(run, op);
    if Apply(run, op).Ok? {
      if op.sideEffects && !op.idempotent {
        AcceptedStartFindsNoLiveAttempt(run, op);
      }
      AppendKeepsAtMostOnce(run.attempts, Attempt(op.attemptId, op.tool, op.key, op.sideEffects, op.idempotent,
                                                  op.compensation, Started, None));
    }
  }

  lemma ConformingFinishKeepsAtMostOnce(run: Run, op: Op)
    requires Fits(run) && AtMostOnce(run.attempts) && FlagsAgree(run.attempts) && Conforms(run, op) && op.Finish?
    ensures AtMostOnce(After(run, op).attempts) && FlagsAgree(After(run, op).attempts)
  {
    AfterAttempts(run, op);
    var i := IndexOf(run.attempts, op.attemptId);
    if i < |run.attempts| {
      UpdateKeepsAtMostOnce(run.attempts, i, run.attempts[i].(outcome := op.outcome, result := op.result));
    }
  }

  lemma ConformingStepKeepsAtMostOnce(run: Run, op: Op)
    requires Fits(run) && AtMostOnce(run.attempts) && FlagsAgree(run.attempts) && Conforms(run, op)
    ensures AtMostOnce(After(run, op).attempts) && FlagsAgree(After(run, op).attempts)
  {
    match op
    case Start(_, _, _, _, _, _, _) => ConformingStartKeepsAtMostOnce(run, op);
    case Finish(_, _, _) => ConformingFinishKeepsAtMostOnce(run, op);
    case _ => AfterAttempts(run, op);
  }

  /** The ledger's promise: in every conforming history no side effect is live twice, and ten attempts are the limit. */
  lemma {:induction false} SideEffectsAtMostOnce(run: Run, ops: seq<Op>)
    requires Fits(run) && AtMostOnce(run.attempts) && FlagsAgree(run.attempts) && ConformingHistory(run, ops)
    requires |run.attempts| <= 10
    ensures AtMostOnce(Replay(run, ops).attempts)
    ensures |Replay(run, ops).attempts| <= 10
    decreases |ops|
  {
    if ops != [] {
      ConformingStepKeepsAtMostOnce(run, ops[0]);
      AfterFits(run, ops[0]);
      SideEffectsAtMostOnce(After(run, ops[0]), ops[1..]);
    }
  }

  // ---- exactly when the promise is broken, whoever calls ----

  ghost predicate LiveBeside(attempts: seq<Attempt>, i: nat, tool: string, key: string) {
    exists j :: 0 <= j < |attempts| && j != i && Live(attempts[j]) && attempts[j].tool == tool && attempts[j].key == key
  }

  /** The retry check misses the live attempt: the names are too long to match, or another attempt stands before it. */
  predicate Overlooks(run: Run, tool: string, key: string) {
    var prior := Prior(run.attempts, tool, key);
    || |tool| > MAX_TOOL || |key| > MAX_KEY
    || (prior.Some? && (!prior.value.sideEffects || (prior.value.idempotent && !prior.value.outcome.Done?)))
  }

  /** A call that lets a second live side effect of one tool and key through, told by the guards it meets. */
  ghost predicate Breaks(run: Run, op: Op) {
    match op
    case Start(_, tool, key, sideEffects, idempotent, _, now) =>
      && sideEffects && !idempotent && tool != "" && key != "" && |run.attempts| < MAX_ATTEMPTS
      && (run.status.AwaitingApproval? ==> ApprovedAt(run, now))
      && LiveBeside(run.attempts, |run.attempts|, Cut(tool, MAX_TOOL), Cut(key, MAX_KEY))
      && Overlooks(run, tool, key)
    case Finish(attemptId, outcome, _) =>
      var i := IndexOf(run.attempts, attemptId);
      && i < |run.attempts| && !outcome.Started? && !outcome.Compensated?
      && run.attempts[i].outcome.Compensated? && run.attempts[i].sideEffects && !run.attempts[i].idempotent
      && LiveBeside(run.attempts, i, run.attempts[i].tool, run.attempts[i].key)
    case _ => false
  }

  /** Beside a live attempt under the stored names, the retry check passes exactly when it overlooks it. */
  lemma RetryBesideLive(run: Run, tool: string, key: string)
    requires Fits(run) && key != "" && LiveBeside(run.attempts, |run.attempts|, Cut(tool, MAX_TOOL), Cut(key, MAX_KEY))
    ensures Retryable(Prior(run.attempts, tool, key)) <==> Overlooks(run, tool, key)
  {
    PriorIsFirst(run.attempts, tool, key);
    forall a | a in run.attempts
      ensures |a.tool| <= MAX_TOOL && |a.key| <= MAX_KEY
    {
      assert CutAttempt(a) == a;
    }
    var j :| 0 <= j < |run.attempts| && Live(run.attempts[j])
             && run.attempts[j].tool == Cut(tool, MAX_TOOL) && run.attempts[j].key == Cut(key, MAX_KEY);
    assert run.attempts[j] in run.attempts;
    if Prior(run.attempts, tool, key).Some? {
      assert Prior(run.attempts, tool, key).value in run.attempts;
    }
  }

  lemma AppendBreaks(attempts: seq<Attempt>, a: Attempt)
    requires AtMostOnce(attempts)
    ensures AtMostOnce(attempts + [a]) <==> !(Live(a) && LiveBeside(attempts, |attempts|, a.tool, a.key))
  {
    var more := attempts + [a];
    if j :| 0 <= j < |attempts| && Live(attempts[j]) && attempts[j].tool == a.tool && attempts[j].key == a.key {
      assert more[j] == attempts[j] && more[|attempts|] == a;
    }
  }

  lemma UpdateBreaks(attempts: seq<Attempt>, i: nat, a: Attempt)
    requires AtMostOnce(attempts) && i < |attempts| && SamePair(attempts[i], a)
    ensures AtMostOnce(attempts[i := a]) <==> !(Live(a) && !Live(attempts[i]) && LiveBeside(attempts, i, a.tool, a.key))
  {
    var more := attempts[i := a];
    if j :| 0 <= j < |attempts| && j != i && Live(attempts[j])
            && attempts[j].tool == a.tool && attempts[j].key == a.key {
      assert more[j] == attempts[j] && more[i] == a;
    }
  }

  lemma StartBreaksIff(run: Run, op: Op)
    requires Fits(run) && AtMostOnce(run.attempts) && op.Start?
    ensures AtMostOnce(After(run, op).attempts) <==> !Breaks(run, op)
  {
    AfterAttempts(run, op);
    var a := CutAttempt(Attempt(op.attemptId, op.tool, op.key, op.sideEffects, op.idempotent, op.compensation,
                                Started, None));
    if Apply(run, op).Ok? {
      assert Apply(run, op).value.attempts == run.attempts + [a];
      AppendBreaks(run.attempts, a);
    }
    if Live(a) && op.key != "" && LiveBeside(run.attempts, |run.attempts|, a.tool, a.key) {
      RetryBesideLive(run, op.tool, op.key);
    }
  }

  lemma FinishBreaksIff(run: Run, op: Op)
    requires Fits(run) && AtMostOnce(run.attempts) && op.Finish?
    ensures AtMostOnce(After(run, op).attempts) <==> !Breaks(run, op)
  {
    AfterAttempts(run, op);
    var i := IndexOf(run.attempts, op.attemptId);
    if i < |run.attempts| {
      UpdateBreaks(run.attempts, i, run.attempts[i].(outcome := op.outcome, result := op.result));
    }
  }

  /** One call of any kind breaks the promise exactly when its guards let it. */
  lemma CallBreaksIff(run: Run, op: Op)
    requires Fits(run) && AtMostOnce(run.attempts)
    ensures AtMostOnce(After(run, op).attempts) <==> !Breaks(run, op)
  {
    match op
    case Start(_, _, _, _, _, _, _) => StartBreaksIff(run, op);
    case Finish(_, _, _) => FinishBreaksIff(run, op);
    case _ => AfterAttempts(run, op);
  }

  ghost predicate NeverBreaks(run: Run, ops: seq<Op>)
    decreases |ops|
  {
    ops == [] || (!Breaks(run, ops[0]) && NeverBreaks(After(run, ops[0]), ops[1..]))
  }

  /** Over every history: the promise holds at every moment exactly when no call in it is a breaking one. */
  lemma {:induction false} HistoryKeepsAtMostOnceIff(run: Run, ops: seq<Op>)
    requires Fits(run) && AtMostOnce(run.attempts)
    ensures (forall k | 0 <= k <= |ops| :: AtMostOnce(Replay(run, ops[..k]).attempts)) <==> NeverBreaks(run, ops)
    decreases |ops|
  {
    if ops != [] {
      var next := After(run, ops[0]);
      CallBreaksIff(run, ops[0]);
      AfterFits(run, ops[0]);
      forall k | 1 <= k <= |ops|
        ensures Replay(run, ops[..k]) == Replay(next, ops[1..][..k - 1])
      {
        assert ops[..k][1..] == ops[1..][..k - 1];
      }
      assert Replay(run, ops[..1]) == next;
      if !Breaks(run, ops[0]) {
        HistoryKeepsAtMostOnceIff(next, ops[1..]);
        if NeverBreaks(next, ops[1..]) {
          forall k | 0 <= k <= |ops|
            ensures AtMostOnce(Replay(run, ops[..k]).attempts)
          {
            assert k > 0 ==> AtMostOnce(Replay(next, ops[1..][..k - 1]).attempts);
          }
        } else if forall k | 0 <= k <= |ops| :: AtMostOnce(Replay(run, ops[..k]).attempts) {
          forall k | 0 <= k <= |ops| - 1
            ensures AtMostOnce(Replay(next, ops[1..][..k]).attempts)
          {
            assert AtMostOnce(Replay(run, ops[..k + 1]).attempts);
          }
        }
      }
    } else {
      assert Replay(run, ops[..0]) == run;
    }
  }

  // ---- breaking calls that do occur ----

  const BLANK := Run("r", "task", Running, "", "", NO_DATA, [], [], [], [], "")

  /** The attempt that a start of this pair stores. */
  function StartedAs(op: Op): Attempt
    requires op.Start?
  {
    Attempt(op.attemptId, "t", "k", op.sideEffects, op.idempotent, op.compensation, Started, None)
  }

  lemma FirstStarts(first: Op)
    requires first.Start? && first.tool == "t" && first.key == "k"
    ensures var one := After(BLANK, first);
            && Fits(one) && one.status.Running?
            && one.attempts == [StartedAs(first)]
  {
    AfterAttempts(BLANK, first);
    AfterFits(BLANK, first);
    assert BLANK.attempts + [StartedAs(first)] == [StartedAs(first)];
  }

  /** Two starts of one pair, of which the first is no live side effect. */
  lemma FirstThenSecond(first: Op, second: Op)
    requires first.Start? && second.Start? && first.tool == second.tool == "t" && first.key == second.key == "k"
    requires second.sideEffects && !second.idempotent && (first.sideEffects ==> first.idempotent)
    ensures var run := After(After(BLANK, first), second);
            && Fits(run) && run.status.Running?
            && run.attempts ==
               [StartedAs(first), StartedAs(second)]
  {
    FirstStarts(first);
    var one := After(BLANK, first);
    AfterAttempts(one, second);
    AfterFits(one, second);
    assert Prior(one.attempts, "t", "k") == Some(one.attempts[0]);
  }

  /** The second, started once more, is let through. */
  lemma FirstHidesSecond(first: Op, second: Op)
    requires first.Start? && second.Start? && first.tool == second.tool == "t" && first.key == second.key == "k"
    requires second.sideEffects && !second.idempotent && (first.sideEffects ==> first.idempotent)
    ensures !AtMostOnce(After(After(After(BLANK, first), second), second).attempts)
  {
    FirstThenSecond(first, second);
    var run := After(After(BLANK, first), second);
    assert Prior(run.attempts, "t", "k") == Some(run.attempts[0]);
    assert Live(run.attempts[1]);
    CallBreaksIff(run, second);
  }

  /** A read-only attempt under the same pair hides the live one behind it. */
  lemma ReadOnlyAttemptHidesLiveOne()
    ensures var read := Start("a", "t", "k", false, false, false, 0);
            var write := Start("b", "t", "k", true, false, false, 0);
            !AtMostOnce(After(After(After(BLANK, read), write), write).attempts)
  {
    FirstHidesSecond(Start("a", "t", "k", false, false, false, 0), Start("b", "t", "k", true, false, false, 0));
  }

  /** An idempotent attempt under the same pair hides it too, until it has succeeded. */
  lemma IdempotentAttemptHidesLiveOne()
    ensures var safe, write := Start("a", "t", "k", true, true, false, 0), Start("b", "t", "k", true, false, false, 0);
            !AtMostOnce(After(After(After(BLANK, safe), write), write).attempts)
  {
    FirstHidesSecond(Start("a", "t", "k", true, true, false, 0), Start("b", "t", "k", true, false, false, 0));
  }

  /** A tool name past the stored length never matches its own stored attempt. */
  lemma LongToolNameNeverMatches(tool: string)
    requires |tool| > MAX_TOOL
    ensures var op := Start("a", tool, "k", true, false, false, 0);
            !AtMostOnce(After(After(BLANK, op), op).attempts)
  {
    var op := Start("a", tool, "k", true, false, false, 0);
    var one := After(BLANK, op);
    AfterAttempts(BLANK, op);
    AfterFits(BLANK, op);
    AfterAttempts(one, op);
    PriorIsFirst(one.attempts, tool, "k");
    var two := After(one, op).attempts;
    assert |one.attempts| == 1 && one.attempts[0].tool == tool[..MAX_TOOL];
    assert Live(two[0]) && Live(two[1]) && SamePair(two[0], two[1]);
  }

  lemma CompensationIsRecorded(run: Run)
    requires Fits(run) && run.attempts == [Attempt("a", "t", "k", true, false, true, Started, None)]
    ensures var next := After(run, Finish("a", Compensated, None));
            Fits(next) && next.attempts == [Attempt("a", "t", "k", true, false, true, Compensated, None)]
            && next.status == run.status
  {
    var undo := Finish("a", Compensated, None);
    AfterFits(run, undo);
    AfterAttempts(run, undo);
    assert IndexOf(run.attempts, "a") == 0;
  }

  /** A compensated side effect lets the next one of its pair start. */
  lemma ReplacementStarts(run: Run)
    requires Fits(run) && run.attempts == [Attempt("a", "t", "k", true, false, true, Compensated, None)]
    requires run.status.Running?
    ensures var next := After(run, Start("b", "t", "k", true, false, true, 0));
            Fits(next) && next.attempts == run.attempts + [Attempt("b", "t", "k", true, false, true, Started, None)]
  {
    var again := Start("b", "t", "k", true, false, true, 0);
    AfterFits(run, again);
    AfterAttempts(run, again);
    assert run.attempts[1..] == [];
    assert Prior(run.attempts, "t", "k") == None;
  }

  /** Finishing a compensated attempt again brings it back to life beside its replacement. */
  lemma RefinishedCompensationRevives()
    ensures var start, again := Start("a", "t", "k", true, false, true, 0), Start("b", "t", "k", true, false, true, 0);
            var undo, redo := Finish("a", Compensated, None), Finish("a", Unclear, None);
            !AtMostOnce(After(After(After(After(BLANK, start), undo), again), redo).attempts)
  {
    var start := Start("a", "t", "k", true, false, true, 0);
    FirstStarts(start);
    CompensationIsRecorded(After(BLANK, start));
    var two := After(After(BLANK, start), Finish("a", Compensated, None));
    ReplacementStarts(two);
    var three := After(two, Start("b", "t", "k", true, false, true, 0));
    RevivedBesideReplacement(three);
  }

  lemma RevivedBesideReplacement(run: Run)
    requires Fits(run) && run.attempts == [Attempt("a", "t", "k", true, false, true, Compensated, None),
                                           Attempt("b", "t", "k", true, false, true, Started, None)]
    ensures !AtMostOnce(After(run, Finish("a", Unclear, None)).attempts)
  {
    assert Live(run.attempts[1]) && IndexOf(run.attempts, "a") == 0;
    CallBreaksIff(run, Finish("a", Unclear, None));
  }

  // ---- approvals ----

  predicate NulFree(s: string) {
    '\0' !in s
  }

  lemma SplitAtNul(x: string, y: string, r: string, s: string)
    requires NulFree(x) && NulFree(y) && x + "\0" + r == y + "\0" + s
    ensures x == y && r == s
  {
    var whole := x + "\0" + r;
    assert whole[|x|] == '\0' && whole[|y|] == '\0';
    assert forall i | 0 <= i < |x| :: whole[i] == x[i] && x[i] != '\0';
    assert forall i | 0 <= i < |y| :: whole[i] == y[i] && y[i] != '\0';
    assert x == whole[..|x|] && y == whole[..|y|];
    assert r == whole[|x| + 1..] && s == whole[|y| + 1..];
  }

  /** The digest binds run, plan and policy together, as long as none of them contains the separator. */
  lemma BindingNamesRunPlanAndPolicy(a: Run, b: Run)
    requires NulFree(a.id) && NulFree(b.id) && NulFree(a.plan) && NulFree(b.plan)
    ensures BindingText(a) == BindingText(b) <==> a.id == b.id && a.plan == b.plan && a.policy == b.policy
  {
    if BindingText(a) == BindingText(b) {
      var p, q := a.plan + "\0" + a.policy, b.plan + "\0" + b.policy;
      assert BindingText(a) == a.id + "\0" + p && BindingText(b) == b.id + "\0" + q;
      SplitAtNul(a.id, b.id, p, q);
      SplitAtNul(a.plan, b.plan, a.policy, b.policy);
    }
  }

  /** The receipt that counts is the newest approving one. */
  lemma {:induction false} ReceiptIsNewestApproval(approvals: seq<Approval>)
    ensures Receipt(approvals).None? <==> forall a | a in approvals :: !a.decision.Approved?
    ensures Receipt(approvals).Some? ==>
              exists i :: 0 <= i < |approvals| && Receipt(approvals) == Some(approvals[i])
                          && approvals[i].decision.Approved?
                          && forall j | i < j < |approvals| :: !approvals[j].decision.Approved?
  {
    if approvals != [] {
      var front, last := approvals[..|approvals| - 1], approvals[|approvals| - 1];
      assert approvals == front + [last];
      if last.decision.Approved? {
        assert last in approvals;
      } else {
        ReceiptIsNewestApproval(front);
        if Receipt(front).Some? {
          var i :| 0 <= i < |front| && Receipt(front) == Some(front[i]) && front[i].decision.Approved?
                   && forall j | i < j < |front| :: !front[j].decision.Approved?;
          assert approvals[i] == front[i] && approvals[i] in approvals;
          assert forall j | i < j < |approvals| :: j == |front| || approvals[j] == front[j];
        }
      }
    }
  }

  /**
   A side effect leaves the waiting state only on a live receipt for this very run, plan and policy:
   a receipt copied from another run or revision does not count.
   */
  lemma WaitingSideEffectNeedsOwnReceipt(run: Run, op: Op, origin: Run)
    requires run.status.AwaitingApproval? && op.Start? && op.sideEffects && Apply(run, op).Ok?
    requires NulFree(run.id) && NulFree(run.plan) && NulFree(origin.id) && NulFree(origin.plan)
    requires Receipt(run.approvals).Some?
             && Receipt(run.approvals).value.binding == BindingOf(BindingText(origin))
    ensures Receipt(run.approvals).value in run.approvals && Receipt(run.approvals).value.decision.Approved?
    ensures origin.id == run.id && origin.plan == run.plan && origin.policy == run.policy
    ensures !Expires(Receipt(run.approvals).value.expiry, op.now)
    ensures After(run, op).status.Running?
  {
    ReceiptIsNewestApproval(run.approvals);
    BindingNamesRunPlanAndPolicy(run, origin);
  }

  /** The stored receipt expires as an accepted expiry asks, exactly when cutting its text keeps its time. */
  lemma ExpiryIsKeptIff(e: Expiry)
    requires e.text != "" && e.time.Some?
    ensures (forall now :: Expires(CutExpiry(e), now) <==> Expires(e, now)) <==>
            |e.text| <= MAX_EXPIRY || e.timeOfCut == e.time
  {
    var cut := CutExpiry(e);
    assert Expires(e, e.time.value);
    if cut.time.Some? && cut.time != e.time {
      assert Expires(cut, cut.time.value);
      assert cut.time.value < e.time.value ==> !Expires(e, cut.time.value);
      assert cut.time.value > e.time.value ==> !Expires(cut, e.time.value);
    }
  }

  /** An approval asked to expire, in a text that is cut before its time: the run stays approved for ever. */
  lemma LongExpiryNeverExpires(run: Run, actor: string, note: string, e: Expiry, now: int)
    requires Fits(run) && run.status.AwaitingApproval? && run.plan != "" && run.policy != ""
    requires |e.text| > MAX_EXPIRY && e.time.Some? && e.timeOfCut.None?
    ensures ApprovedAt(After(run, Approve(actor, Approved, e, note, None, None)), now)
    ensures e.time.value <= now ==> Expires(e, now)
  {
    var op := Approve(actor, Approved, e, note, None, None);
    var receipt := Approval(Cut(actor, 300), Approved, CutExpiry(e), Cut(note, 1000), run.plan, run.policy,
                            BindingOf(BindingText(run)));
    var more := run.approvals + [receipt];
    assert CutApproval(receipt) == receipt;
    var kept := After(run, op).approvals;
    assert kept != [] && kept[|kept| - 1] == CutApproval(Last(more, MAX_APPROVALS)[|kept| - 1]) == receipt;
    assert Receipt(kept) == Some(receipt);
  }
}
