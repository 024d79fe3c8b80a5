/**
 The durable run ledger of `RunStore`: one run's record, and what each operation makes of it.
 Timestamps are left out; checkpoint data, results and reasons are opaque strings.
 */
module RunLedger {
  import opened Options
  import opened Sequences

  const MAX_TEXT := 4000
  const MAX_ATTEMPTS := 10
  const MAX_CHECKPOINTS := 100
  const MAX_ROLLBACKS := 100
  const MAX_APPROVALS := 100
  const KEPT_ATTEMPTS := 200
  const MAX_TOOL := 200
  const MAX_KEY := 300
  const MAX_EXPIRY := 100

  /** A JSON object, by its text. */
  type Data = string
  const NO_DATA: Data := "{}"

  datatype Status =
    | Created | Planned | AwaitingApproval | Running | Verifying | RollbackRequired
    | Succeeded | Failed | Cancelled | RolledBack
  {
    predicate Terminal() { Succeeded? || Failed? || Cancelled? || RolledBack? }

    /** The table of allowed transitions. */
    function Targets(): set<Status> {
      match this
      case Created => {Planned, AwaitingApproval, Running, Cancelled, Failed}
      case Planned => {AwaitingApproval, Running, Cancelled, Failed}
      case AwaitingApproval => {Planned, Running, Cancelled, Failed}
      case Running => {Verifying, Succeeded, Failed, Cancelled, RollbackRequired}
      case Verifying => {Succeeded, Failed, RollbackRequired}
      case RollbackRequired => {RolledBack, Failed}
      case _ => {}
    }
  }

  datatype Outcome = Started | Done | Broken | Unclear | Compensated

  datatype Attempt = Attempt(
    id: string, tool: string, key: string, sideEffects: bool, idempotent: bool, compensation: bool,
    outcome: Outcome, result: Option<Data>)

  datatype Point = Point(index: int, data: Data)
  datatype Rollback = Rollback(fromIndex: int, toIndex: int, reason: string)
  datatype Decision = Approved | Rejected | Expired

  /** An expiry text, empty for none, with the times `Date.parse` reads from it and from its first hundred units. */
  datatype Expiry = Expiry(text: string, time: Option<int>, timeOfCut: Option<int>)

  /** The receipt's digest over run id, plan revision and policy revision. */
  datatype Binding = NoBinding | BindingOf(text: string)

  datatype Approval = Approval(
    actor: string, decision: Decision, expiry: Expiry, note: string, plan: string, policy: string, binding: Binding)

  datatype Run = Run(
    id: string, task: string, status: Status, plan: string, policy: string, checkpoint: Data,
    checkpoints: seq<Point>, rollbacks: seq<Rollback>, approvals: seq<Approval>, attempts: seq<Attempt>,
    reason: string)

  // ---- normalisation ----

  function Cut(s: string, n: nat): string {
    if |s| <= n then s else s[..n]
  }

  function CutAttempt(a: Attempt): Attempt {
    a.(tool := Cut(a.tool, MAX_TOOL), key := Cut(a.key, MAX_KEY))
  }

  function CutExpiry(e: Expiry): Expiry {
    if |e.text| <= MAX_EXPIRY then e else Expiry(e.text[..MAX_EXPIRY], e.timeOfCut, e.timeOfCut)
  }

  function CutApproval(a: Approval): Approval {
    a.(actor := Cut(a.actor, 300), expiry := CutExpiry(a.expiry), note := Cut(a.note, 1000),
       plan := Cut(a.plan, 200), policy := Cut(a.policy, 200))
  }

  function CutRollback(r: Rollback): Rollback {
    r.(reason := Cut(r.reason, 1000))
  }

  /** What every read and every write of a run goes through. */
  function Normalise(run: Run): Run {
    var attempts := Last(run.attempts, KEPT_ATTEMPTS);
    var approvals := Last(run.approvals, MAX_APPROVALS);
    var rollbacks := Last(run.rollbacks, MAX_ROLLBACKS);
    run.(task := Cut(run.task, MAX_TEXT),
         plan := Cut(run.plan, 200),
         policy := Cut(run.policy, 200),
         checkpoints := Last(run.checkpoints, MAX_CHECKPOINTS),
         rollbacks := seq(|rollbacks|, i requires 0 <= i < |rollbacks| => CutRollback(rollbacks[i])),
         approvals := seq(|approvals|, i requires 0 <= i < |approvals| => CutApproval(approvals[i])),
         attempts := seq(|attempts|, i requires 0 <= i < |attempts| => CutAttempt(attempts[i])),
         reason := Cut(run.reason, 1000))
  }

  /** A run that has been stored. */
  ghost predicate Fits(run: Run) {
    && |run.task| <= MAX_TEXT && |run.plan| <= 200 && |run.policy| <= 200 && |run.reason| <= 1000
    && |run.checkpoints| <= MAX_CHECKPOINTS
    && |run.rollbacks| <= MAX_ROLLBACKS && (forall r | r in run.rollbacks :: CutRollback(r) == r)
    && |run.approvals| <= MAX_APPROVALS && (forall a | a in run.approvals :: CutApproval(a) == a)
    && |run.attempts| <= KEPT_ATTEMPTS && (forall a | a in run.attempts :: CutAttempt(a) == a)
  }

  /** Saving and loading a stored run changes nothing. */
  lemma StoredRunIsFixed(run: Run)
    requires Fits(run)
    ensures Normalise(run) == run
  {
    assert forall i | 0 <= i < |run.rollbacks| :: CutRollback(run.rollbacks[i]) == run.rollbacks[i];
    assert forall i | 0 <= i < |run.approvals| :: CutApproval(run.approvals[i]) == run.approvals[i];
    assert forall i | 0 <= i < |run.attempts| :: CutAttempt(run.attempts[i]) == run.attempts[i];
    assert Normalise(run).rollbacks == run.rollbacks;
    assert Normalise(run).approvals == run.approvals;
    assert Normalise(run).attempts == run.attempts;
  }

  /** Whatever a file or a caller hands in is cut to the stored bounds. */
  lemma NormaliseFits(run: Run)
    ensures Fits(Normalise(run))
  {
  }

  // ---- decisions ----

  predicate Retryable(prior: Option<Attempt>) {
    match prior
    case None => true
    case Some(a) =>
      if !a.sideEffects then true
      else if a.outcome.Done? then false
      else (a.idempotent && a.key != "") || (a.compensation && a.outcome.Compensated?)
  }

  predicate Matches(a: Attempt, tool: string, key: string) {
    a.key != "" && a.key == key && a.tool == tool && !a.outcome.Compensated?
  }

  /** The first stored attempt of this tool and key that is not compensated. */
  function Prior(attempts: seq<Attempt>, tool: string, key: string): Option<Attempt> {
    if attempts == [] then None
    else if Matches(attempts[0], tool, key) then Some(attempts[0])
    else Prior(attempts[1..], tool, key)
  }

  function BindingText(run: Run): string {
    run.id + "\0" + run.plan + "\0" + run.policy
  }

  /** The newest approving receipt. */
  function Receipt(approvals: seq<Approval>): Option<Approval> {
    if approvals == [] then None
    else
      var last := approvals[|approvals| - 1];
      if last.decision.Approved? then Some(last) else Receipt(approvals[..|approvals| - 1])
  }

  /** A text that no time can be read from never expires. */
  predicate Expires(e: Expiry, now: int) {
    e.text != "" && e.time.Some? && e.time.value <= now
  }

  predicate ApprovedAt(run: Run, now: int) {
    match Receipt(run.approvals)
    case None => false
    case Some(a) =>
      && !Expires(a.expiry, now)
      && a.plan == run.plan && a.policy == run.policy
      && a.binding == BindingOf(BindingText(run))
  }

  function IndexOf(attempts: seq<Attempt>, id: string): (i: nat)
    ensures i <= |attempts|
    ensures i < |attempts| ==> attempts[i].id == id
    ensures forall k | 0 <= k < i :: attempts[k].id != id
  {
    if attempts == [] || attempts[0].id == id then 0 else 1 + IndexOf(attempts[1..], id)
  }

  // ---- operations ----

  datatype Op =
    | Transition(status: Status, reason: string, data: Option<Data>)
    | Checkpoint(data: Option<Data>)
    | Cancel(reason: string)
    | Resume
    | RollBack(toIndex: Option<int>, reason: string)
    | Approve(actor: string, decision: Decision, expiry: Expiry, note: string,
              plan: Option<string>, policy: Option<string>)
    | Start(attemptId: string, tool: string, key: string, sideEffects: bool, idempotent: bool, compensation: bool,
            now: int)
    | Finish(attemptId: string, outcome: Outcome, result: Option<Data>)

  function WithPoint(run: Run, data: Data): Run {
    run.(checkpoint := data, checkpoints := run.checkpoints + [Point(|run.checkpoints|, data)])
  }

  function ApplyTransition(run: Run, status: Status, reason: string, data: Option<Data>): Result<Run, string> {
    if run.status != status && status !in run.status.Targets() then Err("invalid run transition")
    else
      var moved := run.(status := status, reason := if reason != "" then Cut(reason, 1000) else run.reason);
      Ok(if data.Some? then WithPoint(moved, data.value) else moved)
  }

  function ApplyRollBack(run: Run, toIndex: Option<int>, reason: string): Result<Run, string> {
    if run.status.Succeeded? || run.status.Cancelled? then Err("cannot roll back")
    else if run.checkpoints == [] then Err("no recovery point")
    else
      var n := |run.checkpoints|;
      var target := if toIndex.Some? then toIndex.value else if n >= 2 then n - 2 else 0;
      if target < 0 || target >= n then Err("invalid recovery point index")
      else
        var why := Cut(if reason != "" then reason else "rolled back to recovery point " + Decimal(target), 1000);
        Ok(run.(checkpoint := run.checkpoints[target].data,
                rollbacks := run.rollbacks + [Rollback(n - 1, target, why)],
                status := RolledBack,
                reason := why))
  }

  function ApplyApprove(run: Run, actor: string, decision: Decision, expiry: Expiry, note: string,
                        plan: Option<string>, policy: Option<string>): Result<Run, string>
  {
    if !run.status.AwaitingApproval? then Err("run is not awaiting approval")
    else if run.plan == "" || run.policy == "" then Err("approval requires revisions")
    else if plan.Some? && plan.value != run.plan then Err("approval plan revision mismatch")
    else if policy.Some? && policy.value != run.policy then Err("approval policy revision mismatch")
    else if expiry.text != "" && expiry.time.None? then Err("invalid expiry")
    else
      Ok(run.(approvals := run.approvals + [
        Approval(Cut(actor, 300), decision, CutExpiry(expiry), Cut(note, 1000), run.plan, run.policy,
                 BindingOf(BindingText(run)))]))
  }

  function ApplyStart(run: Run, attemptId: string, tool: string, key: string, sideEffects: bool, idempotent: bool,
                      compensation: bool, now: int): Result<Run, string>
  {
    if tool == "" then Err("attempt tool is required")
    else if |run.attempts| >= MAX_ATTEMPTS then Err("max attempts reached")
    else if sideEffects && run.status.AwaitingApproval? && !ApprovedAt(run, now) then Err("requires valid approval")
    else if sideEffects && key == "" then Err("requires an idempotency key")
    else if !Retryable(Prior(run.attempts, tool, key)) then Err("unsafe retry refused")
    else
      var attempt := CutAttempt(Attempt(attemptId, tool, key, sideEffects, idempotent, compensation, Started, None));
      Ok(run.(status := if sideEffects && run.status.AwaitingApproval? then Running else run.status,
              attempts := run.attempts + [attempt]))
  }

  function ApplyFinish(run: Run, attemptId: string, outcome: Outcome, result: Option<Data>): Result<Run, string> {
    var i := IndexOf(run.attempts, attemptId);
    if i == |run.attempts| then Err("no such attempt")
    else if outcome.Started? then Err("invalid attempt status")
    else Ok(run.(attempts := run.attempts[i := run.attempts[i].(outcome := outcome, result := result)]))
  }

  /** The run before it is normalised and stored, or the reason the call fails and changes nothing. */
  function Apply(run: Run, op: Op): Result<Run, string> {
    match op
    case Transition(status, reason, data) => ApplyTransition(run, status, reason, data)
    case Checkpoint(data) => Ok(WithPoint(run, if data.Some? then data.value else NO_DATA))
    case Cancel(reason) => if run.status.Terminal() then Ok(run) else ApplyTransition(run, Cancelled, reason, None)
    case Resume =>
      if run.status.Terminal() then Err("cannot resume terminal run")
      else if run.status.Running? then Ok(run)
      else
        var reason := if run.reason != "" then run.reason else "resumed after interruption";
        Ok(run.(status := Running, reason := Cut(reason, 1000)))
    case RollBack(toIndex, reason) => ApplyRollBack(run, toIndex, reason)
    case Approve(actor, decision, expiry, note, plan, policy) =>
      ApplyApprove(run, actor, decision, expiry, note, plan, policy)
    case Start(attemptId, tool, key, sideEffects, idempotent, compensation, now) =>
      ApplyStart(run, attemptId, tool, key, sideEffects, idempotent, compensation, now)
    case Finish(attemptId, outcome, result) => ApplyFinish(run, attemptId, outcome, result)
  }

  /** One call on a stored run: the normalised result is stored, a failing call stores nothing. */
  function After(run: Run, op: Op): Run {
    match Apply(run, op)
    case Ok(next) => Normalise(next)
    case Err(_) => run
  }

  lemma AfterFits(run: Run, op: Op)
    requires Fits(run)
    ensures Fits(After(run, op))
    ensures |After(run, op).attempts| <= if |run.attempts| <= 10 then 10 else |run.attempts|
  {
    if Apply(run, op).Ok? {
      NormaliseFits(Apply(run, op).value);
    }
  }
}
