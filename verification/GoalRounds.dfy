/** A persistent goal and the rounds the daemon enqueues for it. Other goals never touch this one's record. */
module GoalRounds {
  import opened Options
  import opened Sequences

  const DEFAULT_ROUNDS := 8
  const MAX_GOAL_ROUNDS := 16

  datatype Status = Active | Complete | Aborted | Blocked

  datatype Goal = Goal(maxRounds: nat, status: Status, roundsCompleted: nat, rounds: seq<nat>)

  /** A queued round; `chain` is 0 for the rounds that follow the start, and k for those after the k-th resume. */
  datatype Round = Round(chain: nat, number: nat)

  /** `enqueued` lists every round ever queued, chain by chain; `queue` the ones still waiting. */
  datatype State = State(goal: Goal, queue: seq<Round>, enqueued: seq<seq<nat>>)

  datatype Event =
    | Resume
    | Finalize(k: nat, complete: bool)   // queued round `k` ran and its answer was parsed
    | Lose(k: nat)                       // a queued round is dropped: capacity, cancellation, restart
    | SetStatus(status: Status)          // the goal tool

  function Clamp(requested: int): (m: nat)
    ensures 1 <= m <= 16
    ensures 1 <= requested <= 16 ==> m == requested
    ensures requested == 0 ==> m == 8
    ensures requested < 0 ==> m == 1
    ensures requested > 16 ==> m == 16
  {
    var wanted := if requested == 0 then DEFAULT_ROUNDS else requested;
    if wanted < 1 then 1 else if wanted > MAX_GOAL_ROUNDS then MAX_GOAL_ROUNDS else wanted
  }

  /** The record keeps the last `maxRounds` rounds, but counts one more before it forgets. */
  function Recorded(goal: Goal, number: nat): Goal {
    var rounds := goal.rounds + [number];
    goal.(rounds := Last(rounds, goal.maxRounds), roundsCompleted := |rounds|)
  }

  function AddRound(s: State, r: Round): State
    requires r.chain < |s.enqueued|
  {
    if !s.goal.status.Active? then s
    else s.(queue := s.queue + [r], enqueued := s.enqueued[r.chain := s.enqueued[r.chain] + [r.number]])
  }

  function Started(requested: int): State {
    AddRound(State(Goal(Clamp(requested), Active, 0, []), [], [[]]), Round(0, 1))
  }

  function AfterResume(s: State): State {
    if !s.goal.status.Active? || s.goal.roundsCompleted >= s.goal.maxRounds then s
    else AddRound(s.(enqueued := s.enqueued + [[]]), Round(|s.enqueued|, s.goal.roundsCompleted + 1))
  }

  /** The state after a round was taken from the queue and, on an active goal, recorded. */
  function Taken(s: State, k: nat): State
    requires k < |s.queue|
  {
    s.(queue := Without(s.queue, k),
       goal := if s.goal.status.Active? then Recorded(s.goal, s.queue[k].number) else s.goal)
  }

  function WithStatus(s: State, status: Status): State {
    s.(goal := s.goal.(status := status))
  }

  function AfterFinalize(s: State, k: nat, complete: bool): State
    requires k < |s.queue| && s.queue[k].chain < |s.enqueued|
  {
    var r := s.queue[k];
    if !s.goal.status.Active? then Taken(s, k)
    else if complete then WithStatus(Taken(s, k), Complete)
    else if r.number >= s.goal.maxRounds then WithStatus(Taken(s, k), Blocked)
    else AddRound(Taken(s, k), Round(r.chain, r.number + 1))
  }

  function Next(s: State, event: Event): Option<State>
  {
    match event
    case Resume => Some(AfterResume(s))
    case Finalize(k, complete) =>
      if k < |s.queue| && s.queue[k].chain < |s.enqueued| then Some(AfterFinalize(s, k, complete)) else None
    case Lose(k) => if k < |s.queue| then Some(s.(queue := Without(s.queue, k))) else None
    case SetStatus(status) => Some(WithStatus(s, status))
  }

  function Run(s: State, events: seq<Event>): Option<State>
    decreases |events|
  {
    if events == [] then Some(s)
    else match Next(s, events[0])
      case None => None
      case Some(t) => Run(t, events[1..])
  }

  // ---- what every run keeps ----

  function Total(enqueued: seq<seq<nat>>): nat {
    if enqueued == [] then 0 else Total(enqueued[..|enqueued| - 1]) + |enqueued[|enqueued| - 1]|
  }

  /** The rounds the waiting ones can still lead to. */
  function Ahead(queue: seq<Round>, m: nat): int {
    if queue == [] then 0 else Ahead(queue[..|queue| - 1], m) + m - queue[|queue| - 1].number
  }

  /** One chain: consecutive round numbers within 1 and the cap. */
  ghost predicate Climbs(chain: seq<nat>, m: nat) {
    && (forall i | 0 <= i < |chain| :: 1 <= chain[i] <= m)
    && (forall i | 0 <= i < |chain| :: chain[i] == chain[0] + i)
  }

  /** `m` rounds for each chain. */
  function Allowance(m: nat, chains: nat): nat {
    if chains == 0 then 0 else Allowance(m, chains - 1) + m
  }

  lemma {:induction false} AllowanceIsProduct(m: nat, chains: nat)
    ensures Allowance(m, chains) == m * chains
  {
    if chains > 0 {
      AllowanceIsProduct(m, chains - 1);
    }
  }

  ghost predicate AllClimb(enqueued: seq<seq<nat>>, m: nat) {
    forall c | 0 <= c < |enqueued| :: Climbs(enqueued[c], m)
  }

  /** Waiting rounds belong to different chains, and each is the newest of its chain. */
  ghost predicate QueueTops(queue: seq<Round>, enqueued: seq<seq<nat>>) {
    && (forall k | 0 <= k < |queue| :: Tops(enqueued, queue[k]))
    && (forall j, k | 0 <= j < k < |queue| :: queue[j].chain != queue[k].chain)
  }

  ghost predicate Inv(s: State) {
    && 1 <= s.goal.maxRounds && |s.enqueued| >= 1
    && AllClimb(s.enqueued, s.goal.maxRounds)
    && QueueTops(s.queue, s.enqueued)
    && Total(s.enqueued) + Ahead(s.queue, s.goal.maxRounds) <= Allowance(s.goal.maxRounds, |s.enqueued|)
  }

  /** A waiting round is the newest of its chain. */
  ghost predicate Tops(enqueued: seq<seq<nat>>, r: Round) {
    r.chain < |enqueued| && enqueued[r.chain] != [] && enqueued[r.chain][|enqueued[r.chain]| - 1] == r.number
  }

  lemma {:induction false} TotalUpdate(enqueued: seq<seq<nat>>, c: nat, number: nat)
    requires c < |enqueued|
    ensures Total(enqueued[c := enqueued[c] + [number]]) == Total(enqueued) + 1
    decreases |enqueued|
  {
    var more := enqueued[c := enqueued[c] + [number]];
    if c == |enqueued| - 1 {
      assert more[..c] == enqueued[..c];
    } else {
      TotalUpdate(enqueued[..|enqueued| - 1], c, number);
      assert more[..|more| - 1] == enqueued[..|enqueued| - 1][c := enqueued[c] + [number]];
    }
  }

  lemma {:induction false} AheadWithout(queue: seq<Round>, k: nat, m: nat)
    requires k < |queue|
    ensures Ahead(Without(queue, k), m) == Ahead(queue, m) - (m - queue[k].number)
    decreases |queue|
  {
    var less := Without(queue, k);
    if k == |queue| - 1 {
      assert less == queue[..k];
    } else {
      AheadWithout(queue[..|queue| - 1], k, m);
      assert less[..|less| - 1] == Without(queue[..|queue| - 1], k);
      assert less[|less| - 1] == queue[|queue| - 1];
    }
  }

  lemma {:induction false} AheadNonNegative(queue: seq<Round>, m: nat)
    requires forall k | 0 <= k < |queue| :: queue[k].number <= m
    ensures Ahead(queue, m) >= 0
  {
    if queue != [] {
      AheadNonNegative(queue[..|queue| - 1], m);
    }
  }

  /** A round that starts its chain or goes on from its last round. */
  predicate Follows(enqueued: seq<seq<nat>>, r: Round, m: nat) {
    && r.chain < |enqueued| && 1 <= r.number <= m
    && (enqueued[r.chain] != [] ==> r.number == enqueued[r.chain][|enqueued[r.chain]| - 1] + 1)
  }

  lemma AddedClimbs(enqueued: seq<seq<nat>>, r: Round, m: nat)
    requires AllClimb(enqueued, m) && Follows(enqueued, r, m)
    ensures AllClimb(enqueued[r.chain := enqueued[r.chain] + [r.number]], m)
  {
    assert Climbs(enqueued[r.chain], m);
    assert Climbs(enqueued[r.chain] + [r.number], m);
  }

  lemma AddedTops(queue: seq<Round>, enqueued: seq<seq<nat>>, r: Round)
    requires QueueTops(queue, enqueued) && r.chain < |enqueued|
    requires forall k | 0 <= k < |queue| :: queue[k].chain != r.chain
    ensures QueueTops(queue + [r], enqueued[r.chain := enqueued[r.chain] + [r.number]])
  {
    var more := enqueued[r.chain := enqueued[r.chain] + [r.number]];
    forall k | 0 <= k < |queue + [r]|
      ensures Tops(more, (queue + [r])[k])
    {
      assert k < |queue| ==> Tops(enqueued, queue[k]);
    }
  }

  lemma AheadMore(queue: seq<Round>, r: Round, m: nat)
    ensures Ahead(queue + [r], m) == Ahead(queue, m) + m - r.number
  {
    assert (queue + [r])[..|queue|] == queue;
  }

  lemma AddRoundKeepsInv(s: State, r: Round)
    requires Inv(s) && Follows(s.enqueued, r, s.goal.maxRounds)
    requires forall k | 0 <= k < |s.queue| :: s.queue[k].chain != r.chain
    requires Total(s.enqueued) + Ahead(s.queue, s.goal.maxRounds) + 1 + (s.goal.maxRounds - r.number)
             <= Allowance(s.goal.maxRounds, |s.enqueued|)
    ensures Inv(AddRound(s, r))
  {
    if s.goal.status.Active? {
      TotalUpdate(s.enqueued, r.chain, r.number);
      AheadMore(s.queue, r, s.goal.maxRounds);
      AddedClimbs(s.enqueued, r, s.goal.maxRounds);
      AddedTops(s.queue, s.enqueued, r);
    }
  }

  lemma RemoveKeepsInv(s: State, k: nat)
    requires Inv(s) && k < |s.queue|
    ensures Inv(s.(queue := Without(s.queue, k)))
    ensures forall j | 0 <= j < |Without(s.queue, k)| :: Without(s.queue, k)[j].chain != s.queue[k].chain
    ensures 1 <= s.queue[k].number <= s.goal.maxRounds
  {
    var less := Without(s.queue, k);
    assert forall j | 0 <= j < |less| :: less[j] == s.queue[if j < k then j else j + 1];
    AheadWithout(s.queue, k, s.goal.maxRounds);
    assert Tops(s.enqueued, s.queue[k]);
    assert Climbs(s.enqueued[s.queue[k].chain], s.goal.maxRounds);
  }

  lemma WiderKeepsInv(s: State)
    requires Inv(s)
    ensures Inv(s.(enqueued := s.enqueued + [[]]))
    ensures Total(s.enqueued + [[]]) == Total(s.enqueued)
  {
    var wider := s.enqueued + [[]];
    assert wider[..|s.enqueued|] == s.enqueued;
    forall k | 0 <= k < |s.queue|
      ensures Tops(wider, s.queue[k])
    {
      assert Tops(s.enqueued, s.queue[k]);
    }
  }

  /** A new chain has no round yet, waiting or not, and widens the allowance by a whole cap. */
  lemma NewChainFits(s: State)
    requires Inv(s)
    ensures forall k | 0 <= k < |s.queue| :: s.queue[k].chain != |s.enqueued|
    ensures Total(s.enqueued) + Ahead(s.queue, s.goal.maxRounds) + s.goal.maxRounds
            <= Allowance(s.goal.maxRounds, |s.enqueued| + 1)
  {
    forall k | 0 <= k < |s.queue|
      ensures s.queue[k].chain < |s.enqueued|
    {
      assert Tops(s.enqueued, s.queue[k]);
    }
  }

  lemma ResumeKeepsInv(s: State)
    requires Inv(s)
    ensures Inv(AfterResume(s))
  {
    if s.goal.status.Active? && s.goal.roundsCompleted < s.goal.maxRounds {
      var wider, r := s.(enqueued := s.enqueued + [[]]), Round(|s.enqueued|, s.goal.roundsCompleted + 1);
      assert AfterResume(s) == AddRound(wider, r);
      WiderKeepsInv(s);
      NewChainFits(s);
      AddRoundKeepsInv(wider, r);
    }
  }

  lemma TakenKeepsInv(s: State, k: nat)
    requires Inv(s) && k < |s.queue|
    ensures Inv(Taken(s, k))
  {
    RemoveKeepsInv(s, k);
    GoalKeepsInv(s.(queue := Without(s.queue, k)), Taken(s, k).goal);
  }

  lemma NextRoundKeepsInv(s: State, k: nat)
    requires Inv(s) && k < |s.queue| && s.queue[k].number < s.goal.maxRounds
    ensures Inv(AddRound(Taken(s, k), Round(s.queue[k].chain, s.queue[k].number + 1)))
  {
    TakenKeepsInv(s, k);
    RemoveKeepsInv(s, k);
    AheadWithout(s.queue, k, s.goal.maxRounds);
    assert Tops(s.enqueued, s.queue[k]);
    AddRoundKeepsInv(Taken(s, k), Round(s.queue[k].chain, s.queue[k].number + 1));
  }

  lemma EndKeepsInv(s: State, k: nat, status: Status)
    requires Inv(s) && k < |s.queue|
    ensures Inv(WithStatus(Taken(s, k), status))
  {
    TakenKeepsInv(s, k);
    StatusKeepsInv(Taken(s, k), status);
  }

  lemma LastRoundKeepsInv(s: State, k: nat, complete: bool)
    requires Inv(s) && k < |s.queue| && s.goal.status.Active?
    requires complete || s.queue[k].number >= s.goal.maxRounds
    ensures Inv(AfterFinalize(s, k, complete))
  {
    assert AfterFinalize(s, k, complete) == WithStatus(Taken(s, k), if complete then Complete else Blocked);
    EndKeepsInv(s, k, if complete then Complete else Blocked);
  }

  lemma FinalizeKeepsInv(s: State, k: nat, complete: bool)
    requires Inv(s) && k < |s.queue|
    ensures Inv(AfterFinalize(s, k, complete))
  {
    if !s.goal.status.Active? {
      assert AfterFinalize(s, k, complete) == Taken(s, k);
      TakenKeepsInv(s, k);
    } else if complete || s.queue[k].number >= s.goal.maxRounds {
      LastRoundKeepsInv(s, k, complete);
    } else {
      assert AfterFinalize(s, k, complete) == AddRound(Taken(s, k), Round(s.queue[k].chain, s.queue[k].number + 1));
      NextRoundKeepsInv(s, k);
    }
  }

  /** Only the cap matters to the invariant. */
  lemma GoalKeepsInv(s: State, goal: Goal)
    requires Inv(s) && goal.maxRounds == s.goal.maxRounds
    ensures Inv(s.(goal := goal))
  {
  }

  lemma StatusKeepsInv(s: State, status: Status)
    requires Inv(s)
    ensures Inv(WithStatus(s, status))
  {
    GoalKeepsInv(s, s.goal.(status := status));
  }

  lemma StepKeepsInv(s: State, event: Event)
    requires Inv(s) && Next(s, event).Some?
    ensures Inv(Next(s, event).value)
    ensures Next(s, event).value.goal.maxRounds == s.goal.maxRounds
  {
    match event
    case Resume => ResumeKeepsInv(s);
    case Finalize(k, complete) => FinalizeKeepsInv(s, k, complete);
    case Lose(k) => RemoveKeepsInv(s, k);
    case SetStatus(status) => StatusKeepsInv(s, status);
  }

  lemma {:induction false} RunKeepsInv(s: State, events: seq<Event>)
    requires Inv(s) && Run(s, events).Some?
    ensures Inv(Run(s, events).value) && Run(s, events).value.goal.maxRounds == s.goal.maxRounds
    ensures |Run(s, events).value.enqueued| <= |s.enqueued| + Resumes(events)
    decreases |events|
  {
    if events != [] {
      StepKeepsInv(s, events[0]);
      RunKeepsInv(Next(s, events[0]).value, events[1..]);
    }
  }

  function Resumes(events: seq<Event>): nat {
    if events == [] then 0 else Resumes(events[1..]) + if events[0].Resume? then 1 else 0
  }

  /** What is still ahead is not negative, so the rounds enqueued so far are within the allowance alone. */
  lemma TotalBounded(s: State)
    requires Inv(s)
    ensures Total(s.enqueued) <= Allowance(s.goal.maxRounds, |s.enqueued|)
  {
    forall k | 0 <= k < |s.queue|
      ensures s.queue[k].number <= s.goal.maxRounds
    {
      assert Tops(s.enqueued, s.queue[k]) && Climbs(s.enqueued[s.queue[k].chain], s.goal.maxRounds);
    }
    AheadNonNegative(s.queue, s.goal.maxRounds);
  }

  lemma AllowanceWithin(m: nat, chains: nat, limit: nat)
    requires chains <= limit
    ensures Allowance(m, chains) <= m * limit
  {
    AllowanceGrows(m, chains, limit);
    AllowanceIsProduct(m, limit);
  }

  lemma RunWithinAllowance(requested: int, events: seq<Event>)
    requires Run(Started(requested), events).Some?
    ensures var s := Run(Started(requested), events).value;
            && |s.enqueued| <= 1 + Resumes(events)
            && AllClimb(s.enqueued, Clamp(requested))
            && Total(s.enqueued) <= Allowance(Clamp(requested), |s.enqueued|)
  {
    StartIsFine(requested);
    RunKeepsInv(Started(requested), events);
    TotalBounded(Run(Started(requested), events).value);
  }

  /**
   With cap m and k resumes, at most m * (1 + k) rounds are ever enqueued, whatever the rounds answer and whoever
   changes the goal's status; each chain counts upwards one by one and never passes m.
   */
  lemma RoundsAreBounded(requested: int, events: seq<Event>)
    requires Run(Started(requested), events).Some?
    ensures var m, s := Clamp(requested), Run(Started(requested), events).value;
            && Total(s.enqueued) <= m * (1 + Resumes(events))
            && AllClimb(s.enqueued, m)
  {
    RunWithinAllowance(requested, events);
    AllowanceWithin(Clamp(requested), |Run(Started(requested), events).value.enqueued|, 1 + Resumes(events));
  }

  lemma {:induction false} AllowanceGrows(m: nat, a: nat, b: nat)
    requires a <= b
    ensures Allowance(m, a) <= Allowance(m, b)
    decreases b
  {
    if a < b {
      AllowanceGrows(m, a, b - 1);
    }
  }

  lemma StartIsFine(requested: int)
    ensures Inv(Started(requested))
  {
    var empty: State := State(Goal(Clamp(requested), Active, 0, []), [], [[]]);
    assert empty.enqueued[..0] == [] && Total(empty.enqueued) == 0;
    assert AllClimb(empty.enqueued, empty.goal.maxRounds);
    assert Allowance(empty.goal.maxRounds, 1) == empty.goal.maxRounds;
    AddRoundKeepsInv(empty, Round(0, 1));
  }

  /** The chain that reaches the cap ends there: the goal is complete or blocked, and nothing is enqueued. */
  lemma CapEndsTheGoal(s: State, k: nat, complete: bool)
    requires Inv(s) && k < |s.queue| && s.goal.status.Active? && s.queue[k].number == s.goal.maxRounds
    ensures var t := AfterFinalize(s, k, complete);
            t.goal.status == (if complete then Complete else Blocked) && t.enqueued == s.enqueued
            && |t.queue| == |s.queue| - 1
  {
  }

  /** Neither lost a round nor had its status set from outside. */
  predicate Undisturbed(events: seq<Event>) {
    forall i | 0 <= i < |events| :: !events[i].Lose? && !events[i].SetStatus?
  }

  lemma {:induction false} ActiveGoalHasARound(s: State, events: seq<Event>)
    requires Run(s, events).Some? && Undisturbed(events)
    requires s.goal.status.Active? ==> s.queue != []
    requires s.goal.status.Active? || s.goal.status.Complete? || s.goal.status.Blocked?
    ensures var t := Run(s, events).value;
            (t.goal.status.Active? && t.queue != []) || t.goal.status.Complete? || t.goal.status.Blocked?
    decreases |events|
  {
    if events != [] {
      assert forall i | 0 <= i < |events| - 1 :: events[1..][i] == events[i + 1];
      ActiveGoalHasARound(Next(s, events[0]).value, events[1..]);
    }
  }

  /** A run in which no round is lost and nobody sets the status ends complete or blocked once its rounds are done. */
  lemma DrainedGoalHasEnded(requested: int, events: seq<Event>)
    requires Run(Started(requested), events).Some? && Undisturbed(events)
    ensures var s := Run(Started(requested), events).value;
            s.queue == [] ==> s.goal.status.Complete? || s.goal.status.Blocked?
  {
    ActiveGoalHasARound(Started(requested), events);
  }

  /** A goal that is not active records nothing and enqueues nothing until someone reactivates it. */
  lemma {:induction false} InactiveGoalRests(s: State, events: seq<Event>)
    requires Inv(s) && !s.goal.status.Active? && Run(s, events).Some?
    requires forall i | 0 <= i < |events| :: events[i].SetStatus? ==> !events[i].status.Active?
    ensures var t := Run(s, events).value;
            && !t.goal.status.Active? && t.goal.(status := s.goal.status) == s.goal
            && t.enqueued == s.enqueued && |t.queue| <= |s.queue|
    decreases |events|
  {
    if events != [] {
      StepKeepsInv(s, events[0]);
      InactiveGoalRests(Next(s, events[0]).value, events[1..]);
    }
  }

  /** Without resumes every event leaves less to come, so a chain always ends. */
  lemma RoundsRunOut(s: State, event: Event)
    requires Inv(s) && (event.Finalize? || event.Lose?) && Next(s, event).Some?
    ensures var t := Next(s, event).value;
            0 <= Ahead(t.queue, s.goal.maxRounds) + |t.queue| < Ahead(s.queue, s.goal.maxRounds) + |s.queue|
  {
    var t := Next(s, event).value;
    StepKeepsInv(s, event);
    AheadWithout(s.queue, event.k, s.goal.maxRounds);
    assert Tops(s.enqueued, s.queue[event.k]);
    var less := Without(s.queue, event.k);
    if t.queue != less {
      assert t.queue[..|less|] == less;
    }
    forall k | 0 <= k < |t.queue|
      ensures t.queue[k].number <= s.goal.maxRounds
    {
      assert Tops(t.enqueued, t.queue[k]) && Climbs(t.enqueued[t.queue[k].chain], s.goal.maxRounds);
    }
    AheadNonNegative(t.queue, s.goal.maxRounds);
    assert Climbs(s.enqueued[s.queue[event.k].chain], s.goal.maxRounds);
  }

  // ---- what a finished round and a resume do ----

  /** A new goal is active, has nothing recorded, and its first round waits. */
  lemma StartMeans(requested: int)
    ensures Started(requested) == State(Goal(Clamp(requested), Active, 0, []), [Round(0, 1)], [[1]])
  {
    var empty: seq<seq<nat>> := [[]];
    assert empty[0] + [1] == [1];
    assert empty[0 := empty[0] + [1]] == [[1]] && [] + [Round(0, 1)] == [Round(0, 1)];
  }

  /** A finished round of an active goal completes it, blocks it at the cap, or is followed by the next round. */
  lemma FinalizeMeans(s: State, k: nat, complete: bool)
    requires Inv(s) && k < |s.queue| && s.goal.status.Active?
    ensures s.queue[k].chain < |s.enqueued|
    ensures var t, r, rest := AfterFinalize(s, k, complete), s.queue[k], s.queue[..k] + s.queue[k + 1..];
            && t.goal.maxRounds == s.goal.maxRounds
            && if complete then t.goal.status == Complete && t.queue == rest && t.enqueued == s.enqueued
               else if r.number < s.goal.maxRounds then
                 && t.goal.status == Active && t.queue == rest + [Round(r.chain, r.number + 1)]
                 && t.enqueued == s.enqueued[r.chain := s.enqueued[r.chain] + [r.number + 1]]
               else t.goal.status == Blocked && t.queue == rest && t.enqueued == s.enqueued
  {
    assert Tops(s.enqueued, s.queue[k]);
  }

  /** A round that finishes after the goal ended changes nothing but the queue it leaves. */
  lemma LateRoundIsIgnored(s: State, k: nat, complete: bool)
    requires Inv(s) && k < |s.queue| && !s.goal.status.Active?
    ensures s.queue[k].chain < |s.enqueued|
    ensures AfterFinalize(s, k, complete) == s.(queue := s.queue[..k] + s.queue[k + 1..])
  {
    assert Tops(s.enqueued, s.queue[k]);
  }

  /** Resuming an active goal below its cap starts one new chain, with the round after those completed. */
  lemma ResumeMeans(s: State)
    ensures AfterResume(s) ==
            if s.goal.status.Active? && s.goal.roundsCompleted < s.goal.maxRounds then
              var r := Round(|s.enqueued|, s.goal.roundsCompleted + 1);
              s.(queue := s.queue + [r], enqueued := s.enqueued + [[s.goal.roundsCompleted + 1]])
            else s
  {
    var wider := s.enqueued + [[]];
    assert wider[|s.enqueued| := [s.goal.roundsCompleted + 1]] == s.enqueued + [[s.goal.roundsCompleted + 1]];
    assert wider[|s.enqueued|] + [s.goal.roundsCompleted + 1] == [s.goal.roundsCompleted + 1];
  }

  /** The number of the round that finishes in this step of an active goal, if one does. */
  function FinishedIn(s: State, event: Event): seq<nat>
    requires Next(s, event).Some?
  {
    if event.Finalize? && s.goal.status.Active? then [s.queue[event.k].number] else []
  }

  /** The numbers of the rounds that finished while the goal was active, in order. */
  function Finished(s: State, events: seq<Event>): seq<nat>
    requires Run(s, events).Some?
    decreases |events|
  {
    if events == [] then [] else FinishedIn(s, events[0]) + Finished(Next(s, events[0]).value, events[1..])
  }

  /** What a goal remembers of all its finished rounds: the last ones up to its cap, and how many, one more at most. */
  predicate RecordOf(goal: Goal, all: seq<nat>) {
    && |goal.rounds| == (if |all| < goal.maxRounds then |all| else goal.maxRounds)
    && goal.rounds == all[|all| - |goal.rounds|..]
    && goal.roundsCompleted == if |all| <= goal.maxRounds then |all| else goal.maxRounds + 1
  }

  lemma RecordKept(goal: Goal, all: seq<nat>, number: nat)
    requires RecordOf(goal, all) && goal.maxRounds >= 1
    ensures RecordOf(Recorded(goal, number), all + [number])
  {
    assert goal.rounds + [number] == (all + [number])[|all| - |goal.rounds|..];
  }

  /** Only a round that finishes touches the record. */
  lemma StepRecords(s: State, event: Event)
    requires Next(s, event).Some?
    ensures var goal := Next(s, event).value.goal;
            var was := if FinishedIn(s, event) == [] then s.goal else Recorded(s.goal, FinishedIn(s, event)[0]);
            goal == was.(status := goal.status)
  {
  }

  lemma StepKeepsRecord(s: State, event: Event, all: seq<nat>)
    requires s.goal.maxRounds >= 1 && Next(s, event).Some? && RecordOf(s.goal, all)
    ensures RecordOf(Next(s, event).value.goal, all + FinishedIn(s, event))
  {
    StepRecords(s, event);
    var goal, now := Next(s, event).value.goal, FinishedIn(s, event);
    if now == [] {
      assert all + now == all;
      SameRecord(s.goal, goal, all);
    } else {
      RecordKept(s.goal, all, now[0]);
      assert now == [now[0]];
      SameRecord(Recorded(s.goal, now[0]), goal, all + now);
    }
  }

  lemma SameRecord(was: Goal, goal: Goal, all: seq<nat>)
    requires RecordOf(was, all) && goal == was.(status := goal.status)
    ensures RecordOf(goal, all)
  {
  }

  /** Over every run, the goal's record is that of the rounds that finished while it was active. */
  lemma {:induction false} GoalRecordsItsRounds(s: State, events: seq<Event>, before: seq<nat>)
    requires s.goal.maxRounds >= 1 && Run(s, events).Some? && RecordOf(s.goal, before)
    ensures RecordOf(Run(s, events).value.goal, before + Finished(s, events))
    decreases |events|
  {
    if events == [] {
      assert before + [] == before;
    } else {
      var next, now := Next(s, events[0]).value, FinishedIn(s, events[0]);
      StepKeepsRecord(s, events[0], before);
      StepRecords(s, events[0]);
      GoalRecordsItsRounds(next, events[1..], before + now);
      Associate(before, now, Finished(next, events[1..]));
    }
  }

  // ---- the daemon's methods ----

  class GoalDriver {
    var goal: Goal
    var queue: seq<Round>
    ghost var enqueued: seq<seq<nat>>
    var chains: nat

    ghost function Now(): State
      reads this
    {
      State(goal, queue, enqueued)
    }

    ghost predicate Valid()
      reads this
    {
      Inv(Now()) && chains == |enqueued|
    }

    constructor StartGoal(requested: int)
      ensures Valid() && Now() == Started(requested)
    {
      goal := Goal(Clamp(requested), Active, 0, []);
      queue, enqueued, chains := [], [[]], 1;
      new;
      EnqueueGoalRound(Round(0, 1));
      assert Now() == Started(requested);
      StartIsFine(requested);
    }

    method EnqueueGoalRound(r: Round)
      requires r.chain < |enqueued|
      modifies this
      ensures Now() == AddRound(old(Now()), r) && chains == old(chains) && |enqueued| == |old(enqueued)|
    {
      if !goal.status.Active? {
        return;
      }
      queue := queue + [r];
      enqueued := enqueued[r.chain := enqueued[r.chain] + [r.number]];
    }

    method ResumeGoal() returns (resumed: bool)
      requires Valid()
      modifies this
      ensures Valid() && Now() == AfterResume(old(Now()))
      ensures resumed <==> old(goal).status.Active? && old(goal).roundsCompleted < old(goal).maxRounds
    {
      ResumeKeepsInv(Now());
      resumed := StartChain();
    }

    method StartChain() returns (resumed: bool)
      requires chains == |enqueued|
      modifies this
      ensures Now() == AfterResume(old(Now())) && chains == |enqueued|
      ensures resumed <==> old(goal).status.Active? && old(goal).roundsCompleted < old(goal).maxRounds
    {
      if !goal.status.Active? {
        return false;
      }
      if goal.roundsCompleted >= goal.maxRounds {
        return false;
      }
      enqueued := enqueued + [[]];
      chains := chains + 1;
      EnqueueGoalRound(Round(chains - 1, goal.roundsCompleted + 1));
      return true;
    }

    method FinalizeGoalRound(k: nat, complete: bool)
      requires Valid() && k < |queue|
      modifies this
      ensures Valid() && Now() == AfterFinalize(old(Now()), k, complete)
    {
      FinalizeKeepsInv(Now(), k, complete);
      assert Tops(enqueued, queue[k]);
      RecordRound(k, complete);
    }

    method RecordRound(k: nat, complete: bool)
      requires k < |queue| && queue[k].chain < |enqueued|
      modifies this
      ensures Now() == AfterFinalize(old(Now()), k, complete)
      ensures chains == old(chains) && |enqueued| == |old(enqueued)|
    {
      var r := queue[k];
      var cap := goal.maxRounds;
      queue := Without(queue, k);
      if !goal.status.Active? {
        return;
      }
      var rounds := goal.rounds + [r.number];
      goal := goal.(rounds := Last(rounds, goal.maxRounds), roundsCompleted := |rounds|);
      if !complete {
        if r.number >= cap {
          goal := goal.(status := Blocked);
        } else {
          EnqueueGoalRound(Round(r.chain, r.number + 1));
        }
      } else {
        goal := goal.(status := Complete);
      }
    }
  }
}
