/** The sliding-window rate limiter, and the limiter with full memory that it stands for. */
module RateLimiter {
  import opened Options

  const WINDOW := 60000

  /** The limit of a tool: its own rule, else the rule for every tool, else none; 0 means unlimited. */
  function Limit(rules: map<string, Option<int>>, tool: string): int {
    if tool in rules && rules[tool].Some? then rules[tool].value
    else if "*" in rules && rules["*"].Some? then rules["*"].value
    else 0
  }

  /** The accepted calls with a time after `start`. */
  function Since(hits: seq<int>, start: int): seq<int> {
    if hits == [] then []
    else Since(hits[..|hits| - 1], start) + if hits[|hits| - 1] > start then [hits[|hits| - 1]] else []
  }

  /** Discarding hits before an earlier window start cannot be seen in a later window. */
  lemma {:induction false} ForgettingIsInvisible(hits: seq<int>, early: int, late: int)
    requires early <= late
    ensures Since(Since(hits, early), late) == Since(hits, late)
  {
    if hits != [] {
      var front, last := hits[..|hits| - 1], hits[|hits| - 1];
      ForgettingIsInvisible(front, early, late);
      if last > early {
        assert Since(hits, early)[..|Since(hits, early)| - 1] == Since(front, early);
      } else {
        assert Since(hits, early) == Since(front, early);
      }
    }
  }

  /** Fewer than `limit` accepted calls lie in the minute before `now`. */
  predicate HasRoom(accepted: seq<int>, now: int, limit: int) {
    |Since(accepted, now - WINDOW)| < limit
  }

  function At(m: map<string, seq<int>>, tool: string): seq<int> {
    if tool in m then m[tool] else []
  }

  /** At time `now` and later, the kept hits and the full history show the same window. */
  ghost predicate SameWindow(hits: seq<int>, accepted: seq<int>, now: int) {
    Since(hits, now - WINDOW) == Since(accepted, now - WINDOW)
  }

  lemma WindowMovesOn(hits: seq<int>, accepted: seq<int>, early: int, late: int)
    requires SameWindow(hits, accepted, early) && early <= late
    ensures SameWindow(hits, accepted, late)
  {
    ForgettingIsInvisible(hits, early - WINDOW, late - WINDOW);
    ForgettingIsInvisible(accepted, early - WINDOW, late - WINDOW);
  }

  /** Keeping only the window, with or without the new call, shows the same window as the full history. */
  lemma KeptShowsWindow(accepted: seq<int>, now: int)
    ensures SameWindow(Since(accepted, now - WINDOW), accepted, now)
    ensures SameWindow(Since(accepted, now - WINDOW) + [now], accepted + [now], now)
  {
    var kept := Since(accepted, now - WINDOW);
    ForgettingIsInvisible(accepted, now - WINDOW, now - WINDOW);
    assert (kept + [now])[..|kept|] == kept && (accepted + [now])[..|accepted|] == accepted;
  }

  /** How many of the times fall into the minute that starts after `start`. */
  function InMinute(hits: seq<int>, start: int): nat {
    if hits == [] then 0
    else InMinute(hits[..|hits| - 1], start) + if start < hits[|hits| - 1] <= start + WINDOW then 1 else 0
  }

  /** No minute, wherever it starts, holds more of the times than the limit. */
  ghost predicate WithinLimit(hits: seq<int>, limit: int) {
    forall start :: InMinute(hits, start) <= if limit > 0 then limit else 0
  }

  lemma {:induction false} MinuteWithinSince(hits: seq<int>, start: int, later: int)
    requires start <= later
    ensures InMinute(hits, later) <= |Since(hits, start)|
  {
    if hits != [] {
      MinuteWithinSince(hits[..|hits| - 1], start, later);
    }
  }

  /** A call that has room fits into every minute it falls into. */
  lemma RoomKeepsWithinLimit(before: seq<int>, now: int, limit: int)
    requires WithinLimit(before, limit) && HasRoom(before, now, limit)
    ensures WithinLimit(before + [now], limit)
  {
    forall start
      ensures InMinute(before + [now], start) <= limit
    {
      assert (before + [now])[..|before|] == before;
      if start < now <= start + WINDOW {
        MinuteWithinSince(before, now - WINDOW, start);
      } else {
        assert InMinute(before, start) <= limit;
      }
    }
  }

  /** Counting the kept hits is counting the accepted calls of the last minute. */
  lemma {:induction false} SinceCountsMinute(hits: seq<int>, now: int)
    requires forall i | 0 <= i < |hits| :: hits[i] <= now
    ensures |Since(hits, now - WINDOW)| == InMinute(hits, now - WINDOW)
  {
    if hits != [] {
      SinceCountsMinute(hits[..|hits| - 1], now);
    }
  }

  /** The limit of a tool is that of its own rule, or without one that of the rule for every tool, or none. */
  lemma LimitMeans(rules: map<string, Option<int>>, tool: string, n: int)
    ensures tool in rules && rules[tool] == Some(n) ==> Limit(rules, tool) == n
    ensures (tool !in rules || rules[tool].None?) && "*" in rules && rules["*"] == Some(n) ==> Limit(rules, tool) == n
    ensures (forall t | t in rules && (t == tool || t == "*") :: rules[t].None?) ==> Limit(rules, tool) == 0
  {
  }

  /**
   For one tool: the kept hits show the window of the full history, no minute of the history holds more than the
   limit, and nothing in it lies ahead of the clock.
   */
  ghost predicate Sound(hits: seq<int>, accepted: seq<int>, limit: int, clock: int) {
    && SameWindow(hits, accepted, clock) && WithinLimit(accepted, limit)
    && forall i | 0 <= i < |accepted| :: accepted[i] <= clock
  }

  lemma SoundLater(hits: seq<int>, accepted: seq<int>, limit: int, early: int, late: int)
    requires Sound(hits, accepted, limit, early) && early <= late
    ensures Sound(hits, accepted, limit, late)
    ensures Sound(Since(hits, late - WINDOW), accepted, limit, late)
    ensures |Since(hits, late - WINDOW)| == InMinute(accepted, late - WINDOW)
  {
    WindowMovesOn(hits, accepted, early, late);
    KeptShowsWindow(accepted, late);
    SinceCountsMinute(accepted, late);
  }

  lemma SoundWithHit(accepted: seq<int>, limit: int, now: int)
    requires WithinLimit(accepted, limit) && HasRoom(accepted, now, limit)
    requires forall i | 0 <= i < |accepted| :: accepted[i] <= now
    ensures Sound(Since(accepted, now - WINDOW) + [now], accepted + [now], limit, now)
  {
    KeptShowsWindow(accepted, now);
    RoomKeepsWithinLimit(accepted, now, limit);
  }

  class RateLimiter {
    const rules: map<string, Option<int>>
    var hits: map<string, seq<int>>
    ghost var accepted: map<string, seq<int>>   // every accepted call of a limited tool, never discarded
    ghost var clock: int

    ghost predicate Valid()
      reads this
    {
      forall tool :: Sound(At(hits, tool), At(accepted, tool), Limit(rules, tool), clock)
    }

    constructor (rules: map<string, Option<int>>, now: int)
      ensures Valid() && this.rules == rules && accepted == map[] && clock == now
    {
      this.rules := rules;
      hits, accepted, clock := map[], map[], now;
    }

    /** Accepts exactly when fewer than the limit were accepted in the last 60 s, over the whole past. */
    method Allow(tool: string, now: int) returns (allowed: bool)
      requires Valid() && clock <= now
      modifies this
      ensures Valid() && clock == now
      ensures var limit := Limit(rules, tool);
              var before := old(At(accepted, tool));
              && (allowed <==> limit == 0 || HasRoom(before, now, limit))
              && (allowed <==> limit == 0 || InMinute(before, now - 60000) < limit)
              && accepted == if allowed && limit != 0 then old(accepted)[tool := before + [now]] else old(accepted)
    {
      ghost var hits0, accepted0, clock0 := hits, accepted, clock;
      allowed := Decide(tool, now);
      SoundLater(At(hits0, tool), At(accepted0, tool), Limit(rules, tool), clock0, now);
      forall other
        ensures Sound(At(hits, other), At(accepted, other), Limit(rules, other), now)
      {
        SoundLater(At(hits0, other), At(accepted0, other), Limit(rules, other), clock0, now);
        if other == tool && allowed && Limit(rules, tool) != 0 {
          SoundWithHit(At(accepted0, tool), Limit(rules, tool), now);
        }
      }
    }

    method Decide(tool: string, now: int) returns (allowed: bool)
      modifies this
      ensures clock == now
      ensures var limit, kept := Limit(rules, tool), Since(old(At(hits, tool)), now - WINDOW);
              && (allowed <==> limit == 0 || |kept| < limit)
              && hits == (if limit == 0 then old(hits)
                          else old(hits)[tool := if allowed then kept + [now] else kept])
              && accepted == if allowed && limit != 0 then old(accepted)[tool := At(old(accepted), tool) + [now]]
                             else old(accepted)
    {
      clock := now;
      var limit := Limit(rules, tool);
      if limit == 0 {
        return true;
      }
      var kept := Since(At(hits, tool), now - WINDOW);
      if |kept| >= limit {
        hits := hits[tool := kept];
        return false;
      }
      accepted := accepted[tool := At(accepted, tool) + [now]];
      hits := hits[tool := kept + [now]];
      return true;
    }
  }

  // ---- the limiter with full memory ----

  datatype Request = Request(tool: string, now: int)

  /** When one tool was asked for. */
  function TimesOf(requests: seq<Request>, tool: string): seq<int> {
    if requests == [] then []
    else
      var last := requests[|requests| - 1];
      TimesOf(requests[..|requests| - 1], tool) + if last.tool == tool then [last.now] else []
  }

  /** All accepted calls of one tool after more requests for it, when nothing is ever forgotten. */
  function Admitted(before: seq<int>, times: seq<int>, limit: int): seq<int> {
    if times == [] then before
    else
      var accepted, now := Admitted(before, times[..|times| - 1], limit), times[|times| - 1];
      if HasRoom(accepted, now, limit) then accepted + [now] else accepted
  }

  lemma {:induction false} NoMinuteExceedsLimit(before: seq<int>, times: seq<int>, limit: int)
    requires WithinLimit(before, limit)
    ensures WithinLimit(Admitted(before, times, limit), limit)
  {
    if times != [] {
      var accepted, now := Admitted(before, times[..|times| - 1], limit), times[|times| - 1];
      NoMinuteExceedsLimit(before, times[..|times| - 1], limit);
      if HasRoom(accepted, now, limit) {
        RoomKeepsWithinLimit(accepted, now, limit);
      }
    }
  }

  /** Whether a limiter with full memory lets request `k` through. */
  function Decision(rules: map<string, Option<int>>, before: map<string, seq<int>>, requests: seq<Request>, k: nat)
    : bool
    requires k < |requests|
  {
    var tool, now := requests[k].tool, requests[k].now;
    var limit := Limit(rules, tool);
    limit == 0 || HasRoom(Admitted(At(before, tool), TimesOf(requests[..k], tool), limit), now, limit)
  }

  function Decisions(rules: map<string, Option<int>>, before: map<string, seq<int>>, requests: seq<Request>, n: nat)
    : (answers: seq<bool>)
    requires n <= |requests|
    ensures |answers| == n && forall k | 0 <= k < n :: answers[k] == Decision(rules, before, requests, k)
  {
    if n == 0 then []
    else Decisions(rules, before, requests, n - 1) + [Decision(rules, before, requests, n - 1)]
  }

  /** Of every limited tool, what was accepted is what a limiter with full memory would have accepted. */
  ghost predicate AcceptedAll(rules: map<string, Option<int>>, before: map<string, seq<int>>, requests: seq<Request>,
                              accepted: map<string, seq<int>>)
  {
    forall tool | Limit(rules, tool) != 0 ::
      At(accepted, tool) == Admitted(At(before, tool), TimesOf(requests, tool), Limit(rules, tool))
  }

  lemma OneMore(rules: map<string, Option<int>>, before: map<string, seq<int>>, requests: seq<Request>, k: nat,
                accepted: map<string, seq<int>>, more: map<string, seq<int>>)
    requires k < |requests| && AcceptedAll(rules, before, requests[..k], accepted)
    requires var tool := requests[k].tool;
             more == if Decision(rules, before, requests, k) && Limit(rules, tool) != 0
                     then accepted[tool := At(accepted, tool) + [requests[k].now]] else accepted
    ensures AcceptedAll(rules, before, requests[..k + 1], more)
  {
    assert requests[..k + 1][..k] == requests[..k];
    forall tool | Limit(rules, tool) != 0
      ensures At(more, tool) == Admitted(At(before, tool), TimesOf(requests[..k + 1], tool), Limit(rules, tool))
    {
      var times := TimesOf(requests[..k], tool);
      assert (times + [requests[k].now])[..|times|] == times && times + [] == times;
      assert TimesOf(requests[..k + 1], tool) == times + if requests[k].tool == tool then [requests[k].now] else [];
    }
  }

  /**
   On a clock that never runs backwards, whatever the order of the tools: the limiter that forgets decides every
   call as one with full memory, and afterwards no minute holds more calls of a tool than its limit.
   */
  method Serve(limiter: RateLimiter, requests: seq<Request>) returns (answers: seq<bool>)
    requires limiter.Valid()
    requires requests != [] ==> limiter.clock <= requests[0].now
    requires forall i | 0 < i < |requests| :: requests[i - 1].now <= requests[i].now
    modifies limiter
    ensures limiter.Valid()
    ensures AcceptedAll(limiter.rules, old(limiter.accepted), requests, limiter.accepted)
    ensures answers == Decisions(limiter.rules, old(limiter.accepted), requests, |requests|)
    ensures forall tool :: WithinLimit(At(limiter.accepted, tool), Limit(limiter.rules, tool))
  {
    answers := [];
    ghost var before := limiter.accepted;
    assert requests[..0] == [];
    for k := 0 to |requests|
      invariant limiter.Valid()
      invariant k < |requests| ==> limiter.clock <= requests[k].now
      invariant AcceptedAll(limiter.rules, before, requests[..k], limiter.accepted)
      invariant answers == Decisions(limiter.rules, before, requests, k)
    {
      var answer := ServeOne(limiter, requests, k, before);
      answers := answers + [answer];
    }
    assert requests[..|requests|] == requests;
  }

  method ServeOne(limiter: RateLimiter, requests: seq<Request>, k: nat, ghost before: map<string, seq<int>>)
    returns (allowed: bool)
    requires limiter.Valid() && k < |requests| && limiter.clock <= requests[k].now
    requires AcceptedAll(limiter.rules, before, requests[..k], limiter.accepted)
    modifies limiter
    ensures limiter.Valid() && limiter.clock == requests[k].now
    ensures AcceptedAll(limiter.rules, before, requests[..k + 1], limiter.accepted)
    ensures allowed == Decision(limiter.rules, before, requests, k)
  {
    ghost var accepted := limiter.accepted;
    allowed := limiter.Allow(requests[k].tool, requests[k].now);
    OneMore(limiter.rules, before, requests, k, accepted, limiter.accepted);
  }
}
