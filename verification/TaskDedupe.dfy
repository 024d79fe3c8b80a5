/** The daemon's duplicate filter in front of the task queue, and the full history it forgets most of. */
module TaskDedupe {

  const WINDOW := 60000
  const MAX_REMEMBERED := 200

  /** The last time each run id was passed on, over the whole past. */
  type History = map<string, int>

  /** What the filter is for: a run id is passed on unless it was passed on less than a minute ago. */
  predicate Due(history: History, runId: string, now: int) {
    runId !in history || now - history[runId] >= WINDOW
  }

  /** Forgetting loses nothing that still matters at time `now` or later. */
  ghost predicate Remembers(recent: map<string, int>, history: History, now: int) {
    && (forall id | id in recent :: id in history && history[id] == recent[id])
    && (forall id | id in history && id !in recent :: now - history[id] > WINDOW)
  }

  class TaskDedupe {
    var recentTasks: map<string, int>
    ghost var history: History
    ghost var clock: int

    ghost predicate Valid()
      reads this
    {
      Remembers(recentTasks, history, clock) && forall id | id in history :: history[id] <= clock
    }

    constructor (now: int)
      ensures Valid() && history == map[] && clock == now
    {
      recentTasks, history, clock := map[], map[], now;
    }

    /** Passes a run id on exactly when the full history says it is due, although old entries are forgotten. */
    method EnqueueTask(runId: string, now: int) returns (passedOn: bool)
      requires Valid() && clock <= now
      modifies this
      ensures Valid() && clock == now
      ensures passedOn <==> Due(old(history), runId, now)
      ensures history == if passedOn then old(history)[runId := now] else old(history)
    {
      clock := now;
      if runId in recentTasks && now - recentTasks[runId] < WINDOW {
        return false;
      }
      recentTasks := recentTasks[runId := now];
      history := history[runId := now];
      if |recentTasks| > MAX_REMEMBERED {
        Forget(now);
      }
      return true;
    }

    method Forget(now: int)
      requires Valid() && clock == now
      modifies this`recentTasks
      ensures Valid()
      ensures forall id | id in old(recentTasks) && now - old(recentTasks)[id] <= WINDOW :: id in recentTasks
    {
      var left := recentTasks.Keys;
      while left != {}
        invariant left <= recentTasks.Keys
        invariant Remembers(recentTasks, history, now)
        invariant forall id | id in recentTasks && id !in left :: now - recentTasks[id] <= WINDOW
        invariant forall id | id in old(recentTasks) && now - old(recentTasks)[id] <= WINDOW :: id in recentTasks
        invariant forall id | id in recentTasks :: id in old(recentTasks) && recentTasks[id] == old(recentTasks)[id]
        decreases |left|
      {
        var id :| id in left;
        left := left - {id};
        if now - recentTasks[id] > WINDOW {
          recentTasks := recentTasks - {id};
        }
      }
    }
  }

  /** A call to the filter. */
  datatype Arrival = Arrival(runId: string, now: int)

  ghost predicate Ordered(calls: seq<Arrival>) {
    forall i, j | 0 <= i < j < |calls| :: calls[i].now <= calls[j].now
  }

  /** Which of the calls are passed on. */
  function PassedOn(calls: seq<Arrival>): (passed: seq<bool>)
    ensures |passed| == |calls|
  {
    if calls == [] then []
    else
      var front := calls[..|calls| - 1];
      var call := calls[|calls| - 1];
      PassedOn(front) + [Due(HistoryOf(front), call.runId, call.now)]
  }

  function HistoryOf(calls: seq<Arrival>): History {
    if calls == [] then map[]
    else
      var front := calls[..|calls| - 1];
      var call := calls[|calls| - 1];
      if Due(HistoryOf(front), call.runId, call.now) then HistoryOf(front)[call.runId := call.now]
      else HistoryOf(front)
  }

  /** The history holds the last passed call of each id. */
  lemma {:induction false} HistoryIsLatest(calls: seq<Arrival>, i: nat)
    requires Ordered(calls) && i < |calls| && PassedOn(calls)[i]
    ensures calls[i].runId in HistoryOf(calls)
    ensures calls[i].now <= HistoryOf(calls)[calls[i].runId] <= calls[|calls| - 1].now
  {
    var front := calls[..|calls| - 1];
    if i < |front| {
      HistoryIsLatest(front, i);
    }
  }

  lemma {:induction false} HistoryIsSomePass(calls: seq<Arrival>, runId: string)
    requires runId in HistoryOf(calls)
    ensures exists i | 0 <= i < |calls| ::
              calls[i].runId == runId && PassedOn(calls)[i] && calls[i].now == HistoryOf(calls)[runId]
  {
    var front, last := calls[..|calls| - 1], calls[|calls| - 1];
    if Due(HistoryOf(front), last.runId, last.now) && last.runId == runId {
      assert PassedOn(calls)[|calls| - 1];
    } else {
      HistoryIsSomePass(front, runId);
      var i :| 0 <= i < |front| && front[i].runId == runId && PassedOn(front)[i]
        && front[i].now == HistoryOf(front)[runId];
      assert calls[i] == front[i] && PassedOn(calls)[i];
    }
  }

  /** An arrival is passed on exactly when no earlier pass of its run id lies less than 60 s back. */
  lemma {:induction false} PassedOnIff(calls: seq<Arrival>, j: nat)
    requires Ordered(calls) && j < |calls|
    ensures PassedOn(calls)[j] <==>
            forall i | 0 <= i < j && calls[i].runId == calls[j].runId && PassedOn(calls)[i] ::
              calls[j].now - calls[i].now >= 60000
  {
    var front := calls[..|calls| - 1];
    assert forall i | 0 <= i < |front| :: calls[i] == front[i] && PassedOn(calls)[i] == PassedOn(front)[i];
    if j < |front| {
      PassedOnIff(front, j);
    } else if calls[j].runId in HistoryOf(front) {
      HistoryIsSomePass(front, calls[j].runId);
      forall i | 0 <= i < j && calls[i].runId == calls[j].runId && PassedOn(calls)[i]
        ensures calls[i].now <= HistoryOf(front)[calls[j].runId]
      {
        HistoryIsLatest(front, i);
      }
    } else {
      forall i | 0 <= i < j && calls[i].runId == calls[j].runId
        ensures !PassedOn(calls)[i]
      {
        if PassedOn(front)[i] {
          HistoryIsLatest(front, i);
        }
      }
    }
  }

  /** Over any ordered sequence of arrivals, one run id is never passed on twice within a minute. */
  lemma {:induction false} PassedOnAMinuteApart(calls: seq<Arrival>, i: nat, j: nat)
    requires Ordered(calls) && i < j < |calls| && calls[i].runId == calls[j].runId
    requires PassedOn(calls)[i] && PassedOn(calls)[j]
    ensures calls[j].now - calls[i].now >= WINDOW
  {
    var front := calls[..|calls| - 1];
    if j == |calls| - 1 {
      HistoryIsLatest(front, i);
    } else {
      PassedOnAMinuteApart(front, i, j);
    }
  }

  /** The filter, run over the arrivals, passes on exactly those. */
  method Filter(calls: seq<Arrival>, start: int) returns (passed: seq<bool>)
    requires Ordered(calls) && forall i | 0 <= i < |calls| :: start <= calls[i].now
    ensures passed == PassedOn(calls)
  {
    var dedupe := new TaskDedupe(start);
    passed := [];
    for k := 0 to |calls|
      invariant dedupe.Valid() && fresh(dedupe)
      invariant dedupe.clock == if k == 0 then start else calls[k - 1].now
      invariant passed == PassedOn(calls[..k]) && dedupe.history == HistoryOf(calls[..k])
    {
      assert calls[..k + 1][..k] == calls[..k];
      var p := dedupe.EnqueueTask(calls[k].runId, calls[k].now);
      passed := passed + [p];
    }
    assert calls[..|calls|] == calls;
  }
}
