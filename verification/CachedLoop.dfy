/** `#runTool`: one tool call of the loop, through the cache. */
module CachedLoop {
  import opened Options
  import opened Json
  import opened JsonRoundTrip
  import opened JsonCanonical
  import opened ToolCache
  import opened ToolActions

  /** The `files` tool: new file state and outcome, from the file state and the arguments. */
  type FilesTool<!Fs> = (Fs, Json) -> (Fs, Outcome)

  /**
   What is assumed of the `files` tool: list, stat and read change nothing, and arguments are read by key, so
   argument objects that differ in key order alone are the same to it. Every other action may change anything.
   */
  ghost predicate WellBehaved<Fs(!new)>(files: FilesTool<Fs>) {
    && (forall fs, args | Cacheable("files", args) :: files(fs, args).0 == fs)
    && (forall fs, a, b | Proper(a) && Proper(b) && SameValue(ByPropertyOrder, Given(a), Given(b)) ::
          files(fs, a) == files(fs, b))
  }

  /** A call of the brain: `other` is what a tool other than `files` would do to the files and answer right now. */
  datatype Call<!Fs> = Call(name: string, args: Json, now: int, other: Fs -> (Fs, Outcome))

  /** Of the other tools, those whose answers are cached change no files; shell, delegate and the like may. */
  ghost predicate Quiet<Fs(!new)>(call: Call<Fs>) {
    Cacheable(call.name, call.args) && call.name != "files" ==> forall fs :: call.other(fs).0 == fs
  }

  ghost predicate Sound<Fs(!new)>(call: Call<Fs>) {
    Proper(call.args) && Quiet(call)
  }

  /** The call without a cache. */
  function Direct<Fs>(files: FilesTool<Fs>, fs: Fs, call: Call<Fs>): (Fs, Outcome) {
    if call.name == "files" then files(fs, call.args) else call.other(fs)
  }

  /** Answers the cache promises to be current; those of sysinfo, web and net may be as old as their time to live. */
  predicate Promised<Fs>(call: Call<Fs>) {
    call.name == "files" || !Cacheable(call.name, call.args)
  }

  /** The same calls without a cache: the files, and the promised outcomes in order. */
  function Uncached<Fs>(files: FilesTool<Fs>, fs: Fs, calls: seq<Call<Fs>>): (r: (Fs, seq<Outcome>)) {
    if calls == [] then (fs, [])
    else
      var (before, outs) := Uncached(files, fs, calls[..|calls| - 1]);
      var call := calls[|calls| - 1];
      var (after, out) := Direct(files, before, call);
      (after, outs + if Promised(call) then [out] else [])
  }

  predicate Storable(out: Outcome) {
    out.present && !out.error && out.ok
  }

  /** A call after which every stored `files` entry is dropped. */
  predicate Invalidates<Fs>(call: Call<Fs>, out: Outcome) {
    call.name == "files" && out.present && !out.error && Mutating(call.args)
  }

  // ---- one step of the loop ----

  predicate KeyedBy<Fs>(e: Entry, call: Call<Fs>) {
    e.key == Key(call.name, CanonicalArgs(call.args))
  }

  ghost predicate Hit<Fs>(entries: seq<Entry>, call: Call<Fs>) {
    Cacheable(call.name, call.args) && exists e :: e in entries && KeyedBy(e, call) && !Expired(e, call.now)
  }

  /** On a hit the answer is a stored one that has not expired, and the tool is not called. */
  ghost predicate HitStep<Fs>(call: Call<Fs>, fs: Fs, entries: seq<Entry>, fs': Fs, entries': seq<Entry>,
                              out: Outcome)
  {
    && fs' == fs
    && (forall e | e in entries' :: Holds(entries, e))
    && exists e :: e in entries && KeyedBy(e, call) && !Expired(e, call.now) && e.result == out
  }

  function NewEntry<Fs>(call: Call<Fs>, out: Outcome): Entry {
    Entry(Key(call.name, CanonicalArgs(call.args)), out, DefaultTtl(call.name), call.now, 1)
  }

  /** On a miss the tool is called; what is kept was there before or is the new answer. */
  ghost predicate MissStep<Fs>(maxEntries: nat, call: Call<Fs>, entries: seq<Entry>, entries': seq<Entry>,
                               out: Outcome)
  {
    && (forall e | e in entries' :: Holds(entries, e) || (e == NewEntry(call, out) && Storable(out)))
    && (Storable(out) && |entries| < maxEntries ==> NewEntry(call, out) in entries')
  }

  /** A call that is not cacheable goes to the tool; the cache is left alone or loses what it has of `files`. */
  ghost predicate PlainStep<Fs>(call: Call<Fs>, entries: seq<Entry>, entries': seq<Entry>, out: Outcome) {
    if Invalidates(call, out) then forall e :: e in entries' <==> e in entries && e.key.tool != "files"
    else entries' == entries
  }

  ghost predicate Stepped<Fs>(files: FilesTool<Fs>, maxEntries: nat, call: Call<Fs>, fs: Fs, entries: seq<Entry>,
                              fs': Fs, entries': seq<Entry>, out: Outcome)
  {
    if Hit(entries, call) then HitStep(call, fs, entries, fs', entries', out)
    else
      && (fs', out) == Direct(files, fs, call)
      && if Cacheable(call.name, call.args) then MissStep(maxEntries, call, entries, entries', out)
         else PlainStep(call, entries, entries', out)
  }

  // ---- when stored answers are current ----

  /** What a `files` entry holds is what the tool would answer now, for every argument object of that key text. */
  ghost predicate Fresh<Fs>(files: FilesTool<Fs>, fs: Fs, e: Entry) {
    e.key.tool == "files" ==>
      && Storable(e.result)
      && forall args | Proper(args) && CanonicalArgs(args) == e.key.args ::
           Cacheable("files", args) && e.result == files(fs, args).1
  }

  ghost predicate AllFresh<Fs>(files: FilesTool<Fs>, fs: Fs, entries: seq<Entry>) {
    forall e | e in entries :: Fresh(files, fs, e)
  }

  /** The calls with stored answers would get the same answers in the new file state. */
  ghost predicate KeepsAnswers<Fs>(files: FilesTool<Fs>, fs: Fs, after: Fs, entries: seq<Entry>) {
    forall e, args | e in entries && e.key.tool == "files" && Proper(args) && CanonicalArgs(args) == e.key.args ::
      files(after, args).1 == files(fs, args).1
  }

  lemma SameKeySameAnswer<Fs(!new)>(files: FilesTool<Fs>, fs: Fs, a: Json, b: Json)
    requires WellBehaved(files) && Proper(a) && Proper(b) && CanonicalArgs(a) == CanonicalArgs(b)
    ensures files(fs, a) == files(fs, b)
  {
    EqualTextIffSameValue(ByPropertyOrder, Given(a), Given(b));
  }

  lemma HitsDoNotMatter<Fs>(files: FilesTool<Fs>, fs: Fs, before: seq<Entry>, e: Entry)
    requires AllFresh(files, fs, before) && Holds(before, e)
    ensures Fresh(files, fs, e)
  {
    var i :| 0 <= i < |before| && before[i].(hits := e.hits) == e;
    assert Fresh(files, fs, before[i]);
  }

  lemma NewAnswerIsFresh<Fs(!new)>(files: FilesTool<Fs>, fs: Fs, call: Call<Fs>, e: Entry)
    requires WellBehaved(files) && Proper(call.args) && Cacheable(call.name, call.args) && KeyedBy(e, call)
    requires Storable(e.result) && e.result == Direct(files, fs, call).1
    ensures Fresh(files, fs, e)
  {
    forall other | Proper(other) && CanonicalArgs(other) == e.key.args && call.name == "files"
      ensures Cacheable("files", other) && e.result == files(fs, other).1
    {
      SameKeySameAnswer(files, fs, other, call.args);
      SameKeySameDecision("files", other, call.args);
    }
  }

  /** While stored answers are current, a call through the cache acts and, if promised, answers as the tool itself. */
  lemma FreshStepIsDirect<Fs(!new)>(files: FilesTool<Fs>, maxEntries: nat, call: Call<Fs>, fs: Fs, entries: seq<Entry>,
                                    fs': Fs, entries': seq<Entry>, out: Outcome)
    requires WellBehaved(files) && Sound(call) && AllFresh(files, fs, entries)
    requires Stepped(files, maxEntries, call, fs, entries, fs', entries', out)
    ensures fs' == Direct(files, fs, call).0
    ensures Promised(call) ==> out == Direct(files, fs, call).1
  {
    if Hit(entries, call) && call.name == "files" {
      var e :| e in entries && KeyedBy(e, call) && e.result == out;
      assert Fresh(files, fs, e);
    }
  }

  /** After any call of any tool the stored answers are still current exactly when it dropped them or changed none. */
  lemma StaysFreshIff<Fs(!new)>(files: FilesTool<Fs>, maxEntries: nat, call: Call<Fs>, fs: Fs, entries: seq<Entry>,
                                fs': Fs, entries': seq<Entry>, out: Outcome)
    requires WellBehaved(files) && Sound(call) && AllFresh(files, fs, entries)
    requires Stepped(files, maxEntries, call, fs, entries, fs', entries', out)
    ensures var (after, answer) := Direct(files, fs, call);
            AllFresh(files, fs', entries') <==> Invalidates(call, answer) || KeepsAnswers(files, fs, after, entries)
  {
    FreshStepIsDirect(files, maxEntries, call, fs, entries, fs', entries', out);
    if Cacheable(call.name, call.args) {
      assert fs' == fs == Direct(files, fs, call).0;
      forall e | e in entries'
        ensures Fresh(files, fs, e)
      {
        if Holds(entries, e) {
          HitsDoNotMatter(files, fs, entries, e);
        } else {
          NewAnswerIsFresh(files, fs, call, e);
        }
      }
    } else {
      PlainStepFreshIff(files, call, fs, entries, fs', entries', out);
    }
  }

  lemma PlainStepFreshIff<Fs>(files: FilesTool<Fs>, call: Call<Fs>, fs: Fs, entries: seq<Entry>,
                              fs': Fs, entries': seq<Entry>, out: Outcome)
    requires AllFresh(files, fs, entries) && PlainStep(call, entries, entries', out)
    ensures AllFresh(files, fs', entries') <==> Invalidates(call, out) || KeepsAnswers(files, fs, fs', entries)
  {
    forall e | e in entries
      ensures Fresh(files, fs, e)
      ensures Fresh(files, fs', e) <==>
              e.key.tool == "files" ==> forall args | Proper(args) && CanonicalArgs(args) == e.key.args ::
                files(fs', args).1 == files(fs, args).1
    {
    }
  }

  // ---- whole histories ----

  /** A call that drops the stored answers, or that changes no answer that could be stored. */
  ghost predicate Harmless<Fs(!new)>(files: FilesTool<Fs>, fs: Fs, call: Call<Fs>) {
    var (after, out) := Direct(files, fs, call);
    || Invalidates(call, out)
    || forall args | Proper(args) && Cacheable("files", args) && Storable(files(fs, args).1) ::
         files(after, args).1 == files(fs, args).1
  }

  ghost predicate HarmlessHistory<Fs(!new)>(files: FilesTool<Fs>, fs: Fs, calls: seq<Call<Fs>>) {
    forall i | 0 <= i < |calls| :: Harmless(files, Uncached(files, fs, calls[..i]).0, calls[i])
  }

  /** A call that changes no files, or a `files` call with the action write or delete that succeeds. */
  ghost predicate Tidy<Fs(!new)>(files: FilesTool<Fs>, fs: Fs, call: Call<Fs>) {
    var (after, out) := Direct(files, fs, call);
    after != fs ==> call.name == "files" && WritesOrDeletes(call.args) && out.present && !out.error
  }

  lemma TidyIsHarmless<Fs(!new)>(files: FilesTool<Fs>, fs: Fs, call: Call<Fs>)
    requires Proper(call.args) && Tidy(files, fs, call)
    ensures Harmless(files, fs, call)
  {
    if Direct(files, fs, call).0 != fs {
      WritingMutates(call.args);
    }
  }

  /** A successful `files` call with the action write or delete drops what the cache holds of files, and only that. */
  lemma WriteDropsFiles<Fs>(files: FilesTool<Fs>, maxEntries: nat, call: Call<Fs>, fs: Fs, entries: seq<Entry>,
                            fs': Fs, entries': seq<Entry>, out: Outcome)
    requires call.name == "files" && Proper(call.args) && WritesOrDeletes(call.args)
    requires Stepped(files, maxEntries, call, fs, entries, fs', entries', out) && out.present && !out.error
    ensures (fs', out) == files(fs, call.args)
    ensures forall e :: e in entries' <==> e in entries && e.key.tool != "files"
  {
    WritingMutates(call.args);
  }

  /** A `files` call that fails, or whose action is no list, stat, read, write or delete, leaves the cache alone. */
  lemma OtherActionsDropNothing<Fs>(files: FilesTool<Fs>, maxEntries: nat, call: Call<Fs>, fs: Fs, entries: seq<Entry>,
                                    fs': Fs, entries': seq<Entry>, out: Outcome)
    requires call.name == "files" && Proper(call.args) && Worded(call.args, ACTION)
    requires !Silent(call.args, ACTION) && !Reads(call.args)
    requires Stepped(files, maxEntries, call, fs, entries, fs', entries', out)
    ensures !out.present || out.error || !WritesOrDeletes(call.args) ==> entries' == entries
  {
    CacheableFilesMeans(call.args);
    MutatingMeans(call.args);
  }

  lemma HarmlessKeepsAnswers<Fs(!new)>(files: FilesTool<Fs>, fs: Fs, call: Call<Fs>, entries: seq<Entry>)
    requires AllFresh(files, fs, entries) && Harmless(files, fs, call)
    ensures var (after, out) := Direct(files, fs, call);
            Invalidates(call, out) || KeepsAnswers(files, fs, after, entries)
  {
    forall e, args | e in entries && e.key.tool == "files" && Proper(args) && CanonicalArgs(args) == e.key.args
      ensures Cacheable("files", args) && Storable(files(fs, args).1)
    {
      assert Fresh(files, fs, e);
    }
  }

  class Loop<Fs(!new)> {
    const files: FilesTool<Fs>
    var fs: Fs
    const cache: ToolCache

    ghost predicate Valid()
      reads this, cache
    {
      WellBehaved(files) && cache.Valid()
    }

    ghost predicate Current()
      reads this, cache
    {
      AllFresh(files, fs, cache.entries)
    }

    constructor (files: FilesTool<Fs>, fs: Fs, maxEntries: nat)
      requires WellBehaved(files)
      ensures Valid() && Current() && this.files == files && this.fs == fs
      ensures fresh(cache) && cache.entries == [] && cache.maxEntries == maxEntries
    {
      this.files := files;
      this.fs := fs;
      cache := new ToolCache(maxEntries);
    }

    method RunTool(call: Call<Fs>) returns (out: Outcome)
      requires Valid() && Proper(call.args)
      modifies this, cache
      ensures Valid()
      ensures Stepped(files, cache.maxEntries, call, old(fs), old(cache.entries), fs, cache.entries, out)
    {
      if Cacheable(call.name, call.args) {
        var cached := cache.Get(call.name, call.args, call.now);
        if cached.Some? {
          return cached.value;
        }
        assert !Hit(old(cache.entries), call);
      }
      var answer := if call.name == "files" then files(fs, call.args) else call.other(fs);
      fs, out := answer.0, answer.1;
      if call.name == "files" && out.present && !out.error && Mutating(call.args) {
        if Cacheable("files", call.args) {
          CacheableFilesDoNotMutate(call.args);
        }
        var _ := cache.InvalidateTool("files");
      }
      if Cacheable(call.name, call.args) && out.present && !out.error && out.ok {
        cache.Set(call.name, call.args, out, None, call.now);
      }
    }

    /** With current answers stored, a call acts and answers as the tool itself; the iff says when they stay current. */
    method RunCurrent(call: Call<Fs>) returns (out: Outcome)
      requires Valid() && Sound(call) && Current()
      modifies this, cache
      ensures Valid()
      ensures fs == Direct(files, old(fs), call).0
      ensures Promised(call) ==> out == Direct(files, old(fs), call).1
      ensures Current() <==>
              Invalidates(call, Direct(files, old(fs), call).1)
              || KeepsAnswers(files, old(fs), Direct(files, old(fs), call).0, old(cache.entries))
    {
      out := RunTool(call);
      FreshStepIsDirect(files, cache.maxEntries, call, old(fs), old(cache.entries), fs, cache.entries, out);
      StaysFreshIff(files, cache.maxEntries, call, old(fs), old(cache.entries), fs, cache.entries, out);
    }

    /** Every history of harmless calls gives the promised answers and the files it would give without a cache. */
    method RunAll(calls: seq<Call<Fs>>) returns (outs: seq<Outcome>)
      requires Valid() && Current() && (forall c | c in calls :: Sound(c)) && HarmlessHistory(files, fs, calls)
      modifies this, cache
      ensures Valid() && Current()
      ensures (fs, outs) == Uncached(files, old(fs), calls)
    {
      outs := [];
      for i := 0 to |calls|
        invariant Valid() && Current()
        invariant (fs, outs) == Uncached(files, old(fs), calls[..i])
      {
        assert calls[..i + 1][..i] == calls[..i];
        HarmlessKeepsAnswers(files, fs, calls[i], cache.entries);
        var out := RunCurrent(calls[i]);
        if calls[i].name == "files" || !Cacheable(calls[i].name, calls[i].args) {
          outs := outs + [out];
        } else {
          assert outs + [] == outs;
        }
      }
      assert calls[..|calls|] == calls;
    }

    /** Any history at all, from an empty cache: no answer is older than its time to live. */
    method RunAny(calls: seq<Call<Fs>>) returns (outs: seq<Outcome>, ghost states: seq<Fs>)
      requires Valid() && cache.entries == [] && forall c | c in calls :: Proper(c.args)
      modifies this, cache
      ensures Valid() && |outs| == |calls| && |states| == |calls| + 1 && states[0] == old(fs) && states[|calls|] == fs
      ensures forall k | 0 <= k < |calls| :: Answered(files, calls, states, outs, k)
    {
      outs, states := [], [fs];
      for k := 0 to |calls|
        invariant Valid() && |outs| == k && |states| == k + 1 && states[0] == old(fs) && states[k] == fs
        invariant forall i | 0 <= i < k :: Answered(files, calls, states, outs, i)
        invariant AllBacked(files, calls, states, outs, cache.entries)
      {
        ghost var entries := cache.entries;
        var out := RunTool(calls[k]);
        StepKeepsBacked(files, cache.maxEntries, calls, states, outs, entries, fs, cache.entries, out);
        outs, states := outs + [out], states + [fs];
      }
    }
  }

  // ---- how old an answer can be, whatever the calls do ----

  /** Call `j` had this key, its tool was called, and gave this answer. */
  ghost predicate Source<Fs>(files: FilesTool<Fs>, calls: seq<Call<Fs>>, states: seq<Fs>, outs: seq<Outcome>,
                             j: nat, key: Key, out: Outcome)
    requires |outs| <= |calls| && |outs| < |states| && j < |outs|
  {
    && key == Key(calls[j].name, CanonicalArgs(calls[j].args)) && out == outs[j] && Storable(out)
    && (states[j + 1], out) == Direct(files, states[j], calls[j])
  }

  /** No call since `j` dropped the stored `files` answers. */
  ghost predicate KeptSince<Fs>(calls: seq<Call<Fs>>, outs: seq<Outcome>, j: nat, k: nat)
    requires k <= |outs| <= |calls|
  {
    forall i | j < i < k :: !Invalidates(calls[i], outs[i])
  }

  /** In milliseconds: half a minute for files, a minute for sysinfo, five minutes for web and net. */
  function MaxAge(tool: string): int {
    match tool
    case "files" => 30000
    case "sysinfo" => 60000
    case _ => 300000
  }

  /** A stored answer is served again exactly as long as that. */
  lemma ServedWhileYoung<Fs>(files: FilesTool<Fs>, maxEntries: nat, first: Call<Fs>, second: Call<Fs>, fs: Fs,
                             entries: seq<Entry>, fs': Fs, entries': seq<Entry>, out: Outcome)
    requires Cacheable(first.name, first.args) && Cacheable(second.name, second.args)
    requires second.name == first.name && CanonicalArgs(second.args) == CanonicalArgs(first.args)
    requires !Hit(entries, first) && Stepped(files, maxEntries, first, fs, entries, fs', entries', out)
    requires Storable(out) && |entries| < maxEntries && DistinctEntries(entries')
    ensures Hit(entries', second) <==> second.now - first.now <= MaxAge(first.name)
  {
    var made := NewEntry(first, out);
    assert made in entries' && KeyedBy(made, second);
    forall e | e in entries' && KeyedBy(e, second)
      ensures e == made
    {
      var i :| 0 <= i < |entries'| && entries'[i] == e;
      var j :| 0 <= j < |entries'| && entries'[j] == made;
      assert i == j;
    }
  }

  /** Call `k` got its tool's answer, or one its tool gave to an earlier call of the same key that is not too old. */
  ghost predicate Answered<Fs>(files: FilesTool<Fs>, calls: seq<Call<Fs>>, states: seq<Fs>, outs: seq<Outcome>, k: nat)
    requires |outs| <= |calls| && |outs| < |states| && k < |outs|
  {
    || (states[k + 1], outs[k]) == Direct(files, states[k], calls[k])
    || (&& states[k + 1] == states[k] && Cacheable(calls[k].name, calls[k].args)
        && exists j: nat | j < k ::
             && Source(files, calls, states, outs, j, Key(calls[k].name, CanonicalArgs(calls[k].args)), outs[k])
             && calls[k].now - calls[j].now <= MaxAge(calls[k].name)
             && (calls[k].name == "files" ==> KeptSince(calls, outs, j, k)))
  }

  /** A stored answer and when it was given, hit counts aside, are those of the earlier call `j`. */
  ghost predicate BackedBy<Fs>(files: FilesTool<Fs>, calls: seq<Call<Fs>>, states: seq<Fs>, outs: seq<Outcome>,
                               e: Entry, j: nat)
    requires |outs| <= |calls| && |outs| < |states|
  {
    && j < |outs| && Source(files, calls, states, outs, j, e.key, e.result)
    && e.createdAt == calls[j].now && e.ttlMs == DefaultTtl(e.key.tool)
    && (e.key.tool == "files" ==> KeptSince(calls, outs, j, |outs|))
  }

  ghost predicate Backed<Fs>(files: FilesTool<Fs>, calls: seq<Call<Fs>>, states: seq<Fs>, outs: seq<Outcome>, e: Entry)
    requires |outs| <= |calls| && |outs| < |states|
  {
    exists j: nat :: BackedBy(files, calls, states, outs, e, j)
  }

  ghost predicate AllBacked<Fs>(files: FilesTool<Fs>, calls: seq<Call<Fs>>, states: seq<Fs>, outs: seq<Outcome>,
                                entries: seq<Entry>)
    requires |outs| <= |calls| && |outs| < |states|
  {
    forall e | e in entries :: Backed(files, calls, states, outs, e)
  }

  lemma HeldIsBacked<Fs>(files: FilesTool<Fs>, calls: seq<Call<Fs>>, states: seq<Fs>, outs: seq<Outcome>,
                         entries: seq<Entry>, e: Entry)
    requires |outs| <= |calls| && |outs| < |states|
    requires AllBacked(files, calls, states, outs, entries) && Holds(entries, e)
    ensures Backed(files, calls, states, outs, e)
  {
    var i :| 0 <= i < |entries| && entries[i].(hits := e.hits) == e;
    assert Backed(files, calls, states, outs, entries[i]);
    var j: nat :| BackedBy(files, calls, states, outs, entries[i], j);
    assert BackedBy(files, calls, states, outs, e, j);
  }

  /** What was backed stays so after one more call, unless that call drops it. */
  lemma BackedLater<Fs>(files: FilesTool<Fs>, calls: seq<Call<Fs>>, states: seq<Fs>, outs: seq<Outcome>, e: Entry,
                        fs': Fs, out: Outcome)
    requires |outs| < |calls| && |states| == |outs| + 1 && Backed(files, calls, states, outs, e)
    requires e.key.tool == "files" ==> !Invalidates(calls[|outs|], out)
    ensures Backed(files, calls, states + [fs'], outs + [out], e)
  {
    var j: nat :| BackedBy(files, calls, states, outs, e, j);
    assert Source(files, calls, states + [fs'], outs + [out], j, e.key, e.result);
    assert BackedBy(files, calls, states + [fs'], outs + [out], e, j);
  }

  lemma AnsweredLater<Fs>(files: FilesTool<Fs>, calls: seq<Call<Fs>>, states: seq<Fs>, outs: seq<Outcome>, k: nat,
                          fs': Fs, out: Outcome)
    requires |outs| < |calls| && |states| == |outs| + 1 && k < |outs| && Answered(files, calls, states, outs, k)
    ensures Answered(files, calls, states + [fs'], outs + [out], k)
  {
    if (states[k + 1], outs[k]) != Direct(files, states[k], calls[k]) {
      var key := Key(calls[k].name, CanonicalArgs(calls[k].args));
      var j: nat :| j < k && Source(files, calls, states, outs, j, key, outs[k])
        && calls[k].now - calls[j].now <= MaxAge(calls[k].name)
        && (calls[k].name == "files" ==> KeptSince(calls, outs, j, k));
      assert Source(files, calls, states + [fs'], outs + [out], j, key, outs[k]);
    }
  }

  lemma HitIsAnswered<Fs>(files: FilesTool<Fs>, calls: seq<Call<Fs>>, states: seq<Fs>, outs: seq<Outcome>,
                          entries: seq<Entry>, fs': Fs, entries': seq<Entry>, out: Outcome)
    requires |outs| < |calls| && |states| == |outs| + 1 && AllBacked(files, calls, states, outs, entries)
    requires var call := calls[|outs|];
             Cacheable(call.name, call.args) && HitStep(call, states[|outs|], entries, fs', entries', out)
    ensures Answered(files, calls, states + [fs'], outs + [out], |outs|)
  {
    var k := |outs|;
    var e :| e in entries && KeyedBy(e, calls[k]) && !Expired(e, calls[k].now) && e.result == out;
    assert Backed(files, calls, states, outs, e);
    var j: nat :| BackedBy(files, calls, states, outs, e, j);
    assert Source(files, calls, states + [fs'], outs + [out], j, e.key, out);
  }

  lemma StepKeepsBacked<Fs>(files: FilesTool<Fs>, maxEntries: nat, calls: seq<Call<Fs>>, states: seq<Fs>,
                            outs: seq<Outcome>, entries: seq<Entry>, fs': Fs, entries': seq<Entry>, out: Outcome)
    requires |outs| < |calls| && |states| == |outs| + 1 && AllBacked(files, calls, states, outs, entries)
    requires forall i | 0 <= i < |outs| :: Answered(files, calls, states, outs, i)
    requires Stepped(files, maxEntries, calls[|outs|], states[|outs|], entries, fs', entries', out)
    ensures AllBacked(files, calls, states + [fs'], outs + [out], entries')
    ensures forall i | 0 <= i <= |outs| :: Answered(files, calls, states + [fs'], outs + [out], i)
  {
    var call := calls[|outs|];
    forall i | 0 <= i <= |outs|
      ensures Answered(files, calls, states + [fs'], outs + [out], i)
    {
      if i < |outs| {
        AnsweredLater(files, calls, states, outs, i, fs', out);
      } else if Hit(entries, call) {
        HitIsAnswered(files, calls, states, outs, entries, fs', entries', out);
      }
    }
    forall e | e in entries'
      ensures Backed(files, calls, states + [fs'], outs + [out], e)
    {
      StepBacks(files, maxEntries, calls, states, outs, entries, fs', entries', out, e);
    }
  }

  lemma StepBacks<Fs>(files: FilesTool<Fs>, maxEntries: nat, calls: seq<Call<Fs>>, states: seq<Fs>,
                      outs: seq<Outcome>, entries: seq<Entry>, fs': Fs, entries': seq<Entry>, out: Outcome, e: Entry)
    requires |outs| < |calls| && |states| == |outs| + 1 && AllBacked(files, calls, states, outs, entries)
    requires Stepped(files, maxEntries, calls[|outs|], states[|outs|], entries, fs', entries', out) && e in entries'
    ensures Backed(files, calls, states + [fs'], outs + [out], e)
  {
    var call := calls[|outs|];
    if Cacheable(call.name, call.args) && !Holds(entries, e) {
      assert e == NewEntry(call, out) && Storable(out);
      assert Source(files, calls, states + [fs'], outs + [out], |outs|, e.key, out);
      assert BackedBy(files, calls, states + [fs'], outs + [out], e, |outs|);
    } else {
      if Holds(entries, e) {
        HeldIsBacked(files, calls, states, outs, entries, e);
      }
      if call.name == "files" && Cacheable(call.name, call.args) {
        CacheableFilesDoNotMutate(call.args);
      }
      BackedLater(files, calls, states, outs, e, fs', out);
    }
  }

  // ---- calls that are not harmless ----

  /** What a read, a call that is not cacheable, and the same read again answer from an empty cache. */
  lemma SecondRead<Fs>(files: FilesTool<Fs>, maxEntries: nat, first: Call<Fs>, act: Call<Fs>, second: Call<Fs>,
                       fs: Fs, entries1: seq<Entry>, fs2: Fs, entries2: seq<Entry>, fs3: Fs, entries3: seq<Entry>,
                       out1: Outcome, out2: Outcome, out3: Outcome)
    requires maxEntries > 0 && first.name == second.name == "files" && second.args == first.args
    requires second.now - first.now <= DefaultTtl("files")
    requires Cacheable("files", first.args) && Storable(files(fs, first.args).1) && !Cacheable(act.name, act.args)
    requires Stepped(files, maxEntries, first, fs, [], fs, entries1, out1)
    requires Stepped(files, maxEntries, act, fs, entries1, fs2, entries2, out2)
    requires Stepped(files, maxEntries, second, fs2, entries2, fs3, entries3, out3)
    ensures out3 == if Invalidates(act, out2) then files(fs2, first.args).1 else files(fs, first.args).1
  {
    assert !Hit([], first);
    var made := NewEntry(first, out1);
    assert made in entries1;
    assert forall e | e in entries1 :: e == made;
    assert !Hit(entries1, act);
    if Invalidates(act, out2) {
      assert !Hit(entries2, second);
    } else {
      assert KeyedBy(made, second) && !Expired(made, second.now);
    }
  }

  lemma SecondReadIff<Fs(!new)>(files: FilesTool<Fs>, maxEntries: nat, first: Call<Fs>, act: Call<Fs>,
                                second: Call<Fs>, fs: Fs, fs1: Fs, entries1: seq<Entry>, fs2: Fs, entries2: seq<Entry>,
                                fs3: Fs, entries3: seq<Entry>, out1: Outcome, out2: Outcome, out3: Outcome)
    requires WellBehaved(files) && maxEntries > 0 && first.name == second.name == "files" && Sound(act)
    requires Proper(first.args) && second.args == first.args && second.now - first.now <= DefaultTtl("files")
    requires Cacheable("files", first.args) && Storable(files(fs, first.args).1)
    requires Stepped(files, maxEntries, first, fs, [], fs1, entries1, out1)
    requires Stepped(files, maxEntries, act, fs1, entries1, fs2, entries2, out2)
    requires Stepped(files, maxEntries, second, fs2, entries2, fs3, entries3, out3)
    ensures out1 == files(fs, first.args).1 && (Promised(act) ==> out2 == Direct(files, fs, act).1)
    ensures out3 == out1 || out3 == files(Direct(files, fs, act).0, first.args).1
    ensures var (after, answer) := Direct(files, fs, act);
            out3 == files(after, first.args).1 <==>
            Invalidates(act, answer) || files(after, first.args).1 == files(fs, first.args).1
  {
    FreshStepIsDirect(files, maxEntries, first, fs, [], fs1, entries1, out1);
    StaysFreshIff(files, maxEntries, first, fs, [], fs1, entries1, out1);
    FreshStepIsDirect(files, maxEntries, act, fs1, entries1, fs2, entries2, out2);
    if Cacheable(act.name, act.args) {
      StaysFreshIff(files, maxEntries, act, fs1, entries1, fs2, entries2, out2);
      FreshStepIsDirect(files, maxEntries, second, fs2, entries2, fs3, entries3, out3);
    } else {
      SecondRead(files, maxEntries, first, act, second, fs, entries1, fs2, entries2, fs3, entries3, out1, out2, out3);
    }
  }

  /**
   A read, any call of any tool, and the same read again within its time to live: the second read gets what the tool
   would answer exactly when the call in between drops the stored answers or leaves this one as it was.
   */
  method ReadActRead<Fs(!new)>(files: FilesTool<Fs>, fs: Fs, maxEntries: nat, first: Call<Fs>, act: Call<Fs>,
                               second: Call<Fs>)
    returns (out1: Outcome, out2: Outcome, out3: Outcome)
    requires WellBehaved(files) && maxEntries > 0 && first.name == second.name == "files" && Sound(act)
    requires Proper(first.args) && second.args == first.args && second.now - first.now <= DefaultTtl("files")
    requires Cacheable("files", first.args) && Storable(files(fs, first.args).1)
    ensures out1 == files(fs, first.args).1 && (Promised(act) ==> out2 == Direct(files, fs, act).1)
    ensures out3 == out1 || out3 == files(Direct(files, fs, act).0, first.args).1
    ensures var (after, answer) := Direct(files, fs, act);
            out3 == files(after, first.args).1 <==>
            Invalidates(act, answer) || files(after, first.args).1 == files(fs, first.args).1
  {
    var loop := new Loop(files, fs, maxEntries);
    out1 := loop.RunTool(first);
    ghost var entries1, fs1 := loop.cache.entries, loop.fs;
    out2 := loop.RunTool(act);
    ghost var entries2, fs2 := loop.cache.entries, loop.fs;
    out3 := loop.RunTool(second);
    SecondReadIff(files, maxEntries, first, act, second, fs, fs1, entries1, fs2, entries2, loop.fs, loop.cache.entries,
                  out1, out2, out3);
  }

  /** After a successful write or delete a read gets the tool's current answer, whatever was stored before. */
  method ReadWriteRead<Fs(!new)>(files: FilesTool<Fs>, fs: Fs, maxEntries: nat, first: Call<Fs>, write: Call<Fs>,
                                 second: Call<Fs>)
    returns (out1: Outcome, out2: Outcome, out3: Outcome)
    requires WellBehaved(files) && maxEntries > 0 && first.name == write.name == second.name == "files"
    requires Proper(first.args) && second.args == first.args && second.now - first.now <= 30000
    requires Cacheable("files", first.args) && Storable(files(fs, first.args).1)
    requires Proper(write.args) && WritesOrDeletes(write.args)
    requires files(fs, write.args).1.present && !files(fs, write.args).1.error
    ensures out1 == files(fs, first.args).1 && out2 == files(fs, write.args).1
    ensures out3 == files(files(fs, write.args).0, first.args).1
  {
    WritingMutates(write.args);
    out1, out2, out3 := ReadActRead(files, fs, maxEntries, first, write, second);
  }

  ghost predicate TidyHistory<Fs(!new)>(files: FilesTool<Fs>, fs: Fs, calls: seq<Call<Fs>>) {
    forall i | 0 <= i < |calls| :: Tidy(files, Uncached(files, fs, calls[..i]).0, calls[i])
  }

  /** When files change only by successful `files` calls with action write or delete, the cache cannot be noticed. */
  method RunTidy<Fs(!new)>(files: FilesTool<Fs>, fs: Fs, maxEntries: nat, calls: seq<Call<Fs>>)
    returns (after: Fs, outs: seq<Outcome>)
    requires WellBehaved(files) && (forall c | c in calls :: Sound(c)) && TidyHistory(files, fs, calls)
    ensures (after, outs) == Uncached(files, fs, calls)
  {
    forall i | 0 <= i < |calls|
      ensures Harmless(files, Uncached(files, fs, calls[..i]).0, calls[i])
    {
      assert calls[i] in calls;
      TidyIsHarmless(files, Uncached(files, fs, calls[..i]).0, calls[i]);
    }
    var loop := new Loop(files, fs, maxEntries);
    outs := loop.RunAll(calls);
    after := loop.fs;
  }
}
