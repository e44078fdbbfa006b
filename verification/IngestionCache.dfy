/** The ingest-artifact cache: one refresh per customer at a time, under one non-reentrant lock. */
module IngestionCache {
  import opened Options

  datatype Entry = Entry(artifact: string, storedAt: real)

  /** What the lock protects; inflight holds the customers that have a condition variable. */
  datatype Shared = Shared(entries: map<string, Entry>, inflight: set<string>, refreshing: set<string>)

  function Fresh(ttl: real, entries: map<string, Entry>, key: string, now: real): Option<string> {
    if key !in entries || now - entries[key].storedAt > ttl then None else Some(entries[key].artifact)
  }

  function Stored(s: Shared, key: string, artifact: string, now: real): Shared {
    s.(entries := s.entries[key := Entry(artifact, now)])
  }

  function Joined(s: Shared, key: string): Shared {
    s.(inflight := s.inflight + {key}, refreshing := s.refreshing + {key})
  }

  function Left(s: Shared, key: string): Shared {
    s.(refreshing := s.refreshing - {key})
  }

  /** The cache object, one method for each region the lock makes atomic. */
  class Cache {
    const ttl: real
    var entries: map<string, Entry>
    var inflight: set<string>
    var refreshing: set<string>

    constructor (ttl: real)
      ensures this.ttl == ttl && View() == Shared(map[], {}, {})
    {
      this.ttl, entries, inflight, refreshing := ttl, map[], {}, {};
    }

    function View(): Shared
      reads this
    {
      Shared(entries, inflight, refreshing)
    }

    method Get(key: string, now: real) returns (r: Option<string>)
      ensures r == Fresh(ttl, entries, key, now)
      ensures r == if key in entries && now <= entries[key].storedAt + ttl then Some(entries[key].artifact) else None
    {
      if key !in entries {
        return None;
      }
      var entry := entries[key];
      if now - entry.storedAt > ttl {
        return None;
      }
      r := Some(entry.artifact);
    }

    method Put(key: string, artifact: string, now: real)
      modifies this
      ensures View() == Stored(old(View()), key, artifact, now)
      ensures entries == old(entries)[key := Entry(artifact, now)]
      ensures inflight == old(inflight) && refreshing == old(refreshing)
    {
      entries := entries[key := Entry(artifact, now)];
    }

    /** Becomes the refresher, or reports that a refresh is in flight. */
    method Join(key: string) returns (joined: bool)
      modifies this
      ensures joined <==> key !in old(refreshing)
      ensures View() == if joined then Joined(old(View()), key) else old(View()).(inflight := old(inflight) + {key})
      ensures refreshing == old(refreshing) + {key} && entries == old(entries)
    {
      if key !in inflight {
        inflight := inflight + {key};
      }
      assert inflight == old(inflight) + {key};
      if key in refreshing {
        return false;
      }
      refreshing := refreshing + {key};
      joined := true;
    }

    method Leave(key: string)
      modifies this
      ensures View() == Left(old(View()), key)
      ensures refreshing == old(refreshing) - {key} && entries == old(entries) && inflight == old(inflight)
    {
      refreshing := refreshing - {key};
    }

    /** get_or_refresh on one thread, no refresh of the key being in flight; refreshed is what refresh_func does. */
    method GetOrRefresh(key: string, now: real, refreshed: Result<string, string>, later: real)
      returns (r: Result<string, string>)
      requires key !in refreshing
      modifies this
      ensures refreshing == old(refreshing)
      ensures
        if key in old(entries) && now <= old(entries)[key].storedAt + ttl
        then r == Ok(old(entries)[key].artifact) && View() == old(View())
        else
          && r == refreshed
          && entries == if refreshed.Ok? then old(entries)[key := Entry(refreshed.value, later)] else old(entries)
    {
      var cached := Get(key, now);
      if cached.Some? {
        return Ok(cached.value);
      }
      var joined := Join(key);
      if refreshed.Ok? {
        Put(key, refreshed.value, later);
      }
      Leave(key);
      r := refreshed;
    }
  }

  /** Where a call of get_or_refresh stands. */
  datatype Phase =
    | Looking        // before the first self.get
    | Joining        // before taking the lock for the singleflight block
    | Waiting        // in cond.wait
    | Rereading      // in self.get with the lock already held
    | Refreshing     // running refresh_func
    | Storing(artifact: string)
    | Leaving        // before the finally block

  datatype Thread = Thread(key: string, phase: Phase)

  /** Calls in progress by number, next being the number of the next one. The lock is free between atomic regions; a
      call that blocks inside one keeps it. */
  datatype System = System(shared: Shared, holder: Option<int>, threads: map<int, Thread>, next: int)

  datatype Step =
    | Call(key: string)
    | Look(t: int, now: real)
    | TryJoin(t: int)
    | Wake(t: int)
    | RefreshReturns(t: int, artifact: string)
    | RefreshRaises(t: int)
    | Store(t: int, now: real)
    | Finish(t: int)
    | PutFromOutside(key: string, artifact: string, now: real)

  const START := System(Shared(map[], {}, {}), None, map[], 0)

  predicate At(s: System, t: int, phase: Phase) {
    t in s.threads && s.threads[t].phase == phase
  }

  predicate Enabled(s: System, step: Step) {
    match step
    case Call(_) => true
    case Look(t, _) => s.holder.None? && At(s, t, Looking)
    case TryJoin(t) => s.holder.None? && At(s, t, Joining)
    case Wake(t) => s.holder.None? && At(s, t, Waiting)
    case RefreshReturns(t, _) => At(s, t, Refreshing)
    case RefreshRaises(t) => At(s, t, Refreshing)
    case Store(t, _) => s.holder.None? && t in s.threads && s.threads[t].phase.Storing?
    case Finish(t) => s.holder.None? && At(s, t, Leaving)
    case PutFromOutside(_, _, _) => s.holder.None?
  }

  function Moved(s: System, t: int, phase: Phase): System
    requires t in s.threads
  {
    s.(threads := s.threads[t := Thread(s.threads[t].key, phase)])
  }

  function Gone(s: System, t: int): System {
    s.(threads := s.threads - {t})
  }

  /** One step of one thread. A waiter that wakes after the refresh re-enters self.get while it holds the lock. */
  function Next(ttl: real, s: System, step: Step): System
    requires Enabled(s, step)
  {
    match step
    case Call(key) => s.(threads := s.threads[s.next := Thread(key, Looking)], next := s.next + 1)
    case Look(t, now) =>
      if Fresh(ttl, s.shared.entries, s.threads[t].key, now).Some? then Gone(s, t) else Moved(s, t, Joining)
    case TryJoin(t) =>
      var key := s.threads[t].key;
      if key in s.shared.refreshing
      then Moved(s, t, Waiting).(shared := s.shared.(inflight := s.shared.inflight + {key}))
      else Moved(s, t, Refreshing).(shared := Joined(s.shared, key))
    case Wake(t) =>
      if s.threads[t].key in s.shared.refreshing then s else Moved(s, t, Rereading).(holder := Some(t))
    case RefreshReturns(t, artifact) => Moved(s, t, Storing(artifact))
    case RefreshRaises(t) => Moved(s, t, Leaving)
    case Store(t, now) =>
      Moved(s, t, Leaving).(shared := Stored(s.shared, s.threads[t].key, s.threads[t].phase.artifact, now))
    case Finish(t) => Gone(s, t).(shared := Left(s.shared, s.threads[t].key))
    case PutFromOutside(key, artifact, now) => s.(shared := Stored(s.shared, key, artifact, now))
  }

  /** Between joining and leaving the refresh section. */
  predicate InSection(s: System, t: int) {
    t in s.threads && (s.threads[t].phase.Refreshing? || s.threads[t].phase.Storing? || s.threads[t].phase.Leaving?)
  }

  ghost predicate Singleflight(s: System) {
    && (forall t :: t in s.threads ==> t < s.next)
    && (forall t :: InSection(s, t) ==> s.threads[t].key in s.shared.refreshing)
    && (forall k :: k in s.shared.refreshing ==> exists t :: InSection(s, t) && s.threads[t].key == k)
    && (forall t, u :: InSection(s, t) && InSection(s, u) && s.threads[t].key == s.threads[u].key ==> t == u)
  }

  ghost predicate Run(ttl: real, s: System, steps: seq<Step>, end: System)
    decreases |steps|
  {
    if steps == [] then end == s
    else Enabled(s, steps[0]) && Run(ttl, Next(ttl, s, steps[0]), steps[1..], end)
  }

  // ----- what is served -----

  /** The entry a step stores for the key, if it does. */
  function StoredBy(s: System, step: Step, key: string): Option<Entry> {
    match step
    case PutFromOutside(k, artifact, now) => if k == key then Some(Entry(artifact, now)) else None
    case Store(t, now) =>
      if t in s.threads && s.threads[t].key == key && s.threads[t].phase.Storing?
      then Some(Entry(s.threads[t].phase.artifact, now)) else None
    case _ => None
  }

  /** The entry stored last for the key along the steps, so far being the one before them. */
  ghost function LastStored(ttl: real, s: System, steps: seq<Step>, key: string, soFar: Option<Entry>): Option<Entry>
    decreases |steps|
  {
    if steps == [] || !Enabled(s, steps[0]) then soFar
    else
      var e := StoredBy(s, steps[0], key);
      LastStored(ttl, Next(ttl, s, steps[0]), steps[1..], key, if e.Some? then e else soFar)
  }

  function EntryOf(s: System, key: string): Option<Entry> {
    if key in s.shared.entries then Some(s.shared.entries[key]) else None
  }

  lemma {:induction false} EntryIsLastStored(ttl: real, s: System, steps: seq<Step>, end: System, key: string)
    requires Run(ttl, s, steps, end)
    ensures EntryOf(end, key) == LastStored(ttl, s, steps, key, EntryOf(s, key))
    decreases |steps|
  {
    if steps != [] {
      EntryIsLastStored(ttl, Next(ttl, s, steps[0]), steps[1..], end, key);
    }
  }

  /** RESULT: in every run, a call's first look ends it exactly when the artifact stored last for its key was stored no
      longer than ttl ago. */
  lemma LookServesIff(ttl: real, steps: seq<Step>, s: System, t: int, now: real)
    requires Run(ttl, START, steps, s) && Enabled(s, Look(t, now))
    ensures
      var last := LastStored(ttl, START, steps, s.threads[t].key, None);
      t !in Next(ttl, s, Look(t, now)).threads <==> last.Some? && now <= last.value.storedAt + ttl
  {
    EntryIsLastStored(ttl, START, steps, s, s.threads[t].key);
  }

  /** The section is entered and left by nobody. */
  ghost predicate SameSection(s: System, s': System) {
    && s'.shared.refreshing == s.shared.refreshing
    && forall t :: InSection(s', t) <==> InSection(s, t) && t in s'.threads && s'.threads[t].key == s.threads[t].key
  }

  lemma SameSectionKeeps(s: System, s': System)
    requires Singleflight(s) && SameSection(s, s')
    requires forall t :: InSection(s, t) ==> InSection(s', t)
    requires forall t :: t in s'.threads ==> t < s'.next
    ensures Singleflight(s')
  {
    forall k | k in s'.shared.refreshing ensures exists t :: InSection(s', t) && s'.threads[t].key == k {
      var t :| InSection(s, t) && s.threads[t].key == k;
      assert InSection(s', t);
    }
  }

  lemma JoinKeeps(ttl: real, s: System, t: int)
    requires Singleflight(s) && Enabled(s, TryJoin(t)) && s.threads[t].key !in s.shared.refreshing
    ensures Singleflight(Next(ttl, s, TryJoin(t)))
  {
    var s' := Next(ttl, s, TryJoin(t));
    forall k | k in s'.shared.refreshing ensures exists u :: InSection(s', u) && s'.threads[u].key == k {
      if k == s.threads[t].key {
        assert InSection(s', t);
      } else {
        var u :| InSection(s, u) && s.threads[u].key == k;
        assert InSection(s', u);
      }
    }
  }

  lemma FinishKeeps(ttl: real, s: System, t: int)
    requires Singleflight(s) && Enabled(s, Finish(t))
    ensures Singleflight(Next(ttl, s, Finish(t)))
  {
    var s' := Next(ttl, s, Finish(t));
    assert InSection(s, t);
    forall k | k in s'.shared.refreshing ensures exists u :: InSection(s', u) && s'.threads[u].key == k {
      var u :| InSection(s, u) && s.threads[u].key == k;
      assert InSection(s', u);
    }
  }

  lemma StepKeepsSingleflight(ttl: real, s: System, step: Step)
    requires Singleflight(s) && Enabled(s, step)
    ensures Singleflight(Next(ttl, s, step))
  {
    if step.TryJoin? && s.threads[step.t].key !in s.shared.refreshing {
      JoinKeeps(ttl, s, step.t);
    } else if step.Finish? {
      FinishKeeps(ttl, s, step.t);
    } else {
      SameSectionKeeps(s, Next(ttl, s, step));
    }
  }

  /** RESULT: in every interleaving a key is marked refreshing exactly while one thread is in its refresh section,
      whether refresh_func returns or raises, so no two refreshes of one key overlap. */
  lemma {:induction false} SingleflightOverRuns(ttl: real, s: System, steps: seq<Step>, end: System)
    requires Singleflight(s) && Run(ttl, s, steps, end)
    ensures Singleflight(end)
    decreases |steps|
  {
    if steps != [] {
      StepKeepsSingleflight(ttl, s, steps[0]);
      SingleflightOverRuns(ttl, Next(ttl, s, steps[0]), steps[1..], end);
    }
  }

  lemma StartIsSingleflight()
    ensures Singleflight(START)
  {
  }

  /** A call blocked inside a region keeps the lock, and nothing the lock protects changes again. */
  lemma {:induction false} KeptForever(ttl: real, s: System, steps: seq<Step>, end: System)
    requires s.holder.Some? && Run(ttl, s, steps, end)
    ensures end.holder == s.holder && end.shared == s.shared
    decreases |steps|
  {
    if steps != [] {
      KeptForever(ttl, Next(ttl, s, steps[0]), steps[1..], end);
    }
  }

  /** Call u may end up blocked for good in self.get, holding the lock it needs. */
  ghost predicate MayBlock(ttl: real, s: System, u: int) {
    exists steps, end :: Run(ttl, s, steps, end) && end.holder == Some(u)
  }

  /** Call u is over or in its refresh section: it will not wait. */
  predicate PastWaiting(s: System, u: int) {
    s.holder != Some(u) && u < s.next && (u in s.threads ==> InSection(s, u))
  }

  lemma {:induction false} NeverBlocks(ttl: real, s: System, u: int, steps: seq<Step>, end: System)
    requires PastWaiting(s, u) && Run(ttl, s, steps, end)
    ensures end.holder != Some(u)
    decreases |steps|
  {
    if steps != [] {
      NeverBlocks(ttl, Next(ttl, s, steps[0]), u, steps[1..], end);
    }
  }

  lemma RunStep(ttl: real, s: System, step: Step, rest: seq<Step>, end: System)
    requires Enabled(s, step) && Run(ttl, Next(ttl, s, step), rest, end)
    ensures Run(ttl, s, [step] + rest, end)
  {
    assert ([step] + rest)[1..] == rest;
  }

  lemma BlockEarlier(ttl: real, s: System, step: Step, u: int)
    requires Enabled(s, step) && MayBlock(ttl, Next(ttl, s, step), u)
    ensures MayBlock(ttl, s, u)
  {
    var steps, end :| Run(ttl, Next(ttl, s, step), steps, end) && end.holder == Some(u);
    RunStep(ttl, s, step, steps, end);
  }

  predicate WaitsFor(s: System, u: int, t: int) {
    s.holder.None? && At(s, u, Waiting) && InSection(s, t) && s.threads[t].key == s.threads[u].key
  }

  /** The refresher leaves and the waiter wakes. */
  lemma LeaverBlocks(ttl: real, s: System, u: int, t: int)
    requires WaitsFor(s, u, t) && At(s, t, Leaving)
    ensures MayBlock(ttl, s, u)
  {
    var s1 := Next(ttl, s, Finish(t));
    var s2 := Next(ttl, s1, Wake(u));
    assert Run(ttl, s2, [], s2);
    RunStep(ttl, s1, Wake(u), [], s2);
    assert MayBlock(ttl, s1, u);
    BlockEarlier(ttl, s, Finish(t), u);
  }

  /** Whenever a call waits for another's refresh, whatever stage that has reached, it may block. */
  lemma WaiterBlocks(ttl: real, s: System, u: int, t: int)
    requires WaitsFor(s, u, t)
    ensures MayBlock(ttl, s, u)
  {
    if s.threads[t].phase.Refreshing? {
      LeaverBlocks(ttl, Next(ttl, s, RefreshRaises(t)), u, t);
      BlockEarlier(ttl, s, RefreshRaises(t), u);
    } else if s.threads[t].phase.Storing? {
      LeaverBlocks(ttl, Next(ttl, s, Store(t, 0.0)), u, t);
      BlockEarlier(ttl, s, Store(t, 0.0), u);
    } else {
      LeaverBlocks(ttl, s, u, t);
    }
  }

  /** RESULT: at the join, and at no later point, it is decided whether a call may block the cache for good: exactly
      when the key is being refreshed as it joins. It then calls self.get holding the non-reentrant lock. */
  lemma JoinBlocksIff(ttl: real, steps: seq<Step>, s: System, u: int)
    requires Run(ttl, START, steps, s) && Enabled(s, TryJoin(u))
    ensures MayBlock(ttl, Next(ttl, s, TryJoin(u)), u) <==> s.threads[u].key in s.shared.refreshing
  {
    StartIsSingleflight();
    SingleflightOverRuns(ttl, START, steps, s);
    var s' := Next(ttl, s, TryJoin(u));
    var key := s.threads[u].key;
    if key in s.shared.refreshing {
      var t :| InSection(s, t) && s.threads[t].key == key;
      assert InSection(s', t);
      WaiterBlocks(ttl, s', u, t);
    } else {
      forall more, end | Run(ttl, s', more, end) ensures end.holder != Some(u) {
        NeverBlocks(ttl, s', u, more, end);
      }
    }
  }

  /** RESULT: such a join is reached with two calls of one key. */
  lemma BlockReachable(ttl: real, key: string) returns (steps: seq<Step>, s: System)
    ensures Run(ttl, START, steps, s) && Enabled(s, TryJoin(1)) && s.threads[1].key == key
    ensures MayBlock(ttl, Next(ttl, s, TryJoin(1)), 1)
  {
    var s1 := Next(ttl, START, Call(key));
    var s2 := Next(ttl, s1, Call(key));
    var s3 := Next(ttl, s2, Look(0, 0.0));
    var s4 := Next(ttl, s3, Look(1, 0.0));
    s := Next(ttl, s4, TryJoin(0));
    assert s == System(Shared(map[], {key}, {key}), None,
        map[0 := Thread(key, Refreshing), 1 := Thread(key, Joining)], 2);
    assert Run(ttl, s, [], s);
    RunStep(ttl, s4, TryJoin(0), [], s);
    RunStep(ttl, s3, Look(1, 0.0), [TryJoin(0)] + [], s);
    RunStep(ttl, s2, Look(0, 0.0), [Look(1, 0.0)] + ([TryJoin(0)] + []), s);
    RunStep(ttl, s1, Call(key), [Look(0, 0.0)] + ([Look(1, 0.0)] + ([TryJoin(0)] + [])), s);
    RunStep(ttl, START, Call(key), [Call(key)] + ([Look(0, 0.0)] + ([Look(1, 0.0)] + ([TryJoin(0)] + []))), s);
    steps := [Call(key)] + ([Call(key)] + ([Look(0, 0.0)] + ([Look(1, 0.0)] + ([TryJoin(0)] + []))));
    JoinBlocksIff(ttl, steps, s, 1);
  }

  /** Every join of the run finds its key not being refreshed. */
  ghost predicate NoContention(ttl: real, s: System, steps: seq<Step>)
    decreases |steps|
  {
    steps == [] ||
    (Enabled(s, steps[0]) && (steps[0].TryJoin? ==> s.threads[steps[0].t].key !in s.shared.refreshing)
     && NoContention(ttl, Next(ttl, s, steps[0]), steps[1..]))
  }

  ghost predicate NobodyWaits(s: System) {
    s.holder.None? && forall t :: t in s.threads ==> !s.threads[t].phase.Waiting? && !s.threads[t].phase.Rereading?
  }

  /** RESULT: without such joins nothing ever waits and the lock is never lost. */
  lemma {:induction false} NoContentionNoLoss(ttl: real, s: System, steps: seq<Step>, end: System)
    requires NobodyWaits(s) && NoContention(ttl, s, steps) && Run(ttl, s, steps, end)
    ensures NobodyWaits(end)
    decreases |steps|
  {
    if steps != [] {
      NoContentionNoLoss(ttl, Next(ttl, s, steps[0]), steps[1..], end);
    }
  }
}
