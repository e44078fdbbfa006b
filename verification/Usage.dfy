/** Usage metering: request handlers offer events to a bounded queue, one thread batches them into the database. */
module Usage {
  datatype Event = Event(ts: string, apiKeyId: string, customerId: string, route: string, statusCode: int,
      requestId: string)

  /** batch_size, flush_interval_s, and the queue's maxsize (none below one). */
  datatype Config = Config(batchSize: int, flushInterval: real, queueMax: int)

  datatype State = State(queue: seq<Event>, batch: seq<Event>, rows: seq<Event>, flushed: int, dropped: int,
      lastFlush: real)

  /** One pass of the loop: what handlers offered since the last pass, the clock at the check, whether the
      insert (if any) succeeds, and the clock after it. */
  datatype Tick = Tick(offered: seq<Event>, now: real, insertOk: bool, flushedAt: real)

  /** A batch that left the loop, inserted or lost. */
  datatype Batch = Batch(events: seq<Event>, inserted: bool)

  predicate Full(c: Config, queue: seq<Event>) {
    c.queueMax >= 1 && |queue| >= c.queueMax
  }

  /** put_nowait */
  function Offered(c: Config, s: State, e: Event): State {
    if Full(c, s.queue) then s.(dropped := s.dropped + 1) else s.(queue := s.queue + [e])
  }

  function AllOffered(c: Config, s: State, events: seq<Event>): State
    decreases |events|
  {
    if events == [] then s else AllOffered(c, Offered(c, s, events[0]), events[1..])
  }

  /** q.get with a timeout: the head of the queue, if there is one. */
  function Taken(s: State): State {
    if s.queue == [] then s else s.(queue := s.queue[1..], batch := s.batch + [s.queue[0]])
  }

  predicate Due(c: Config, s: State, now: real) {
    |s.batch| >= c.batchSize || (s.batch != [] && now - s.lastFlush >= c.flushInterval)
  }

  function Flushed(s: State, ok: bool, at: real): State {
    if s.batch == [] then s
    else if ok then s.(rows := s.rows + s.batch, flushed := s.flushed + |s.batch|, batch := [], lastFlush := at)
    else s.(batch := [], lastFlush := at)
  }

  function Passed(c: Config, s: State, t: Tick): State {
    var ready := Taken(AllOffered(c, s, t.offered));
    if Due(c, ready, t.now) then Flushed(ready, t.insertOk, t.flushedAt) else ready
  }

  function Ran(c: Config, s: State, ticks: seq<Tick>): State
    decreases |ticks|
  {
    if ticks == [] then s else Ran(c, Passed(c, s, ticks[0]), ticks[1..])
  }

  /** One pass from state s, the offers made: the head of the queue joins the batch, which leaves exactly when it has
      batch_size events or, not being empty, the last flush is a flush interval ago. */
  predicate PassIs(c: Config, s: State, after: State, t: Tick) {
    var batch := s.batch + (if s.queue != [] then [s.queue[0]] else []);
    && after.queue == (if s.queue != [] then s.queue[1..] else []) && after.dropped == s.dropped
    && if batch != [] && (|batch| >= c.batchSize || t.now >= s.lastFlush + c.flushInterval)
       then after.batch == [] && after.lastFlush == t.flushedAt
            && after.rows == s.rows + (if t.insertOk then batch else [])
            && after.flushed == s.flushed + (if t.insertOk then |batch| else 0)
       else after.batch == batch && after.lastFlush == s.lastFlush && after.rows == s.rows && after.flushed == s.flushed
  }

  lemma PassedIs(c: Config, s: State, t: Tick)
    ensures PassIs(c, AllOffered(c, s, t.offered), Passed(c, s, t), t)
  {
  }

  class UsageFlusher {
    const config: Config
    var queue: seq<Event>
    var batch: seq<Event>
    var rows: seq<Event>
    var flushed: int
    var dropped: int
    var lastFlush: real

    constructor (config: Config, now: real)
      ensures this.config == config && View() == State([], [], [], 0, 0, now)
    {
      this.config := config;
      queue, batch, rows, flushed, dropped, lastFlush := [], [], [], 0, 0, now;
    }

    function View(): State
      reads this
    {
      State(queue, batch, rows, flushed, dropped, lastFlush)
    }

    method PutNowait(e: Event)
      modifies this
      ensures View() == Offered(config, old(View()), e)
      ensures
        if config.queueMax >= 1 && |old(queue)| >= config.queueMax
        then queue == old(queue) && dropped == old(dropped) + 1
        else queue == old(queue) + [e] && dropped == old(dropped)
      ensures batch == old(batch) && rows == old(rows) && flushed == old(flushed) && lastFlush == old(lastFlush)
    {
      if Full(config, queue) {
        dropped := dropped + 1;
      } else {
        queue := queue + [e];
      }
    }

    method HandleRequests(events: seq<Event>)
      modifies this
      ensures View() == AllOffered(config, old(View()), events)
    {
      var k := 0;
      while k < |events|
        invariant 0 <= k <= |events|
        invariant AllOffered(config, View(), events[k..]) == AllOffered(config, old(View()), events)
      {
        assert events[k..][0] == events[k] && events[k..][1..] == events[k + 1..];
        PutNowait(events[k]);
        k := k + 1;
      }
    }

    method Flush(insertOk: bool, at: real)
      modifies this
      ensures View() == Flushed(old(View()), insertOk, at)
      ensures batch == [] && queue == old(queue) && dropped == old(dropped)
      ensures rows == old(rows) + (if insertOk then old(batch) else [])
      ensures flushed == old(flushed) + (if insertOk then |old(batch)| else 0)
      ensures lastFlush == if old(batch) == [] then old(lastFlush) else at
    {
      if batch == [] {
        return;
      }
      if insertOk {
        rows := rows + batch;
        flushed := flushed + |batch|;
      }
      batch := [];
      lastFlush := at;
    }

    method LoopBody(t: Tick)
      modifies this
      ensures View() == Passed(config, old(View()), t)
      ensures PassIs(config, AllOffered(config, old(View()), t.offered), View(), t)
    {
      HandleRequests(t.offered);
      if queue != [] {
        batch := batch + [queue[0]];
        queue := queue[1..];
      }
      if |batch| >= config.batchSize || (batch != [] && t.now - lastFlush >= config.flushInterval) {
        Flush(t.insertOk, t.flushedAt);
      }
      PassedIs(config, old(View()), t);
    }

    /** usage_flusher_loop until the stop event, with the flush that follows it. */
    method UsageFlusherLoop(ticks: seq<Tick>, insertOk: bool, at: real)
      modifies this
      ensures View() == Flushed(Ran(config, old(View()), ticks), insertOk, at)
    {
      var k := 0;
      while k < |ticks|
        invariant 0 <= k <= |ticks|
        invariant Ran(config, View(), ticks[k..]) == Ran(config, old(View()), ticks)
      {
        assert ticks[k..][0] == ticks[k] && ticks[k..][1..] == ticks[k + 1..];
        LoopBody(ticks[k]);
        k := k + 1;
      }
      Flush(insertOk, at);
    }
  }

  function Flatten(batches: seq<Batch>): seq<Event> {
    if batches == [] then [] else Flatten(batches[..|batches| - 1]) + batches[|batches| - 1].events
  }

  function Inserted(batches: seq<Batch>): seq<Event> {
    if batches == [] then []
    else
      var last := batches[|batches| - 1];
      Inserted(batches[..|batches| - 1]) + if last.inserted then last.events else []
  }

  function LostCount(batches: seq<Batch>): nat {
    if batches == [] then 0
    else
      var last := batches[|batches| - 1];
      LostCount(batches[..|batches| - 1]) + if last.inserted then 0 else |last.events|
  }

  /** The past of a state: what was accepted, in order, what was refused, and the batches that left. */
  datatype Past = Past(accepted: seq<Event>, refused: nat, batches: seq<Batch>)

  function PastOffered(c: Config, s: State, p: Past, events: seq<Event>): Past
    decreases |events|
  {
    if events == [] then p
    else if Full(c, s.queue) then PastOffered(c, Offered(c, s, events[0]), p.(refused := p.refused + 1), events[1..])
    else PastOffered(c, Offered(c, s, events[0]), p.(accepted := p.accepted + [events[0]]), events[1..])
  }

  function PastFlushed(s: State, p: Past, ok: bool): Past {
    if s.batch == [] then p else p.(batches := p.batches + [Batch(s.batch, ok)])
  }

  function PastPassed(c: Config, s: State, p: Past, t: Tick): Past {
    var ready, q := Taken(AllOffered(c, s, t.offered)), PastOffered(c, s, p, t.offered);
    if Due(c, ready, t.now) then PastFlushed(ready, q, t.insertOk) else q
  }

  function PastRan(c: Config, s: State, p: Past, ticks: seq<Tick>): Past
    decreases |ticks|
  {
    if ticks == [] then p else PastRan(c, Passed(c, s, ticks[0]), PastPassed(c, s, p, ticks[0]), ticks[1..])
  }

  function OfferCount(ticks: seq<Tick>): nat {
    if ticks == [] then 0 else |ticks[0].offered| + OfferCount(ticks[1..])
  }

  /** Every accepted event is in exactly one place, in order. */
  predicate Accounts(s: State, p: Past) {
    && p.accepted == Flatten(p.batches) + s.batch + s.queue
    && s.rows == Inserted(p.batches) && s.flushed == |s.rows| && s.dropped == p.refused
  }

  /** What the loop keeps between passes. */
  predicate Bounded(c: Config, s: State) {
    && (c.batchSize >= 1 ==> |s.batch| < c.batchSize)
    && (c.queueMax >= 1 ==> |s.queue| <= c.queueMax)
  }

  lemma {:induction false} OffersAccounted(c: Config, s: State, p: Past, events: seq<Event>)
    requires Accounts(s, p) && Bounded(c, s)
    ensures
      var s', p' := AllOffered(c, s, events), PastOffered(c, s, p, events);
      && Accounts(s', p') && Bounded(c, s') && s'.batch == s.batch
      && |p'.accepted| + p'.refused == |p.accepted| + p.refused + |events|
      && p'.batches == p.batches
    decreases |events|
  {
    if events != [] {
      var e := events[0];
      var q := if Full(c, s.queue) then p.(refused := p.refused + 1) else p.(accepted := p.accepted + [e]);
      assert Accounts(Offered(c, s, e), q);
      OffersAccounted(c, Offered(c, s, e), q, events[1..]);
    }
  }

  lemma TakeAccounted(s: State, p: Past)
    requires Accounts(s, p)
    ensures Accounts(Taken(s), p)
  {
    if s.queue != [] {
      assert s.queue == [s.queue[0]] + s.queue[1..];
    }
  }

  lemma FlushAccounted(s: State, p: Past, ok: bool, at: real)
    requires Accounts(s, p)
    ensures Accounts(Flushed(s, ok, at), PastFlushed(s, p, ok))
  {
    var b := Batch(s.batch, ok);
    assert (p.batches + [b])[..|p.batches|] == p.batches;
  }

  lemma PassAccounted(c: Config, s: State, p: Past, t: Tick)
    requires Accounts(s, p) && Bounded(c, s)
    ensures
      var s', p' := Passed(c, s, t), PastPassed(c, s, p, t);
      && Accounts(s', p') && Bounded(c, s')
      && |p'.accepted| + p'.refused == |p.accepted| + p.refused + |t.offered|
  {
    OffersAccounted(c, s, p, t.offered);
    var s1, p1 := AllOffered(c, s, t.offered), PastOffered(c, s, p, t.offered);
    TakeAccounted(s1, p1);
    FlushAccounted(Taken(s1), p1, t.insertOk, t.flushedAt);
  }

  lemma {:induction false} RunAccounted(c: Config, s: State, p: Past, ticks: seq<Tick>)
    requires Accounts(s, p) && Bounded(c, s)
    ensures
      var s', p' := Ran(c, s, ticks), PastRan(c, s, p, ticks);
      && Accounts(s', p') && Bounded(c, s')
      && |p'.accepted| + p'.refused == |p.accepted| + p.refused + OfferCount(ticks)
    decreases |ticks|
  {
    if ticks != [] {
      PassAccounted(c, s, p, ticks[0]);
      RunAccounted(c, Passed(c, s, ticks[0]), PastPassed(c, s, p, ticks[0]), ticks[1..]);
    }
  }

  lemma {:induction false} FlattenSizes(batches: seq<Batch>)
    ensures |Flatten(batches)| == |Inserted(batches)| + LostCount(batches)
  {
    if batches != [] {
      FlattenSizes(batches[..|batches| - 1]);
    }
  }

  lemma {:induction false} AllInserted(batches: seq<Batch>)
    ensures LostCount(batches) == 0 ==> Inserted(batches) == Flatten(batches)
  {
    if batches != [] {
      AllInserted(batches[..|batches| - 1]);
    }
  }

  const NO_PAST := Past([], 0, [])

  function Start(now: real): State {
    State([], [], [], 0, 0, now)
  }

  /** RESULT: in every run each offered event is inserted, lost in a failed flush, dropped at a full queue, queued or in
      the batch; flushed counts the rows, and with no failed insert the rows are a prefix of the accepted events. */
  lemma Conservation(c: Config, now: real, ticks: seq<Tick>)
    requires c.batchSize >= 1
    ensures
      var s, p := Ran(c, Start(now), ticks), PastRan(c, Start(now), NO_PAST, ticks);
      && OfferCount(ticks) == |s.rows| + LostCount(p.batches) + s.dropped + |s.queue| + |s.batch|
      && s.flushed == |s.rows| && s.rows == Inserted(p.batches)
      && p.accepted == Flatten(p.batches) + s.batch + s.queue
      && |s.batch| < c.batchSize && (c.queueMax >= 1 ==> |s.queue| <= c.queueMax)
      && (LostCount(p.batches) == 0 ==> s.rows <= p.accepted)
  {
    RunAccounted(c, Start(now), NO_PAST, ticks);
    var p := PastRan(c, Start(now), NO_PAST, ticks);
    FlattenSizes(p.batches);
    AllInserted(p.batches);
  }

  /** a can be got from b by leaving elements out. */
  predicate Subsequence(a: seq<Event>, b: seq<Event>) {
    a == [] ||
    (b != [] &&
     ((a[|a| - 1] == b[|b| - 1] && Subsequence(a[..|a| - 1], b[..|b| - 1])) || Subsequence(a, b[..|b| - 1])))
  }

  lemma {:induction false} SubsequenceAppend(a: seq<Event>, b: seq<Event>, x: seq<Event>, keep: bool)
    requires Subsequence(a, b)
    ensures Subsequence(if keep then a + x else a, b + x)
    decreases |x|
  {
    if x == [] {
      assert a + x == a && b + x == b;
    } else {
      var n := |x| - 1;
      SubsequenceAppend(a, b, x[..n], keep);
      assert (b + x)[..|b + x| - 1] == b + x[..n];
      assert (a + x)[..|a + x| - 1] == a + x[..n];
    }
  }

  /** RESULT: whatever inserts fail, the rows keep the order in which events were accepted. */
  lemma {:induction false} RowsKeepOrder(batches: seq<Batch>)
    ensures Subsequence(Inserted(batches), Flatten(batches))
  {
    if batches != [] {
      var n := |batches| - 1;
      RowsKeepOrder(batches[..n]);
      SubsequenceAppend(Inserted(batches[..n]), Flatten(batches[..n]), batches[n].events, batches[n].inserted);
      assert Inserted(batches[..n]) + [] == Inserted(batches[..n]);
    }
  }

  // ----- how long an accepted event waits -----

  /** Events that have left the loop, and events taken from the queue. */
  function Gone(p: Past): nat {
    |Flatten(p.batches)|
  }

  function TakenCount(s: State, p: Past): nat {
    Gone(p) + |s.batch|
  }

  /** What one pass does for the event with arrival number k. */
  lemma PassProgress(c: Config, s: State, p: Past, t: Tick, k: nat)
    requires Accounts(s, p) && Bounded(c, s) && k < |p.accepted|
    ensures
      var s', p' := Passed(c, s, t), PastPassed(c, s, p, t);
      && k < |p'.accepted| && Gone(p') >= Gone(p)
      && TakenCount(s', p') >= (if k >= TakenCount(s, p) then TakenCount(s, p) + 1 else TakenCount(s, p))
      && (s'.lastFlush == s.lastFlush || (s'.lastFlush == t.flushedAt && s'.batch == []))
      && (s'.batch != [] ==> t.now - s'.lastFlush < c.flushInterval)
  {
    OffersAccounted(c, s, p, t.offered);
    OfferedKeepsBatch(c, s, t.offered);
    OffersAppend(c, s, p, t.offered);
    var s1, p1 := AllOffered(c, s, t.offered), PastOffered(c, s, p, t.offered);
    TakeAccounted(s1, p1);
    var ready := Taken(s1);
    FlushAccounted(ready, p1, t.insertOk, t.flushedAt);
    FlushEmpties(ready, p1, t.insertOk, t.flushedAt);
  }

  lemma FlushEmpties(s: State, p: Past, ok: bool, at: real)
    ensures Gone(PastFlushed(s, p, ok)) == TakenCount(s, p) && Flushed(s, ok, at).batch == []
  {
    assert (p.batches + [Batch(s.batch, ok)])[..|p.batches|] == p.batches;
  }

  lemma {:induction false} OfferedKeepsBatch(c: Config, s: State, events: seq<Event>)
    decreases |events|
    ensures var s' := AllOffered(c, s, events); s'.batch == s.batch && s'.lastFlush == s.lastFlush
  {
    if events != [] {
      OfferedKeepsBatch(c, Offered(c, s, events[0]), events[1..]);
    }
  }

  lemma {:induction false} OffersAppend(c: Config, s: State, p: Past, events: seq<Event>)
    decreases |events|
    ensures |PastOffered(c, s, p, events).accepted| >= |p.accepted|
  {
    if events != [] {
      var q := if Full(c, s.queue) then p.(refused := p.refused + 1) else p.(accepted := p.accepted + [events[0]]);
      OffersAppend(c, Offered(c, s, events[0]), q, events[1..]);
    }
  }

  /** The clock goes forward through the passes. */
  predicate Forward(last: real, ticks: seq<Tick>)
    decreases |ticks|
  {
    ticks == [] || (last <= ticks[0].now <= ticks[0].flushedAt && Forward(ticks[0].flushedAt, ticks[1..]))
  }

  function Clock(last: real, ticks: seq<Tick>): real {
    if ticks == [] then last else ticks[|ticks| - 1].flushedAt
  }

  lemma {:induction false} ForwardClock(last: real, ticks: seq<Tick>)
    requires Forward(last, ticks)
    ensures last <= Clock(last, ticks)
    decreases |ticks|
  {
    if ticks != [] {
      ForwardClock(ticks[0].flushedAt, ticks[1..]);
      assert |ticks| > 1 ==> ticks[1..][|ticks| - 2] == ticks[|ticks| - 1];
    }
  }

  /** After as many passes as there are events ahead in the queue, and one, the event has been taken. */
  lemma {:induction false} EventTaken(c: Config, s: State, p: Past, ticks: seq<Tick>, k: nat, last: real)
    requires Accounts(s, p) && Bounded(c, s) && k < |p.accepted|
    requires |ticks| > k - TakenCount(s, p) && s.lastFlush <= last && Forward(last, ticks)
    ensures
      var s', p' := Ran(c, s, ticks), PastRan(c, s, p, ticks);
      k < TakenCount(s', p') && k < |p'.accepted| && s'.lastFlush <= Clock(last, ticks)
    decreases |ticks|
  {
    if ticks != [] {
      var t := ticks[0];
      PassProgress(c, s, p, t, k);
      PassAccounted(c, s, p, t);
      EventTaken(c, Passed(c, s, t), PastPassed(c, s, p, t), ticks[1..], k, t.flushedAt);
      assert |ticks| > 1 ==> ticks[1..][|ticks| - 2] == ticks[|ticks| - 1];
    }
  }

  /** Once taken, it leaves at the first pass that looks at the clock an interval later. */
  lemma {:induction false} EventLeaves(c: Config, s: State, p: Past, ticks: seq<Tick>, k: nat, since: real)
    requires Accounts(s, p) && Bounded(c, s) && k < TakenCount(s, p) && k < |p.accepted|
    requires k < Gone(p) || s.lastFlush <= since
    requires ticks != [] && ticks[|ticks| - 1].now >= since + c.flushInterval
    ensures k < Gone(PastRan(c, s, p, ticks))
    decreases |ticks|
  {
    var t := ticks[0];
    var s', p' := Passed(c, s, t), PastPassed(c, s, p, t);
    PassProgress(c, s, p, t, k);
    PassAccounted(c, s, p, t);
    if |ticks| == 1 {
      assert ticks[1..] == [];
    } else {
      assert ticks[1..][|ticks| - 2] == ticks[|ticks| - 1];
      EventLeaves(c, s', p', ticks[1..], k, since);
    }
  }

  lemma {:induction false} RanAppend(c: Config, s: State, p: Past, a: seq<Tick>, b: seq<Tick>)
    ensures Ran(c, s, a + b) == Ran(c, Ran(c, s, a), b)
    ensures PastRan(c, s, p, a + b) == PastRan(c, Ran(c, s, a), PastRan(c, s, p, a), b)
    decreases |a|
  {
    if a == [] {
      assert a + b == b;
    } else {
      assert (a + b)[1..] == a[1..] + b;
      RanAppend(c, Passed(c, s, a[0]), PastPassed(c, s, p, a[0]), a[1..], b);
    }
  }

  /**
   RESULT: an accepted event waits a bounded time. With i events ahead of it in the queue, at most queue_max - 1 of
   them, it is taken by pass i + 1, and it has left the loop by the first later pass that reads the clock a flush
   interval after the end of that pass.
  */
  lemma WaitBound(c: Config, now: real, before: seq<Tick>, ahead: seq<Tick>, later: seq<Tick>, k: nat)
    requires
      var s, p := Ran(c, Start(now), before), PastRan(c, Start(now), NO_PAST, before);
      && c.batchSize >= 1 && k < |p.accepted| && |ahead| > k - TakenCount(s, p)
    requires Forward(now, before) && Forward(Clock(now, before), ahead)
    requires later != [] && later[|later| - 1].now >= Clock(Clock(now, before), ahead) + c.flushInterval
    ensures k < Gone(PastRan(c, Start(now), NO_PAST, before + (ahead + later)))
    ensures
      var s, p := Ran(c, Start(now), before), PastRan(c, Start(now), NO_PAST, before);
      k - TakenCount(s, p) < |s.queue| && (c.queueMax >= 1 ==> |s.queue| <= c.queueMax)
  {
    var s0 := Start(now);
    RunAccounted(c, s0, NO_PAST, before);
    FlushedBy(c, s0, NO_PAST, before, now);
    var s, p := Ran(c, s0, before), PastRan(c, s0, NO_PAST, before);
    EventTaken(c, s, p, ahead, k, Clock(now, before));
    RunAccounted(c, s, p, ahead);
    var s', p' := Ran(c, s, ahead), PastRan(c, s, p, ahead);
    EventLeaves(c, s', p', later, k, Clock(Clock(now, before), ahead));
    RanAppend(c, s0, NO_PAST, before, ahead + later);
    RanAppend(c, s, p, ahead, later);
  }

  lemma {:induction false} FlushedBy(c: Config, s: State, p: Past, ticks: seq<Tick>, last: real)
    requires s.lastFlush <= last && Forward(last, ticks)
    ensures Ran(c, s, ticks).lastFlush <= Clock(last, ticks)
    decreases |ticks|
  {
    if ticks != [] {
      OfferedKeepsBatch(c, s, ticks[0].offered);
      FlushedBy(c, Passed(c, s, ticks[0]), p, ticks[1..], ticks[0].flushedAt);
      assert |ticks| > 1 ==> ticks[1..][|ticks| - 2] == ticks[|ticks| - 1];
    }
  }
}
