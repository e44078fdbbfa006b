/** No job is claimed before its time, so two refreshes of a schedule are at least its interval apart. */
module RefreshInterval {
  import opened Options
  import opened Tables
  import opened Protocol
  import opened RefreshSchedule
  import Database

  /** RESULT: whatever a claim returns was queued or to be retried, its run_at had come, and no lease on it still
      ran. */
  lemma ClaimedWereDue(cfg: Config, s: Sys, step: Step)
    requires step.Claim? && Next(cfg, s, step).Some?
    ensures Database.Claims(s.db.jobs, step.now, 100, step.ids)
    ensures forall id :: id in step.ids ==> id in s.db.jobs && s.db.jobs[id].runAt <= step.now
  {
    Database.ClaimsIff(s.db, step.now, 100, step.ids);
  }

  // ----- one claimed refresh for each key -----

  predicate SameKey(a: Claimed, b: Claimed) {
    a.jobType == REFRESH && b.jobType == REFRESH && a.jobKey == b.jobKey
  }

  ghost predicate OneClaimed(todo: seq<Claimed>) {
    forall i, j :: 0 <= i < j < |todo| ==> !SameKey(todo[i], todo[j])
  }

  lemma ClaimTakesOne(cfg: Config, s: Sys, step: Step)
    requires One(s) && step.Claim? && Next(cfg, s, step).Some?
    ensures OneClaimed(Next(cfg, s, step).value.phase.Todo())
  {
    ClaimedWereDue(cfg, s, step);
    var todo := Next(cfg, s, step).value.phase.todo;
    forall i, j | 0 <= i < j < |todo| ensures !SameKey(todo[i], todo[j]) {
      if SameKey(todo[i], todo[j]) {
        assert Rivals(s.db.jobs[step.ids[i]], s.db.jobs[step.ids[j]]);
      }
    }
  }

  lemma TodoShrinks(cfg: Config, s: Sys, step: Step)
    requires !step.Claim? && Next(cfg, s, step).Some? && OneClaimed(s.phase.Todo())
    ensures OneClaimed(Next(cfg, s, step).value.phase.Todo())
  {
    var p := Next(cfg, s, step).value.phase;
    assert p.Todo() == s.phase.Todo() || p.Todo() == [] || (s.phase.Todo() != [] && p.Todo() == s.phase.Todo()[1..]);
  }

  lemma {:induction false} OneClaimedEach(cfg: Config, s: Sys, steps: seq<Step>)
    requires One(s) && OneClaimed(s.phase.Todo()) && Undisturbed(cfg, s, steps)
    ensures Run(cfg, s, steps).Some? && OneClaimed(Run(cfg, s, steps).value.phase.Todo())
    decreases |steps|
  {
    if steps != [] {
      var t := Next(cfg, s, steps[0]).value;
      OneKeeps(cfg, s, steps[0]);
      if steps[0].Claim? {
        ClaimTakesOne(cfg, s, steps[0]);
      } else {
        TodoShrinks(cfg, s, steps[0]);
      }
      OneClaimedEach(cfg, t, steps[1..]);
    }
  }

  // ----- waiting out the interval -----

  /** The worker is about to enqueue a refresh of the key at this instant, or has done so. */
  predicate OnItsWay(p: Phase, key: string, at: Instant) {
    p.Refilling? && p.key == key ==> p.runAt == at
  }

  /** The worker holds no refresh of the key, except one it is done with, whose row is gone. */
  ghost predicate HandsFreeOf(s: Sys, key: string) {
    forall i :: 0 <= i < |s.phase.Todo()| && s.phase.Todo()[i].jobType == REFRESH && s.phase.Todo()[i].jobKey == key ==>
      i == 0 && (s.phase.Refilling? || s.phase.Settling?) && s.phase.Todo()[i].id !in s.db.jobs
  }

  /** Nothing of the key can be claimed before the instant. */
  ghost predicate Waits(s: Sys, key: string, at: Instant) {
    && Inv(s) && OnItsWay(s.phase, key, at) && HandsFreeOf(s, key)
    && (forall id :: id in s.db.jobs && PendingRefresh(s.db.jobs[id], key) ==> s.db.jobs[id].runAt >= at)
  }

  /** A claim that takes a refresh of the key. */
  ghost predicate Takes(s: Sys, step: Step, key: string) {
    step.Claim? && exists id :: id in step.ids && id in s.db.jobs && PendingRefresh(s.db.jobs[id], key)
  }

  predicate Asks(step: Step, key: string) {
    Request(step) && step.key == key
  }

  /** No request for the key and no claim of it on the way. */
  ghost predicate LeftAlone(cfg: Config, s: Sys, steps: seq<Step>, key: string)
    decreases |steps|
  {
    steps == [] ||
    (!Asks(steps[0], key) && !Takes(s, steps[0], key) &&
     var t := Next(cfg, s, steps[0]);
     t.Some? && LeftAlone(cfg, t.value, steps[1..], key))
  }

  lemma {:induction false} WaitsOn(cfg: Config, s: Sys, steps: seq<Step>, key: string, at: Instant)
    requires Waits(s, key, at) && LeftAlone(cfg, s, steps, key)
    ensures Run(cfg, s, steps).Some? && Waits(Run(cfg, s, steps).value, key, at)
    decreases |steps|
  {
    if steps != [] {
      WaitsStep(cfg, s, steps[0], key, at);
      WaitsOn(cfg, Next(cfg, s, steps[0]).value, steps[1..], key, at);
    }
  }

  /** What a step that neither asks for the key nor takes it does to the key's pending rows. */
  lemma RowsWait(cfg: Config, s: Sys, step: Step, key: string, at: Instant)
    requires Waits(s, key, at) && !Asks(step, key) && !Takes(s, step, key) && Next(cfg, s, step).Some?
    ensures
      var b := Next(cfg, s, step).value.db;
      forall id :: id in b.jobs && PendingRefresh(b.jobs[id], key) ==> b.jobs[id].runAt >= at
  {
  }

  /** And to what the worker holds of the key. */
  lemma HandsWait(cfg: Config, s: Sys, step: Step, key: string, at: Instant)
    requires Waits(s, key, at) && !Asks(step, key) && !Takes(s, step, key) && Next(cfg, s, step).Some?
    requires Inv(Next(cfg, s, step).value)
    ensures HandsFreeOf(Next(cfg, s, step).value, key) && OnItsWay(Next(cfg, s, step).value.phase, key, at)
  {
    if step.Claim? {
      ClaimSkips(cfg, s, step, key);
    } else if ApiStep(step) {
      ApiHandsWait(cfg, s, step, key);
    } else {
      WorkerHandsWait(cfg, s, step, key, at);
    }
  }

  lemma ApiHandsWait(cfg: Config, s: Sys, step: Step, key: string)
    requires Inv(s) && HandsFreeOf(s, key) && ApiStep(step) && Next(cfg, s, step).Some?
    ensures HandsFreeOf(Next(cfg, s, step).value, key) && Next(cfg, s, step).value.phase == s.phase
  {
    var t := Next(cfg, s, step).value;
    PlainPhase(cfg, s, step);
    ApiShrinks(cfg, s, step);
    forall i | 0 <= i < |s.phase.Todo()| && s.phase.Todo()[i].id !in s.db.jobs
      ensures s.phase.Todo()[i].id !in t.db.jobs
    {
      assert ClaimOk(s.db, s.phase.Todo()[i]);
    }
  }

  lemma ApiShrinks(cfg: Config, s: Sys, step: Step)
    requires Inv(s) && ApiStep(step) && Next(cfg, s, step).Some?
    ensures Shrinks(s.db, Next(cfg, s, step).value.db)
  {
    if Request(step) {
      RequestKeeps(cfg, s, step);
    } else {
      PlainApiKeeps(cfg, s, step);
    }
  }

  lemma WorkerHandsWait(cfg: Config, s: Sys, step: Step, key: string, at: Instant)
    requires Waits(s, key, at) && !ApiStep(step) && !step.Claim? && Next(cfg, s, step).Some?
    requires Inv(Next(cfg, s, step).value)
    ensures HandsFreeOf(Next(cfg, s, step).value, key) && OnItsWay(Next(cfg, s, step).value.phase, key, at)
  {
  }

  lemma ClaimSkips(cfg: Config, s: Sys, step: Step, key: string)
    requires Inv(s) && step.Claim? && !Takes(s, step, key) && Next(cfg, s, step).Some?
    ensures HandsFreeOf(Next(cfg, s, step).value, key)
  {
    ClaimedWereDue(cfg, s, step);
  }

  lemma WaitsStep(cfg: Config, s: Sys, step: Step, key: string, at: Instant)
    requires Waits(s, key, at) && !Asks(step, key) && !Takes(s, step, key) && Next(cfg, s, step).Some?
    ensures Waits(Next(cfg, s, step).value, key, at)
  {
    StepKeeps(cfg, s, step);
    RowsWait(cfg, s, step, key, at);
    HandsWait(cfg, s, step, key, at);
  }

  predicate AllApi(steps: seq<Step>) {
    forall step :: step in steps ==> ApiStep(step)
  }

  lemma {:induction false} ApiLeavesWorker(cfg: Config, s: Sys, steps: seq<Step>)
    requires Run(cfg, s, steps).Some? && AllApi(steps)
    ensures Run(cfg, s, steps).value.phase == s.phase
    decreases |steps|
  {
    if steps != [] {
      assert steps[0] in steps;
      PlainPhase(cfg, s, steps[0]);
      ApiLeavesWorker(cfg, Next(cfg, s, steps[0]).value, steps[1..]);
    }
  }

  /** A refresh that ended with an interval is about to replace its key's pending rows. */
  lemma IngestReplaces(cfg: Config, s: Sys, key: string, n: int, result: IngestResult, clock: Instant)
    requires Inv(s) && s.phase.Batch? && s.phase.todo != [] && result.ok
    requires Carrier(s.phase.todo[0], key) && Interval(s.phase.todo[0].payload) == Whole(n)
    ensures
      var p := Next(cfg, s, Ingest(result, clock)).value.phase;
      p.Replacing? && p.todo == s.phase.todo && p.key == key && p.intervalS == n && p.runAt == clock + n
  {
    HeadOk(s);
  }

  lemma ClearStarts(cfg: Config, s: Sys)
    requires Inv(s) && s.phase.Replacing? && OneClaimed(s.phase.todo)
    ensures Waits(Next(cfg, s, Clear(true)).value, s.phase.key, s.phase.runAt)
  {
    var p, t := s.phase, Next(cfg, s, Clear(true)).value;
    StepKeeps(cfg, s, Clear(true));
    DropKeeps(s.db, p.key);
    HeadOk(s);
    forall i | 0 <= i < |p.todo| && p.todo[i].jobType == REFRESH && p.todo[i].jobKey == p.key
      ensures i == 0 && p.todo[i].id !in t.db.jobs
    {
      assert i > 0 ==> !SameKey(p.todo[0], p.todo[i]);
      HeadGone(s, t);
    }
  }

  /** The worker's delete takes the row of the refresh it is processing. */
  lemma HeadGone(s: Sys, t: Sys)
    requires Inv(s) && s.phase.Replacing? && t.db == Tables.DeletePendingJobs(s.db, REFRESH, s.phase.key)
    ensures s.phase.todo[0].id !in t.db.jobs
  {
    HeadOk(s);
    var c := s.phase.todo[0];
    if c.id in s.db.jobs {
      assert PendingRefresh(s.db.jobs[c.id], s.phase.key);
    }
  }

  /**
   RESULT: a refresh of a key with interval n that ended at clock and cleared its key is followed by the next claim of
   the key no earlier than clock + n, unless another refresh of it was requested: so two refreshes of a schedule are at
   least its interval apart, whatever crashes, errors and API calls come in between.
   */
  lemma RefreshesApart(cfg: Config, steps: seq<Step>, key: string, n: int, result: IngestResult, clock: Instant,
        idle: seq<Step>, more: seq<Step>, claim: Step)
    requires Undisturbed(cfg, START, steps) && Run(cfg, START, steps).Some?
    requires
      var p := Run(cfg, START, steps).value.phase;
      p.Batch? && p.todo != [] && Carrier(p.todo[0], key) && Interval(p.todo[0].payload) == Whole(n)
    requires result.ok && AllApi(idle)
    requires Run(cfg, Next(cfg, Run(cfg, START, steps).value, Ingest(result, clock)).value, idle).Some?
    requires
      var s := Run(cfg, Next(cfg, Run(cfg, START, steps).value, Ingest(result, clock)).value, idle).value;
      && Next(cfg, s, Clear(true)).Some? && LeftAlone(cfg, Next(cfg, s, Clear(true)).value, more, key)
      && Run(cfg, Next(cfg, s, Clear(true)).value, more).Some?
      && var u := Run(cfg, Next(cfg, s, Clear(true)).value, more).value;
      Next(cfg, u, claim).Some? && Takes(u, claim, key)
    ensures claim.now >= clock + n
  {
    var s := Run(cfg, START, steps).value;
    UndisturbedKeeps(cfg, START, steps);
    OneClaimedEach(cfg, START, steps);
    var s1 := Next(cfg, s, Ingest(result, clock)).value;
    StepKeeps(cfg, s, Ingest(result, clock));
    IngestReplaces(cfg, s, key, n, result, clock);
    RunKeeps(cfg, s1, idle);
    ApiLeavesWorker(cfg, s1, idle);
    var s2 := Run(cfg, s1, idle).value;
    ClearStarts(cfg, s2);
    WaitsOn(cfg, Next(cfg, s2, Clear(true)).value, more, key, clock + n);
    ClaimedWereDue(cfg, Run(cfg, Next(cfg, s2, Clear(true)).value, more).value, claim);
  }
}
