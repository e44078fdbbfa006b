/**
 Scheduled refreshes over whole runs of one worker: when a key has at most one pending refresh, when a schedule
 survives, and when a stop holds. The worker's delete and its enqueue are two transactions; the pair of an API handler
 is one.
 */
module RefreshSchedule {
  import opened Options
  import opened Tables
  import opened Webhooks
  import opened Protocol
  import W = Worker

  predicate PendingRefresh(j: Job, key: string) {
    Matches(j, REFRESH, key)
  }

  // ----- what every run keeps -----

  /** API and worker enqueue refreshes only with a nonempty key repeated in the payload. */
  predicate WellFormed(jobType: string, jobKey: string, payload: Payload) {
    jobType == REFRESH ==> jobKey != "" && payload.Object? && payload.key == Some(jobKey)
  }

  ghost predicate JobsOk(db: Db) {
    forall id :: id in db.jobs ==>
      && id < db.nextJob
      && (db.jobs[id].jobType == REFRESH ==> db.jobs[id].jobKey.Some?)
      && WellFormed(db.jobs[id].jobType, db.jobs[id].jobKey.GetOr(""), db.jobs[id].payload)
  }

  /** A claimed job is still pending in the table as it was claimed, or it was deleted. */
  ghost predicate ClaimOk(db: Db, c: Claimed) {
    && c.id < db.nextJob
    && WellFormed(c.jobType, c.jobKey, c.payload)
    && (c.id in db.jobs ==> db.jobs[c.id].Pending() && ClaimedRow(db, c.id) == c)
  }

  function Interval(p: Payload): Number {
    if p.Object? then p.intervalS else Missing
  }

  predicate PhaseOk(p: Phase) {
    match p
    case Idle => true
    case Batch(_, _) => true
    case Replacing(_, todo, key, intervalS, _) =>
      todo != [] && IsRefresh(todo[0]) && key == todo[0].jobKey && Interval(todo[0].payload) == Whole(intervalS)
    case Refilling(_, todo, key, intervalS, _) =>
      todo != [] && IsRefresh(todo[0]) && key == todo[0].jobKey && Interval(todo[0].payload) == Whole(intervalS)
    case Settling(_, todo, mark) => todo != [] && (IsRefresh(todo[0]) ==> !mark.MarkFailed?)
    case _ => p.todo != [] && !IsRefresh(p.todo[0])
  }

  ghost predicate ClaimsOk(db: Db, todo: seq<Claimed>) {
    && (forall i :: 0 <= i < |todo| ==> ClaimOk(db, todo[i]))
    && (forall i, j :: 0 <= i < j < |todo| ==> todo[i].id != todo[j].id)
  }

  ghost predicate Inv(s: Sys) {
    JobsOk(s.db) && PhaseOk(s.phase) && ClaimsOk(s.db, s.phase.Todo())
  }

  /** Rows may vanish or stay pending with the same identity; new ids are fresh. */
  ghost predicate Shrinks(a: Db, b: Db) {
    && a.nextJob <= b.nextJob
    && (forall id :: id in b.jobs && id < a.nextJob ==>
          id in a.jobs && ClaimedRow(b, id) == ClaimedRow(a, id) && b.jobs[id].jobKey == a.jobs[id].jobKey &&
          (b.jobs[id].Pending() <==> a.jobs[id].Pending()))
  }

  lemma ClaimsSurvive(a: Db, b: Db, todo: seq<Claimed>)
    requires Shrinks(a, b) && ClaimsOk(a, todo)
    ensures ClaimsOk(b, todo)
  {
  }

  /** What deleting a key's pending refreshes does. */
  lemma DropKeeps(db: Db, key: string)
    requires JobsOk(db)
    ensures
      var b := Tables.DeletePendingJobs(db, REFRESH, key);
      && JobsOk(b) && Shrinks(db, b) && NonePending(b, key)
      && (forall id :: id in db.jobs && !PendingRefresh(db.jobs[id], key) ==> id in b.jobs && b.jobs[id] == db.jobs[id])
  {
  }

  /** What enqueueing a refresh does. */
  lemma AddKeeps(db: Db, key: string, payload: Payload, runAt: Instant, now: Instant)
    requires JobsOk(db) && key != "" && payload.Object? && payload.key == Some(key)
    ensures
      var b := Tables.EnqueueJob(db, REFRESH, Some(key), payload, runAt, now);
      && JobsOk(b) && Shrinks(db, b)
      && db.nextJob in b.jobs && PendingRefresh(b.jobs[db.nextJob], key) && b.jobs[db.nextJob].payload == payload
      && (forall id :: id in db.jobs ==> id in b.jobs && b.jobs[id] == db.jobs[id])
      && (forall id :: id in b.jobs ==> id == db.nextJob || id in db.jobs)
  {
  }

  predicate Request(step: Step) {
    step.RefreshNow? || step.Schedule?
  }

  /** The payload a request enqueues. */
  function Requested(step: Step): Payload
    requires Request(step)
  {
    match step
    case RefreshNow(key, retrievalTs, _) => RefreshPayload(key, retrievalTs, Missing)
    case Schedule(key, intervalS, _) => RefreshPayload(key, None, Whole(intervalS))
  }

  /** A request replaces the key's pending refreshes by its own. */
  lemma RequestKeeps(cfg: Config, s: Sys, step: Step)
    requires JobsOk(s.db) && Request(step) && Next(cfg, s, step).Some?
    ensures
      var b := Next(cfg, s, step).value.db;
      && JobsOk(b) && Shrinks(s.db, b)
      && s.db.nextJob in b.jobs && PendingRefresh(b.jobs[s.db.nextJob], step.key)
      && b.jobs[s.db.nextJob].payload == Requested(step)
      && (forall id :: id in s.db.jobs && !PendingRefresh(s.db.jobs[id], step.key) ==>
            id in b.jobs && b.jobs[id] == s.db.jobs[id])
      && (forall id :: id in b.jobs && PendingRefresh(b.jobs[id], step.key) ==> id == s.db.nextJob)
      && (forall id :: id in b.jobs ==> id == s.db.nextJob || (id in s.db.jobs && b.jobs[id] == s.db.jobs[id]))
  {
    DropKeeps(s.db, step.key);
    AddKeeps(Tables.DeletePendingJobs(s.db, REFRESH, step.key), step.key, Requested(step), step.now, step.now);
  }

  predicate ApiStep(step: Step) {
    step.Subscribe? || step.Unsubscribe? || step.InsertDelivery? || step.DropDeliveryJobs? || step.QueueDeliveryJob? ||
    Request(step) || step.Unschedule? || step.CollectJobs? || step.Release?
  }

  /** API steps that enqueue no refresh. */
  lemma PlainApiKeeps(cfg: Config, s: Sys, step: Step)
    requires JobsOk(s.db) && ApiStep(step) && !Request(step) && Next(cfg, s, step).Some?
    ensures
      var b := Next(cfg, s, step).value.db;
      && JobsOk(b) && Shrinks(s.db, b)
      && (forall id, key :: id in b.jobs && PendingRefresh(b.jobs[id], key) ==>
            id in s.db.jobs && PendingRefresh(s.db.jobs[id], key) && b.jobs[id].payload == s.db.jobs[id].payload)
  {
  }

  lemma ApiKeeps(cfg: Config, s: Sys, step: Step)
    requires Inv(s) && ApiStep(step) && Next(cfg, s, step).Some?
    ensures Inv(Next(cfg, s, step).value)
  {
    if Request(step) {
      RequestKeeps(cfg, s, step);
    } else {
      PlainApiKeeps(cfg, s, step);
    }
    ClaimsSurvive(s.db, Next(cfg, s, step).value.db, s.phase.Todo());
  }

  predicate JobStep(step: Step) {
    step.Claim? || step.SettleJob? || step.Clear? || step.Refill?
  }

  /** Worker steps that leave the jobs table alone. */
  lemma QuietWorkerKeeps(cfg: Config, s: Sys, step: Step)
    requires Inv(s) && !ApiStep(step) && !JobStep(step) && Next(cfg, s, step).Some?
    ensures Inv(Next(cfg, s, step).value)
    ensures Next(cfg, s, step).value.db.jobs == s.db.jobs && Next(cfg, s, step).value.db.nextJob == s.db.nextJob
  {
    var t := Next(cfg, s, step).value;
    assert t.db.jobs == s.db.jobs && t.db.nextJob == s.db.nextJob;
    assert t.phase.Todo() == s.phase.Todo() || t.phase.Todo() == [];
    assert PhaseOk(t.phase);
    ClaimsSurvive(s.db, t.db, s.phase.Todo());
  }

  /** The job in the worker's hands. */
  lemma HeadOk(s: Sys)
    requires Inv(s) && s.phase.Todo() != []
    ensures ClaimOk(s.db, s.phase.todo[0]) && s.phase.todo[0] in s.phase.Todo()
  {
    assert s.phase.Todo()[0] == s.phase.todo[0];
  }

  lemma ReplaceKeeps(cfg: Config, s: Sys, step: Step)
    requires Inv(s) && (step.Clear? || step.Refill?) && Next(cfg, s, step).Some?
    ensures Inv(Next(cfg, s, step).value)
  {
    var p, t := s.phase, Next(cfg, s, step).value;
    HeadOk(s);
    if step.Clear? {
      DropKeeps(s.db, p.key);
    } else {
      AddKeeps(s.db, p.key, RefreshPayload(p.key, None, Whole(p.intervalS)), p.runAt, p.now);
    }
    ClaimsSurvive(s.db, t.db, p.todo);
  }

  lemma ClaimKeeps(cfg: Config, s: Sys, step: Step)
    requires Inv(s) && step.Claim? && Next(cfg, s, step).Some?
    ensures Inv(Next(cfg, s, step).value)
  {
    var t := Next(cfg, s, step).value;
    forall i | 0 <= i < |step.ids|
      ensures ClaimOk(t.db, t.phase.todo[i])
    {
      assert s.db.jobs[step.ids[i]].Claimable(step.now);
    }
  }

  lemma SettleJobKeeps(cfg: Config, s: Sys)
    requires Inv(s) && s.phase.Settling?
    ensures Inv(Next(cfg, s, SettleJob).value)
  {
    var p, t := s.phase, Next(cfg, s, SettleJob).value;
    HeadOk(s);
    forall i | 0 <= i < |p.todo| - 1
      ensures ClaimOk(t.db, t.phase.todo[i]) && t.phase.todo[i] == p.todo[i + 1]
    {
      assert p.Todo()[i + 1] == p.todo[i + 1];
    }
  }

  lemma StepKeeps(cfg: Config, s: Sys, step: Step)
    requires Inv(s) && Next(cfg, s, step).Some?
    ensures Inv(Next(cfg, s, step).value)
  {
    if ApiStep(step) {
      ApiKeeps(cfg, s, step);
    } else if step.Claim? {
      ClaimKeeps(cfg, s, step);
    } else if step.SettleJob? {
      SettleJobKeeps(cfg, s);
    } else if step.Clear? || step.Refill? {
      ReplaceKeeps(cfg, s, step);
    } else {
      QuietWorkerKeeps(cfg, s, step);
    }
  }

  lemma {:induction false} RunKeeps(cfg: Config, s: Sys, steps: seq<Step>)
    requires Inv(s) && Run(cfg, s, steps).Some?
    ensures Inv(Run(cfg, s, steps).value)
    decreases |steps|
  {
    if steps != [] {
      StepKeeps(cfg, s, steps[0]);
      RunKeeps(cfg, Next(cfg, s, steps[0]).value, steps[1..]);
    }
  }

  /** Pending refreshes after a worker step: those there were, and the one a refill adds. */
  lemma WorkerPending(cfg: Config, s: Sys, step: Step)
    requires Inv(s) && !ApiStep(step) && Next(cfg, s, step).Some?
    ensures
      var b := Next(cfg, s, step).value.db;
      forall id, key :: id in b.jobs && PendingRefresh(b.jobs[id], key) ==>
        || (id in s.db.jobs && PendingRefresh(s.db.jobs[id], key) && b.jobs[id].payload == s.db.jobs[id].payload)
        || (step.Refill? && id == s.db.nextJob && key == s.phase.key
            && Interval(b.jobs[id].payload) == Whole(s.phase.intervalS))
  {
    if step.SettleJob? {
      HeadOk(s);
    } else if !JobStep(step) {
      QuietWorkerKeeps(cfg, s, step);
    }
  }

  // ----- at most one pending refresh -----

  ghost predicate NonePending(db: Db, key: string) {
    forall id :: id in db.jobs ==> !PendingRefresh(db.jobs[id], key)
  }

  predicate Rivals(a: Job, b: Job) {
    a.jobType == REFRESH && b.jobType == REFRESH && a.jobKey == b.jobKey && a.Pending() && b.Pending()
  }

  /** No key has two refresh jobs queued or waiting to retry. */
  ghost predicate OnePending(db: Db) {
    forall i, j :: i in db.jobs && j in db.jobs && Rivals(db.jobs[i], db.jobs[j]) ==> i == j
  }

  /** The worker has deleted the key's pending refreshes and not yet enqueued its own. */
  predicate InGap(p: Phase, key: string) {
    p.Refilling? && p.key == key
  }

  ghost predicate One(s: Sys) {
    Inv(s) && OnePending(s.db) && (s.phase.Refilling? ==> NonePending(s.db, s.phase.key))
  }

  /** A request for the key in the gap, or an error in the worker's delete. */
  predicate Doubles(s: Sys, step: Step) {
    (Request(step) && InGap(s.phase, step.key)) || step == Clear(false)
  }

  ghost predicate Undisturbed(cfg: Config, s: Sys, steps: seq<Step>)
    decreases |steps|
  {
    steps == [] ||
    (!Doubles(s, steps[0]) &&
     var t := Next(cfg, s, steps[0]);
     t.Some? && Undisturbed(cfg, t.value, steps[1..]))
  }

  /** Every pending refresh there is now was there before. */
  ghost predicate OnlyOld(a: Db, b: Db) {
    forall id :: id in b.jobs && b.jobs[id].jobType == REFRESH && b.jobs[id].Pending() ==>
      id in a.jobs && a.jobs[id].jobType == REFRESH && a.jobs[id].Pending() && a.jobs[id].jobKey == b.jobs[id].jobKey
  }

  lemma OnlyOldKeeps(a: Db, b: Db)
    requires OnePending(a) && OnlyOld(a, b)
    ensures OnePending(b) && forall key :: NonePending(a, key) ==> NonePending(b, key)
  {
    forall i, j | i in b.jobs && j in b.jobs && Rivals(b.jobs[i], b.jobs[j]) ensures i == j {
      assert Rivals(a.jobs[i], a.jobs[j]);
    }
  }

  lemma OldOnly(cfg: Config, s: Sys, step: Step)
    requires Inv(s) && !Request(step) && !step.Refill? && Next(cfg, s, step).Some?
    ensures OnlyOld(s.db, Next(cfg, s, step).value.db)
  {
    StepKeeps(cfg, s, step);
    var b := Next(cfg, s, step).value.db;
    forall id | id in b.jobs && b.jobs[id].jobType == REFRESH && b.jobs[id].Pending()
      ensures id in s.db.jobs && s.db.jobs[id].jobType == REFRESH && s.db.jobs[id].Pending()
      ensures s.db.jobs[id].jobKey == b.jobs[id].jobKey
    {
      assert PendingRefresh(b.jobs[id], b.jobs[id].jobKey.value);
      if ApiStep(step) {
        PlainApiKeeps(cfg, s, step);
      } else {
        WorkerPending(cfg, s, step);
      }
    }
  }

  /** A new pending refresh of a key that had none, the others being old. */
  lemma FirstPending(a: Db, b: Db, key: string)
    requires OnePending(a) && JobsOk(b)
    requires forall id :: id in b.jobs ==> id == a.nextJob || (id in a.jobs && b.jobs[id] == a.jobs[id])
    requires forall id :: id in b.jobs && PendingRefresh(b.jobs[id], key) ==> id == a.nextJob
    requires a.nextJob in b.jobs && PendingRefresh(b.jobs[a.nextJob], key)
    ensures OnePending(b)
  {
    forall i, j | i in b.jobs && j in b.jobs && Rivals(b.jobs[i], b.jobs[j]) ensures i == j {
      if i != a.nextJob && j != a.nextJob {
        assert Rivals(a.jobs[i], a.jobs[j]);
      }
    }
  }

  lemma RequestKeepsOne(cfg: Config, s: Sys, step: Step)
    requires One(s) && Request(step) && Next(cfg, s, step).Some? && !Doubles(s, step)
    ensures One(Next(cfg, s, step).value)
  {
    StepKeeps(cfg, s, step);
    RequestKeeps(cfg, s, step);
    FirstPending(s.db, Next(cfg, s, step).value.db, step.key);
  }

  lemma RefillKeepsOne(cfg: Config, s: Sys)
    requires One(s) && s.phase.Refilling?
    ensures One(Next(cfg, s, Refill).value)
  {
    var p := s.phase;
    StepKeeps(cfg, s, Refill);
    HeadOk(s);
    AddKeeps(s.db, p.key, RefreshPayload(p.key, None, Whole(p.intervalS)), p.runAt, p.now);
    FirstPending(s.db, Next(cfg, s, Refill).value.db, p.key);
  }

  lemma RestKeepsOne(cfg: Config, s: Sys, step: Step)
    requires One(s) && !Request(step) && !step.Refill? && Next(cfg, s, step).Some? && !Doubles(s, step)
    ensures One(Next(cfg, s, step).value)
  {
    StepKeeps(cfg, s, step);
    OldOnly(cfg, s, step);
    OnlyOldKeeps(s.db, Next(cfg, s, step).value.db);
    GapOpens(cfg, s, step);
  }

  /** The gap is entered only by the delete, which leaves the key nothing pending. */
  lemma GapOpens(cfg: Config, s: Sys, step: Step)
    requires JobsOk(s.db) && step != Clear(false) && Next(cfg, s, step).Some?
    ensures
      var t := Next(cfg, s, step).value;
      t.phase.Refilling? ==> s.phase == t.phase || NonePending(t.db, t.phase.key)
  {
    if step.Clear? {
      DropKeeps(s.db, s.phase.key);
    }
  }

  lemma OneKeeps(cfg: Config, s: Sys, step: Step)
    requires One(s) && Next(cfg, s, step).Some? && !Doubles(s, step)
    ensures One(Next(cfg, s, step).value)
  {
    if Request(step) {
      RequestKeepsOne(cfg, s, step);
    } else if step.Refill? {
      RefillKeepsOne(cfg, s);
    } else {
      RestKeepsOne(cfg, s, step);
    }
  }

  lemma {:induction false} UndisturbedKeeps(cfg: Config, s: Sys, steps: seq<Step>)
    requires One(s) && Undisturbed(cfg, s, steps)
    ensures Run(cfg, s, steps).Some? && One(Run(cfg, s, steps).value)
    decreases |steps|
  {
    if steps != [] {
      OneKeeps(cfg, s, steps[0]);
      UndisturbedKeeps(cfg, Next(cfg, s, steps[0]).value, steps[1..]);
    }
  }

  /** RESULT: in every run of one worker, crashes included, no key ever has two pending refreshes, as long as no request
      for a key falls between the worker's delete and enqueue for it and no error in that delete is swallowed. */
  lemma AtMostOnePendingRefresh(cfg: Config, steps: seq<Step>)
    requires Undisturbed(cfg, START, steps)
    ensures Run(cfg, START, steps).Some? && OnePending(Run(cfg, START, steps).value.db)
  {
    UndisturbedKeeps(cfg, START, steps);
  }

  ghost predicate MayDouble(cfg: Config, s: Sys) {
    exists more :: Undisturbed(cfg, s, more) && Run(cfg, s, more).Some? && !OnePending(Run(cfg, s, more).value.db)
  }

  /** A pending refresh of the key being there, the refill makes two. */
  lemma RefillDoubles(cfg: Config, s: Sys, id: int)
    requires Inv(s) && s.phase.Refilling? && id in s.db.jobs && PendingRefresh(s.db.jobs[id], s.phase.key)
    ensures !OnePending(Next(cfg, s, Refill).value.db)
  {
    var p, b := s.phase, Next(cfg, s, Refill).value.db;
    HeadOk(s);
    AddKeeps(s.db, p.key, RefreshPayload(p.key, None, Whole(p.intervalS)), p.runAt, p.now);
    assert Rivals(b.jobs[id], b.jobs[s.db.nextJob]);
  }

  lemma GapDoubles(cfg: Config, s: Sys, step: Step)
    requires Inv(s) && Request(step) && step.key != "" && InGap(s.phase, step.key)
    ensures MayDouble(cfg, Next(cfg, s, step).value)
  {
    var t := Next(cfg, s, step).value;
    StepKeeps(cfg, s, step);
    RequestKeeps(cfg, s, step);
    RefillDoubles(cfg, t, s.db.nextJob);
    W.RunOne(cfg, t, Refill, []);
    assert Undisturbed(cfg, t, [Refill]);
  }

  lemma StaysOne(cfg: Config, s: Sys)
    requires One(s)
    ensures !MayDouble(cfg, s)
  {
    forall more | Undisturbed(cfg, s, more) ensures Run(cfg, s, more).Some? && OnePending(Run(cfg, s, more).value.db) {
      UndisturbedKeeps(cfg, s, more);
    }
  }

  /** RESULT: a request may end in two pending refreshes of its key exactly when it arrives in that gap. */
  lemma DoubledIff(cfg: Config, steps: seq<Step>, step: Step)
    requires Undisturbed(cfg, START, steps) && Run(cfg, START, steps).Some? && Request(step) && step.key != ""
    ensures
      var s := Run(cfg, START, steps).value;
      MayDouble(cfg, Next(cfg, s, step).value) <==> InGap(s.phase, step.key)
  {
    UndisturbedKeeps(cfg, START, steps);
    var s := Run(cfg, START, steps).value;
    if InGap(s.phase, step.key) {
      GapDoubles(cfg, s, step);
    } else {
      OneKeeps(cfg, s, step);
      StaysOne(cfg, Next(cfg, s, step).value);
    }
  }

  /** RESULT: when the worker's delete fails, its refill makes a second pending refresh exactly when there was one. */
  lemma SwallowedDeleteIff(cfg: Config, s: Sys)
    requires One(s) && s.phase.Replacing?
    ensures
      var t := Next(cfg, Next(cfg, s, Clear(false)).value, Refill).value;
      OnePending(t.db) <==> NonePending(s.db, s.phase.key)
  {
    var t := Next(cfg, s, Clear(false)).value;
    StepKeeps(cfg, s, Clear(false));
    if NonePending(s.db, s.phase.key) {
      RefillKeepsOne(cfg, t);
    } else {
      var id :| id in s.db.jobs && PendingRefresh(s.db.jobs[id], s.phase.key);
      RefillDoubles(cfg, t, id);
    }
  }

  // ----- when a schedule survives -----

  /** Every pending refresh of the key carries this interval. */
  ghost predicate AllCarry(db: Db, key: string, intervalS: int) {
    forall id :: id in db.jobs && PendingRefresh(db.jobs[id], key) ==> Interval(db.jobs[id].payload) == Whole(intervalS)
  }

  /** The key is scheduled with this interval: in the table or, in the gap, in the worker's hands. */
  ghost predicate Scheduled(s: Sys, key: string, intervalS: int) {
    AllCarry(s.db, key, intervalS) && (NonePending(s.db, key) ==> InGap(s.phase, key) && s.phase.intervalS == intervalS)
  }

  /** Claimed jobs that may still re-enqueue themselves. */
  function Ahead(p: Phase): seq<Claimed> {
    if p.Settling? && p.todo != [] then p.todo[1..] else p.Todo()
  }

  /** A refresh of the key that re-enqueues itself. */
  predicate Carrier(c: Claimed, key: string) {
    IsRefresh(c) && c.jobKey == key && Interval(c.payload).Whole?
  }

  ghost predicate NoCarrier(p: Phase, key: string) {
    forall c :: c in Ahead(p) ==> !Carrier(c, key)
  }

  /** One with another interval. */
  predicate Rival(c: Claimed, key: string, intervalS: int) {
    Carrier(c, key) && Interval(c.payload) != Whole(intervalS)
  }

  ghost predicate NoRival(p: Phase, key: string, intervalS: int) {
    forall c :: c in Ahead(p) ==> !Rival(c, key, intervalS)
  }

  /** No stop, no manual refresh and no other schedule of this key; and between the worker's delete and enqueue for it,
      neither a crash nor an error. An error in the delete itself is calm. */
  predicate Calm(s: Sys, step: Step, key: string, intervalS: int) {
    match step
    case Unschedule(k) => k != key
    case RefreshNow(k, _, _) => k != key
    case Schedule(k, n, _) => k != key || n == intervalS
    case Crash => !InGap(s.phase, key)
    case Overturn(_, _) => !InGap(s.phase, key)
    case _ => true
  }

  ghost predicate CalmRun(cfg: Config, s: Sys, steps: seq<Step>, key: string, intervalS: int)
    decreases |steps|
  {
    steps == [] ||
    (Calm(s, steps[0], key, intervalS) &&
     var t := Next(cfg, s, steps[0]);
     t.Some? && CalmRun(cfg, t.value, steps[1..], key, intervalS))
  }

  /** A refresh of the key about to be marked done is not the only pending one. */
  ghost predicate Replaced(s: Sys, key: string) {
    var p := s.phase;
    p.Settling? && p.mark.MarkDone? && p.todo != [] && Carrier(p.todo[0], key) ==>
      exists id :: id in s.db.jobs && id != p.todo[0].id && PendingRefresh(s.db.jobs[id], key)
  }

  ghost predicate Kept(s: Sys, key: string, intervalS: int) {
    Inv(s) && Scheduled(s, key, intervalS) && NoRival(s.phase, key, intervalS) && Replaced(s, key)
  }

  lemma AheadShrinks(cfg: Config, s: Sys, step: Step)
    requires !step.Claim? && Next(cfg, s, step).Some?
    ensures forall c :: c in Ahead(Next(cfg, s, step).value.phase) ==> c in Ahead(s.phase)
  {
  }

  /** Claimed refreshes of the key are pending ones. */
  lemma ClaimedArePending(cfg: Config, s: Sys, step: Step, c: Claimed) returns (id: int)
    requires Inv(s) && step.Claim? && Next(cfg, s, step).Some? && c in Ahead(Next(cfg, s, step).value.phase)
    ensures id in s.db.jobs && s.db.jobs[id].payload == c.payload
    ensures IsRefresh(c) ==> PendingRefresh(s.db.jobs[id], c.jobKey)
  {
    var t := Next(cfg, s, step).value;
    var i :| 0 <= i < |t.phase.todo| && t.phase.todo[i] == c;
    id := step.ids[i];
    assert s.db.jobs[id].Claimable(step.now);
  }

  lemma CalmKeepsNoRival(cfg: Config, s: Sys, step: Step, key: string, intervalS: int)
    requires Kept(s, key, intervalS) && Next(cfg, s, step).Some?
    ensures NoRival(Next(cfg, s, step).value.phase, key, intervalS)
  {
    var p := Next(cfg, s, step).value.phase;
    if step.Claim? {
      forall c | c in Ahead(p) ensures !Rival(c, key, intervalS) {
        var id := ClaimedArePending(cfg, s, step, c);
      }
    } else {
      AheadShrinks(cfg, s, step);
    }
  }

  lemma CalmRequestKeeps(cfg: Config, s: Sys, step: Step, key: string, intervalS: int)
    requires Kept(s, key, intervalS) && Request(step) && Calm(s, step, key, intervalS) && Next(cfg, s, step).Some?
    ensures Scheduled(Next(cfg, s, step).value, key, intervalS) && Replaced(Next(cfg, s, step).value, key)
  {
    RequestKeeps(cfg, s, step);
    var t := Next(cfg, s, step).value;
    if step.key == key {
      assert PendingRefresh(t.db.jobs[s.db.nextJob], key);
    } else if !NonePending(s.db, key) {
      var id :| id in s.db.jobs && PendingRefresh(s.db.jobs[id], key);
      assert PendingRefresh(t.db.jobs[id], key);
    }
    if t.phase.Todo() != [] {
      HeadOk(s);
    }
  }

  /** Pending refreshes of the key stay under API steps that are no stop of it and enqueue no refresh. */
  lemma PlainKeepsPending(cfg: Config, s: Sys, step: Step, key: string, id: int)
    requires JobsOk(s.db) && ApiStep(step) && !Request(step) && Next(cfg, s, step).Some?
    requires step.Unschedule? ==> step.key != key
    requires id in s.db.jobs && PendingRefresh(s.db.jobs[id], key)
    ensures
      var b := Next(cfg, s, step).value.db;
      id in b.jobs && PendingRefresh(b.jobs[id], key)
  {
  }

  lemma CalmPlainKeeps(cfg: Config, s: Sys, step: Step, key: string, intervalS: int)
    requires Kept(s, key, intervalS) && ApiStep(step) && !Request(step) && Calm(s, step, key, intervalS)
    requires Next(cfg, s, step).Some?
    ensures Scheduled(Next(cfg, s, step).value, key, intervalS) && Replaced(Next(cfg, s, step).value, key)
  {
    PlainApiKeeps(cfg, s, step);
    PlainPhase(cfg, s, step);
    forall id | id in s.db.jobs && PendingRefresh(s.db.jobs[id], key)
      ensures
        var b := Next(cfg, s, step).value.db;
        id in b.jobs && PendingRefresh(b.jobs[id], key)
    {
      PlainKeepsPending(cfg, s, step, key, id);
    }
  }

  lemma PlainPhase(cfg: Config, s: Sys, step: Step)
    requires ApiStep(step) && Next(cfg, s, step).Some?
    ensures Next(cfg, s, step).value.phase == s.phase
  {
  }

  lemma CalmClearKeeps(cfg: Config, s: Sys, ok: bool, key: string, intervalS: int)
    requires Kept(s, key, intervalS) && Calm(s, Clear(ok), key, intervalS) && s.phase.Replacing?
    ensures Scheduled(Next(cfg, s, Clear(ok)).value, key, intervalS) && Replaced(Next(cfg, s, Clear(ok)).value, key)
  {
    var p, t := s.phase, Next(cfg, s, Clear(ok)).value;
    HeadOk(s);
    assert p.todo[0] in Ahead(p);
    DropKeeps(s.db, p.key);
    if p.key != key && !NonePending(s.db, key) {
      var id :| id in s.db.jobs && PendingRefresh(s.db.jobs[id], key);
      assert PendingRefresh(t.db.jobs[id], key);
    }
  }

  lemma CalmRefillKeeps(cfg: Config, s: Sys, key: string, intervalS: int)
    requires Kept(s, key, intervalS) && s.phase.Refilling?
    ensures Scheduled(Next(cfg, s, Refill).value, key, intervalS) && Replaced(Next(cfg, s, Refill).value, key)
  {
    var p, t := s.phase, Next(cfg, s, Refill).value;
    HeadOk(s);
    assert p.todo[0] in Ahead(p);
    AddKeeps(s.db, p.key, RefreshPayload(p.key, None, Whole(p.intervalS)), p.runAt, p.now);
    if p.key == key {
      assert PendingRefresh(t.db.jobs[s.db.nextJob], key);
    } else if !NonePending(s.db, key) {
      var id :| id in s.db.jobs && PendingRefresh(s.db.jobs[id], key);
      assert PendingRefresh(t.db.jobs[id], key);
    }
  }

  lemma CalmSettleKeeps(cfg: Config, s: Sys, key: string, intervalS: int)
    requires Kept(s, key, intervalS) && Next(cfg, s, SettleJob).Some?
    ensures Scheduled(Next(cfg, s, SettleJob).value, key, intervalS) && Replaced(Next(cfg, s, SettleJob).value, key)
  {
    var p, t := s.phase, Next(cfg, s, SettleJob).value;
    HeadOk(s);
    var c := p.todo[0];
    var id :| id in s.db.jobs && PendingRefresh(s.db.jobs[id], key);
    if id == c.id {
      assert ClaimedRow(s.db, id) == c && IsRefresh(c) && c.jobKey == key;
      if p.mark.MarkDone? {
        assert Carrier(c, key);
        id :| id in s.db.jobs && id != c.id && PendingRefresh(s.db.jobs[id], key);
      }
    }
    assert t.db.jobs[id] == if id == c.id then Marked(s.db.jobs[id], p.mark, p.now) else s.db.jobs[id];
    assert PendingRefresh(t.db.jobs[id], key);
  }

  lemma CalmClaimKeeps(cfg: Config, s: Sys, step: Step, key: string, intervalS: int)
    requires Kept(s, key, intervalS) && step.Claim? && Next(cfg, s, step).Some?
    ensures Scheduled(Next(cfg, s, step).value, key, intervalS) && Replaced(Next(cfg, s, step).value, key)
  {
    var t := Next(cfg, s, step).value;
    var id :| id in s.db.jobs && PendingRefresh(s.db.jobs[id], key);
    assert PendingRefresh(t.db.jobs[id], key);
  }

  lemma CalmQuietKeeps(cfg: Config, s: Sys, step: Step, key: string, intervalS: int)
    requires Kept(s, key, intervalS) && !ApiStep(step) && !JobStep(step) && Calm(s, step, key, intervalS)
    requires Next(cfg, s, step).Some?
    ensures Scheduled(Next(cfg, s, step).value, key, intervalS) && Replaced(Next(cfg, s, step).value, key)
  {
    QuietWorkerKeeps(cfg, s, step);
  }

  lemma CalmKeeps(cfg: Config, s: Sys, step: Step, key: string, intervalS: int)
    requires Kept(s, key, intervalS) && Calm(s, step, key, intervalS) && Next(cfg, s, step).Some?
    ensures Kept(Next(cfg, s, step).value, key, intervalS)
  {
    StepKeeps(cfg, s, step);
    CalmKeepsNoRival(cfg, s, step, key, intervalS);
    if Request(step) {
      CalmRequestKeeps(cfg, s, step, key, intervalS);
    } else if ApiStep(step) {
      CalmPlainKeeps(cfg, s, step, key, intervalS);
    } else if step.Clear? {
      CalmClearKeeps(cfg, s, step.ok, key, intervalS);
    } else if step.Refill? {
      CalmRefillKeeps(cfg, s, key, intervalS);
    } else if step.SettleJob? {
      CalmSettleKeeps(cfg, s, key, intervalS);
    } else if step.Claim? {
      CalmClaimKeeps(cfg, s, step, key, intervalS);
    } else {
      CalmQuietKeeps(cfg, s, step, key, intervalS);
    }
  }

  lemma {:induction false} CalmRunKeeps(cfg: Config, s: Sys, steps: seq<Step>, key: string, intervalS: int)
    requires Kept(s, key, intervalS) && CalmRun(cfg, s, steps, key, intervalS)
    ensures Run(cfg, s, steps).Some? && Kept(Run(cfg, s, steps).value, key, intervalS)
    decreases |steps|
  {
    if steps != [] {
      CalmKeeps(cfg, s, steps[0], key, intervalS);
      CalmRunKeeps(cfg, Next(cfg, s, steps[0]).value, steps[1..], key, intervalS);
    }
  }

  // ----- the exact condition -----

  function Rank(p: Phase): nat {
    match p
    case Batch(_, _) => 5
    case Loaded(_, _, _, _) => 4
    case Cleared(_, _, _, _) => 3
    case Replacing(_, _, _, _, _) => 3
    case Sent(_, _, _, _, _) => 2
    case Orphaned(_, _, _, _) => 2
    case Refilling(_, _, _, _, _) => 2
    case _ => 1
  }

  /** Some step that takes the worker on within the job in its hands. */
  function Onward(p: Phase): Step
    requires p.Todo() != []
  {
    match p
    case Batch(_, todo) => if IsRefresh(todo[0]) then Ingest(IngestResult(true, ""), 0) else Look
    case Loaded(_, _, _, _) => CheckSubscription
    case Cleared(_, _, _, _) => Send(SendResult(true, None, None))
    case Sent(_, _, _, _, _) => SettleSend
    case Orphaned(_, _, _, _) => SettleOrphan
    case Replacing(_, _, _, _, _) => Clear(true)
    case Refilling(_, _, _, _, _) => Refill
    case Settling(_, _, _) => SettleJob
  }

  /** A worker step without crash or error. */
  predicate Steady(step: Step) {
    !ApiStep(step) && !step.Crash? && !step.Overturn? && step != Clear(false)
  }

  predicate AllSteady(steps: seq<Step>) {
    forall step :: step in steps ==> Steady(step)
  }

  lemma {:induction false} SteadyIsCalm(cfg: Config, s: Sys, steps: seq<Step>, key: string, intervalS: int)
    requires Run(cfg, s, steps).Some? && AllSteady(steps)
    ensures CalmRun(cfg, s, steps, key, intervalS)
    decreases |steps|
  {
    if steps != [] {
      assert steps[0] in steps;
      SteadyIsCalm(cfg, Next(cfg, s, steps[0]).value, steps[1..], key, intervalS);
    }
  }

  lemma SteadyCons(step: Step, more: seq<Step>)
    requires Steady(step) && AllSteady(more)
    ensures AllSteady([step] + more)
  {
  }

  /** Still the same batch, further on within the job. */
  predicate Moves(p: Phase, q: Phase)
    requires p.Todo() != []
  {
    q.Todo() == p.todo && q.now == p.now && Rank(q) < Rank(p)
  }

  lemma OnwardStep(cfg: Config, s: Sys)
    requires s.phase.Todo() != []
    ensures
      var t := Next(cfg, s, Onward(s.phase));
      t.Some? && Steady(Onward(s.phase))
      && (if s.phase.Settling? then t.value.phase == Batch(s.phase.now, s.phase.todo[1..])
          else Moves(s.phase, t.value.phase))
  {
  }

  lemma {:induction false} FinishHead(cfg: Config, s: Sys) returns (steps: seq<Step>, t: Sys)
    requires s.phase.Todo() != []
    ensures Run(cfg, s, steps) == Some(t) && AllSteady(steps)
    ensures t.phase == Batch(s.phase.now, s.phase.todo[1..])
    decreases Rank(s.phase)
  {
    var step := Onward(s.phase);
    OnwardStep(cfg, s);
    var u := Next(cfg, s, step).value;
    var more: seq<Step> := [];
    if s.phase.Settling? {
      t := u;
    } else {
      more, t := FinishHead(cfg, u);
    }
    W.RunOne(cfg, s, step, more);
    SteadyCons(step, more);
    steps := [step] + more;
  }

  /** A pending refresh of the key with the interval the claimed one carries. */
  ghost predicate Enqueued(db: Db, c: Claimed) {
    exists id :: id in db.jobs && PendingRefresh(db.jobs[id], c.jobKey)
        && Interval(db.jobs[id].payload) == Interval(c.payload)
  }

  lemma RefillEnqueues(cfg: Config, s: Sys)
    requires Inv(s) && s.phase.Refilling?
    ensures Enqueued(Next(cfg, s, Refill).value.db, s.phase.todo[0])
  {
    var p := s.phase;
    HeadOk(s);
    AddKeeps(s.db, p.key, RefreshPayload(p.key, None, Whole(p.intervalS)), p.runAt, p.now);
  }

  /** A carrier at the head goes on to its own refill. */
  lemma CarrierAdvances(cfg: Config, s: Sys, key: string)
    requires Inv(s) && s.phase.Todo() != [] && Carrier(s.phase.todo[0], key) && !s.phase.Settling?
    requires !s.phase.Refilling?
    ensures
      var t := Next(cfg, s, Onward(s.phase)).value;
      (t.phase.Replacing? || t.phase.Refilling?) && t.phase.todo == s.phase.todo && Rank(t.phase) < Rank(s.phase)
  {
  }

  /** A carrier, once reached, enqueues itself. */
  lemma {:induction false} CarrierRefills(cfg: Config, s: Sys, key: string, c: Claimed)
    returns (steps: seq<Step>, t: Sys)
    requires Inv(s) && c in Ahead(s.phase) && Carrier(c, key)
    ensures Run(cfg, s, steps) == Some(t) && AllSteady(steps) && Enqueued(t.db, c)
    decreases |s.phase.Todo()|, Rank(s.phase)
  {
    var p := s.phase;
    if p.todo[0] != c || p.Settling? {
      var before, u := FinishHead(cfg, s);
      RunKeeps(cfg, s, before);
      assert c in u.phase.todo;
      steps, t := CarrierRefills(cfg, u, key, c);
      RunAppend(cfg, s, before, steps);
      steps := before + steps;
    } else {
      var step := Onward(p);
      OnwardStep(cfg, s);
      StepKeeps(cfg, s, step);
      if p.Refilling? {
        RefillEnqueues(cfg, s);
        steps, t := [], Next(cfg, s, step).value;
      } else {
        CarrierAdvances(cfg, s, key);
        steps, t := CarrierRefills(cfg, Next(cfg, s, step).value, key, c);
      }
      W.RunOne(cfg, s, step, steps);
      SteadyCons(step, steps);
      steps := [step] + steps;
    }
  }

  /** Whatever calm steps follow, the interval stays scheduled. */
  ghost predicate SurvivesCalm(cfg: Config, s: Sys, key: string, intervalS: int) {
    forall more :: CalmRun(cfg, s, more, key, intervalS) && Run(cfg, s, more).Some? ==>
      Scheduled(Run(cfg, s, more).value, key, intervalS)
  }

  lemma ScheduleKept(cfg: Config, s: Sys, key: string, intervalS: int, now: Instant)
    requires Inv(s) && key != "" && NoRival(s.phase, key, intervalS)
    ensures Kept(Next(cfg, s, Schedule(key, intervalS, now)).value, key, intervalS)
  {
    var t := Next(cfg, s, Schedule(key, intervalS, now)).value;
    StepKeeps(cfg, s, Schedule(key, intervalS, now));
    RequestKeeps(cfg, s, Schedule(key, intervalS, now));
    assert PendingRefresh(t.db.jobs[s.db.nextJob], key);
    if s.phase.Todo() != [] {
      HeadOk(s);
    }
  }

  lemma RivalEnds(cfg: Config, s: Sys, key: string, intervalS: int)
    requires Inv(s) && !NoRival(s.phase, key, intervalS)
    ensures !SurvivesCalm(cfg, s, key, intervalS)
  {
    var c :| c in Ahead(s.phase) && Rival(c, key, intervalS);
    var more, u := CarrierRefills(cfg, s, key, c);
    SteadyIsCalm(cfg, s, more, key, intervalS);
  }

  /**
   RESULT: after schedule_refresh the interval survives every calm continuation exactly when no claimed, unfinished
   refresh of the key carries another interval: such a refresh would replace the new schedule by its own.
   */
  lemma ScheduleSurvivesIff(cfg: Config, steps: seq<Step>, key: string, intervalS: int, now: Instant)
    requires Run(cfg, START, steps).Some? && key != ""
    ensures
      var s := Run(cfg, START, steps).value;
      var t := Next(cfg, s, Schedule(key, intervalS, now)).value;
      SurvivesCalm(cfg, t, key, intervalS) <==> NoRival(s.phase, key, intervalS)
  {
    RunKeeps(cfg, START, steps);
    var s := Run(cfg, START, steps).value;
    var t := Next(cfg, s, Schedule(key, intervalS, now)).value;
    if NoRival(s.phase, key, intervalS) {
      ScheduleKept(cfg, s, key, intervalS, now);
      forall more | CalmRun(cfg, t, more, key, intervalS) && Run(cfg, t, more).Some?
        ensures Scheduled(Run(cfg, t, more).value, key, intervalS)
      {
        CalmRunKeeps(cfg, t, more, key, intervalS);
      }
    } else {
      StepKeeps(cfg, s, Schedule(key, intervalS, now));
      RivalEnds(cfg, t, key, intervalS);
    }
  }

  // ----- when a stop holds -----

  /** No request for the key. */
  predicate Unrequested(steps: seq<Step>, key: string) {
    forall step :: step in steps && Request(step) ==> step.key != key
  }

  ghost predicate Stopped(s: Sys, key: string) {
    Inv(s) && NonePending(s.db, key) && NoCarrier(s.phase, key)
  }

  lemma StoppedKeeps(cfg: Config, s: Sys, step: Step, key: string)
    requires Stopped(s, key) && (Request(step) ==> step.key != key) && Next(cfg, s, step).Some?
    ensures Stopped(Next(cfg, s, step).value, key)
  {
    StepKeeps(cfg, s, step);
    StoppedKeepsNoCarrier(cfg, s, step, key);
    if Request(step) {
      RequestKeeps(cfg, s, step);
    } else if ApiStep(step) {
      PlainApiKeeps(cfg, s, step);
    } else {
      WorkerPending(cfg, s, step);
      if step.Refill? {
        assert s.phase.todo[0] in Ahead(s.phase);
      }
    }
  }

  lemma StoppedKeepsNoCarrier(cfg: Config, s: Sys, step: Step, key: string)
    requires Stopped(s, key) && Next(cfg, s, step).Some?
    ensures NoCarrier(Next(cfg, s, step).value.phase, key)
  {
    var p := Next(cfg, s, step).value.phase;
    if step.Claim? {
      forall c | c in Ahead(p) ensures !Carrier(c, key) {
        var id := ClaimedArePending(cfg, s, step, c);
      }
    } else {
      AheadShrinks(cfg, s, step);
    }
  }

  lemma {:induction false} StoppedRun(cfg: Config, s: Sys, steps: seq<Step>, key: string)
    requires Stopped(s, key) && Unrequested(steps, key) && Run(cfg, s, steps).Some?
    ensures NonePending(Run(cfg, s, steps).value.db, key)
    decreases |steps|
  {
    if steps != [] {
      assert steps[0] in steps;
      StoppedKeeps(cfg, s, steps[0], key);
      StoppedRun(cfg, Next(cfg, s, steps[0]).value, steps[1..], key);
    }
  }

  /** No refresh of the key becomes pending again unless one is requested. */
  ghost predicate StaysStopped(cfg: Config, s: Sys, key: string) {
    forall more :: Unrequested(more, key) && Run(cfg, s, more).Some? ==> NonePending(Run(cfg, s, more).value.db, key)
  }

  lemma StoppedStays(cfg: Config, s: Sys, key: string)
    requires Stopped(s, key)
    ensures StaysStopped(cfg, s, key)
  {
    forall more | Unrequested(more, key) && Run(cfg, s, more).Some?
      ensures NonePending(Run(cfg, s, more).value.db, key)
    {
      StoppedRun(cfg, s, more, key);
    }
  }

  lemma CarrierRestarts(cfg: Config, s: Sys, key: string)
    requires Inv(s) && !NoCarrier(s.phase, key)
    ensures !StaysStopped(cfg, s, key)
  {
    var c :| c in Ahead(s.phase) && Carrier(c, key);
    var more, u := CarrierRefills(cfg, s, key, c);
    assert Unrequested(more, key);
    assert Run(cfg, s, more).Some? && !NonePending(u.db, key);
  }

  /** RESULT: stop_schedule holds, crashes and errors included, exactly when no claimed, unfinished refresh of the key
      carries an interval: an in-flight one re-enqueues itself. */
  lemma StopHoldsIff(cfg: Config, steps: seq<Step>, key: string)
    requires Run(cfg, START, steps).Some?
    ensures
      var s := Run(cfg, START, steps).value;
      StaysStopped(cfg, Next(cfg, s, Unschedule(key)).value, key) <==> NoCarrier(s.phase, key)
  {
    RunKeeps(cfg, START, steps);
    var s := Run(cfg, START, steps).value;
    var t := Next(cfg, s, Unschedule(key)).value;
    StepKeeps(cfg, s, Unschedule(key));
    DropKeeps(s.db, key);
    if NoCarrier(s.phase, key) {
      StoppedStays(cfg, t, key);
    } else {
      CarrierRestarts(cfg, t, key);
    }
  }

  // ----- what ends a schedule -----

  /** RESULT: a crash or an error in the refresh branch ends a schedule at once exactly when it falls between the
      worker's delete and enqueue for the key and nothing has scheduled it again in between; and it is gone for good,
      until the next request, exactly when no other claimed refresh of the key is left to bring an interval back. */
  lemma BrokenIff(cfg: Config, s: Sys, step: Step, key: string, intervalS: int)
    requires Kept(s, key, intervalS) && (step.Crash? || step.Overturn?) && Next(cfg, s, step).Some?
    ensures
      var t := Next(cfg, s, step).value;
      && (!Scheduled(t, key, intervalS) <==> InGap(s.phase, key) && NonePending(s.db, key))
      && (StaysStopped(cfg, t, key) <==> NonePending(s.db, key) && (step.Crash? || NoCarrier(t.phase, key)))
  {
    var t := Next(cfg, s, step).value;
    StepKeeps(cfg, s, step);
    if !NonePending(s.db, key) {
      assert Unrequested([], key) && Run(cfg, t, []) == Some(t);
    } else if NoCarrier(t.phase, key) {
      StoppedStays(cfg, t, key);
    } else {
      CarrierRestarts(cfg, t, key);
    }
  }

  // ----- exactly one pending refresh -----

  /** One pending refresh of the key, with the interval; none in the gap, the worker being about to enqueue it. */
  ghost predicate ScheduledOnce(s: Sys, key: string, intervalS: int) {
    if InGap(s.phase, key) then NonePending(s.db, key) && s.phase.intervalS == intervalS
    else exists id :: id in s.db.jobs && OnlyPending(s.db, key, intervalS, id)
  }

  ghost predicate OnlyPending(db: Db, key: string, intervalS: int, id: int)
    requires id in db.jobs
  {
    && PendingRefresh(db.jobs[id], key) && Interval(db.jobs[id].payload) == Whole(intervalS)
    && (forall other :: other in db.jobs && PendingRefresh(db.jobs[other], key) ==> other == id)
  }

  /** So it is after every calm continuation in which no error in the worker's delete is swallowed. */
  ghost predicate StaysScheduledOnce(cfg: Config, s: Sys, key: string, intervalS: int) {
    forall more :: Undisturbed(cfg, s, more) && CalmRun(cfg, s, more, key, intervalS) && Run(cfg, s, more).Some? ==>
      ScheduledOnce(Run(cfg, s, more).value, key, intervalS)
  }

  lemma KeptOnce(s: Sys, key: string, intervalS: int)
    requires One(s) && Kept(s, key, intervalS)
    ensures ScheduledOnce(s, key, intervalS)
  {
    if !InGap(s.phase, key) {
      var id :| id in s.db.jobs && PendingRefresh(s.db.jobs[id], key);
      forall other | other in s.db.jobs && PendingRefresh(s.db.jobs[other], key) ensures other == id {
        assert Rivals(s.db.jobs[other], s.db.jobs[id]);
      }
      assert OnlyPending(s.db, key, intervalS, id);
    }
  }

  lemma {:induction false} SteadyIsUndisturbed(cfg: Config, s: Sys, steps: seq<Step>)
    requires Run(cfg, s, steps).Some? && AllSteady(steps)
    ensures Undisturbed(cfg, s, steps)
    decreases |steps|
  {
    if steps != [] {
      assert steps[0] in steps;
      SteadyIsUndisturbed(cfg, Next(cfg, s, steps[0]).value, steps[1..]);
    }
  }

  lemma RivalEndsOnce(cfg: Config, s: Sys, key: string, intervalS: int)
    requires Inv(s) && !NoRival(s.phase, key, intervalS)
    ensures !StaysScheduledOnce(cfg, s, key, intervalS)
  {
    var c :| c in Ahead(s.phase) && Rival(c, key, intervalS);
    var more, u := CarrierRefills(cfg, s, key, c);
    SteadyIsCalm(cfg, s, more, key, intervalS);
    SteadyIsUndisturbed(cfg, s, more);
  }

  /**
   RESULT: after schedule_refresh exactly one refresh of the key is pending, with the interval, through every
   undisturbed calm continuation, exactly when no claimed, unfinished refresh of the key carries another interval and
   the worker is not between its delete and enqueue for the key.
   */
  lemma ScheduledIsUnique(cfg: Config, steps: seq<Step>, key: string, intervalS: int, now: Instant)
    requires Undisturbed(cfg, START, steps) && Run(cfg, START, steps).Some? && key != ""
    ensures
      var s := Run(cfg, START, steps).value;
      var t := Next(cfg, s, Schedule(key, intervalS, now)).value;
      StaysScheduledOnce(cfg, t, key, intervalS) <==> NoRival(s.phase, key, intervalS) && !InGap(s.phase, key)
  {
    UndisturbedKeeps(cfg, START, steps);
    var s, step := Run(cfg, START, steps).value, Schedule(key, intervalS, now);
    var t := Next(cfg, s, step).value;
    StepKeeps(cfg, s, step);
    RequestKeeps(cfg, s, step);
    if InGap(s.phase, key) {
      assert Undisturbed(cfg, t, []) && Run(cfg, t, []) == Some(t);
      assert !NonePending(t.db, key);
    } else if NoRival(s.phase, key, intervalS) {
      OneKeeps(cfg, s, step);
      ScheduleKept(cfg, s, key, intervalS, now);
      forall more | Undisturbed(cfg, t, more) && CalmRun(cfg, t, more, key, intervalS) && Run(cfg, t, more).Some?
        ensures ScheduledOnce(Run(cfg, t, more).value, key, intervalS)
      {
        UndisturbedKeeps(cfg, t, more);
        CalmRunKeeps(cfg, t, more, key, intervalS);
        KeptOnce(Run(cfg, t, more).value, key, intervalS);
      }
    } else {
      RivalEndsOnce(cfg, t, key, intervalS);
    }
  }

  // ----- concrete runs -----

  /** The run up to the worker's claim of a 10-second refresh of "a". */
  const CLAIMED := [Schedule("a", 10, 0), Claim(0, 30, [1])]

  lemma ClaimedState(cfg: Config) returns (s: Sys)
    ensures Run(cfg, START, CLAIMED) == Some(s) && Inv(s)
    ensures s.phase.Batch? && |s.phase.todo| == 1 && Carrier(s.phase.todo[0], "a")
    ensures Interval(s.phase.todo[0].payload) == Whole(10)
  {
    var s1 := Next(cfg, START, Schedule("a", 10, 0)).value;
    assert ClaimableKeys(s1.db, 0) == map[1 := 0];
    s := Next(cfg, s1, Claim(0, 30, [1])).value;
    W.RunOne(cfg, START, CLAIMED[0], [CLAIMED[1]]);
    W.RunOne(cfg, s1, CLAIMED[1], []);
    assert CLAIMED == [CLAIMED[0]] + [CLAIMED[1]] == [CLAIMED[0]] + ([CLAIMED[1]] + []);
    RunKeeps(cfg, START, CLAIMED);
  }

  /** RESULT: rescheduling from 10 to 20 seconds, or stopping, while the worker holds the 10-second refresh: the 20
      seconds may be lost, and the stop may not hold. */
  lemma RescheduleLost(cfg: Config)
    ensures Run(cfg, START, CLAIMED).Some?
    ensures
      var s := Run(cfg, START, CLAIMED).value;
      && !SurvivesCalm(cfg, Next(cfg, s, Schedule("a", 20, 1)).value, "a", 20)
      && !StaysStopped(cfg, Next(cfg, s, Unschedule("a")).value, "a")
  {
    var s := ClaimedState(cfg);
    assert s.phase.todo[0] in Ahead(s.phase) && Rival(s.phase.todo[0], "a", 20);
    ScheduleSurvivesIff(cfg, CLAIMED, "a", 20, 1);
    StopHoldsIff(cfg, CLAIMED, "a");
  }

  lemma RunThree(cfg: Config, s: Sys, a: Step, b: Step, c: Step, s1: Sys, s2: Sys, s3: Sys)
    requires Next(cfg, s, a) == Some(s1) && Next(cfg, s1, b) == Some(s2) && Next(cfg, s2, c) == Some(s3)
    ensures Run(cfg, s, [a, b, c]) == Some(s3)
  {
    W.RunOne(cfg, s2, c, []);
    W.RunOne(cfg, s1, b, [c]);
    W.RunOne(cfg, s, a, [b, c]);
    assert [c] == [c] + [] && [b, c] == [b] + [c] && [a, b, c] == [a] + [b, c];
  }

  lemma CrashFromReplacing(cfg: Config, s: Sys)
    requires Inv(s) && s.phase.Replacing?
    ensures
      var end := Next(cfg, Next(cfg, s, Clear(true)).value, Crash).value;
      Inv(end) && NonePending(end.db, s.phase.key) && end.phase.Idle?
  {
    StepKeeps(cfg, s, Clear(true));
    StepKeeps(cfg, Next(cfg, s, Clear(true)).value, Crash);
    DropKeeps(s.db, s.phase.key);
  }

  lemma CrashFromBatch(cfg: Config, s: Sys)
    requires Inv(s) && s.phase.Batch? && s.phase.todo != [] && Carrier(s.phase.todo[0], "a")
    ensures
      var end := Run(cfg, s, [Ingest(IngestResult(true, ""), 5), Clear(true), Crash]);
      end.Some? && Inv(end.value) && NonePending(end.value.db, "a") && end.value.phase.Idle?
  {
    var step := Ingest(IngestResult(true, ""), 5);
    StepKeeps(cfg, s, step);
    var s1 := Next(cfg, s, step).value;
    assert s1.phase.Replacing? && s1.phase.todo[0] == s.phase.todo[0];
    CrashFromReplacing(cfg, s1);
    var s2 := Next(cfg, s1, Clear(true)).value;
    RunThree(cfg, s, step, Clear(true), Crash, s1, s2, Next(cfg, s2, Crash).value);
  }

  /** RESULT: the process dies after the worker's delete: the schedule is gone for good, no rival being present. */
  lemma CrashLosesSchedule(cfg: Config)
    ensures
      var end := Run(cfg, START, CLAIMED + [Ingest(IngestResult(true, ""), 5), Clear(true), Crash]);
      end.Some? && NonePending(end.value.db, "a") && StaysStopped(cfg, end.value, "a")
  {
    var s := ClaimedState(cfg);
    CrashFromBatch(cfg, s);
    RunAppend(cfg, START, CLAIMED, [Ingest(IngestResult(true, ""), 5), Clear(true), Crash]);
    StoppedStays(cfg, Run(cfg, s, [Ingest(IngestResult(true, ""), 5), Clear(true), Crash]).value, "a");
  }
}
