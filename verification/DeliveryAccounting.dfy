/** What every run of one worker and any API calls keeps about deliveries: accounting, absorption, backoff. */
module DeliveryAccounting {
  import opened Options
  import opened Tables
  import opened Webhooks
  import opened Protocol

  /** The least number of failed sends after which a delivery is given up. */
  function Cap(cfg: Config): int {
    if cfg.maxAttempts < 1 then 1 else cfg.maxAttempts
  }

  function SendsOf(log: seq<SendEvent>, id: int): nat {
    if log == [] then 0
    else SendsOf(log[..|log| - 1], id) + (if log[|log| - 1].id == id then 1 else 0)
  }

  /** Sends that the row of a delivery accounts for. */
  function Recorded(d: Delivery): int {
    if d.Pending() || (d.status.Failed? && d.lastError.SubscriptionMissing?) then d.attempts else d.attempts + 1
  }

  /** A send made but not yet marked. */
  function InFlight(s: Sys, id: int): int {
    if s.phase.Sent? && s.phase.id == id then 1 else 0
  }

  // ----- the invariant -----

  /** The row is due no earlier than its creation and all the delays it records. */
  predicate BackoffServed(cfg: Config, d: Delivery) {
    d.nextAttemptAt >= d.createdAt + BackoffSum(cfg.retryBaseS, d.attempts)
  }

  ghost predicate RowsOk(cfg: Config, db: Db) {
    forall id :: id in db.deliveries ==>
      && id < db.nextDelivery
      && 0 <= db.deliveries[id].attempts < Cap(cfg)
      && BackoffServed(cfg, db.deliveries[id])
      && TimingOk(cfg, db.deliveries[id])
  }

  /** A pending row is due exactly one clamped exponential delay after its last attempt, at once if there was none. */
  predicate TimingOk(cfg: Config, d: Delivery) {
    && (d.status.Queued? ==> d.attempts == 0 && d.nextAttemptAt == d.createdAt)
    && (d.status.Retry? ==>
          d.attempts >= 1 && d.lastAttemptAt.Some? &&
          d.nextAttemptAt == NextAttempt(d.lastAttemptAt.value, d.attempts - 1, cfg.retryBaseS))
  }

  /** The row in the worker's hands is pending, was due, and is still what the table holds unless it was deleted. */
  ghost predicate HeldOk(cfg: Config, s: Sys) {
    var p := s.phase;
    (p.Loaded? || p.Orphaned? || p.Cleared? || p.Sent?) ==>
      && p.d.Pending() && p.d.nextAttemptAt <= p.now
      && p.id < s.db.nextDelivery
      && 0 <= p.d.attempts < Cap(cfg)
      && p.d.nextAttemptAt >= p.d.createdAt + BackoffSum(cfg.retryBaseS, p.d.attempts)
      && SendsOf(s.log, p.id) == s.lost[p.id] + p.d.attempts + InFlight(s, p.id)
      && (p.id in s.db.deliveries ==> s.db.deliveries[p.id] == p.d)
  }

  ghost predicate Accounted(s: Sys) {
    && (forall id :: id in s.db.deliveries ==>
          SendsOf(s.log, id) == s.lost[id] + Recorded(s.db.deliveries[id]) + InFlight(s, id))
    && (forall id :: id >= s.db.nextDelivery ==> SendsOf(s.log, id) == 0 && s.lost[id] == 0)
  }

  /** Every send made so far came after the whole backoff its row records. */
  ghost predicate SendOk(cfg: Config, log: seq<SendEvent>, k: nat)
    requires k < |log|
  {
    && log[k].now >= log[k].createdAt + BackoffSum(cfg.retryBaseS, log[k].attempts)
    && 0 <= log[k].attempts < Cap(cfg)
    && SendsOf(log[..k], log[k].id) == log[k].attempts + log[k].lost
  }

  ghost predicate LogOk(cfg: Config, s: Sys) {
    && (forall k :: 0 <= k < |s.log| ==> SendOk(cfg, s.log, k))
    && (forall k :: 0 <= k < |s.log| ==> s.log[k].lost <= s.lost[s.log[k].id])
    && (forall id :: SendsOf(s.log, id) <= Cap(cfg) + s.lost[id])
  }

  ghost predicate Inv(cfg: Config, s: Sys) {
    RowsOk(cfg, s.db) && HeldOk(cfg, s) && Accounted(s) && LogOk(cfg, s)
  }

  // ----- preservation -----

  lemma SendsOfAppend(log: seq<SendEvent>, e: SendEvent, id: int)
    ensures SendsOf(log + [e], id) == SendsOf(log, id) + (if e.id == id then 1 else 0)
  {
    assert (log + [e])[..|log|] == log;
  }

  lemma LogAppend(cfg: Config, log: seq<SendEvent>, e: SendEvent)
    requires forall k :: 0 <= k < |log| ==> SendOk(cfg, log, k)
    requires e.now >= e.createdAt + BackoffSum(cfg.retryBaseS, e.attempts)
    requires 0 <= e.attempts < Cap(cfg) && SendsOf(log, e.id) == e.attempts + e.lost
    ensures forall k :: 0 <= k < |log + [e]| ==> SendOk(cfg, log + [e], k)
  {
    forall k | 0 <= k < |log + [e]|
      ensures SendOk(cfg, log + [e], k)
    {
      assert (log + [e])[..k] == log[..k];
      if k < |log| {
        assert SendOk(cfg, log, k);
      } else {
        assert log[..k] == log;
      }
    }
  }

  lemma SendCounts(log: seq<SendEvent>, e: SendEvent)
    ensures forall id :: SendsOf(log + [e], id) == SendsOf(log, id) + (if e.id == id then 1 else 0)
  {
    forall id ensures SendsOf(log + [e], id) == SendsOf(log, id) + (if e.id == id then 1 else 0) {
      SendsOfAppend(log, e, id);
    }
  }

  lemma SendKeepsAccounts(cfg: Config, s: Sys, res: SendResult)
    requires Inv(cfg, s) && s.phase.Cleared?
    ensures Accounted(Next(cfg, s, Send(res)).value) && HeldOk(cfg, Next(cfg, s, Send(res)).value)
  {
    var p, t := s.phase, Next(cfg, s, Send(res)).value;
    SendCounts(s.log, t.log[|s.log|]);
    forall id ensures InFlight(t, id) == (if p.id == id then 1 else 0) && InFlight(s, id) == 0 {
    }
  }

  lemma SendKeepsLog(cfg: Config, s: Sys, res: SendResult)
    requires Inv(cfg, s) && s.phase.Cleared?
    ensures LogOk(cfg, Next(cfg, s, Send(res)).value)
  {
    var t := Next(cfg, s, Send(res)).value;
    var e := t.log[|s.log|];
    SendCounts(s.log, e);
    LogAppend(cfg, s.log, e);
  }

  lemma SendKeeps(cfg: Config, s: Sys, res: SendResult)
    requires Inv(cfg, s) && s.phase.Cleared?
    ensures Inv(cfg, Next(cfg, s, Send(res)).value)
  {
    SendKeepsAccounts(cfg, s, res);
    SendKeepsLog(cfg, s, res);
  }

  /** The one row a send settles stays within bounds and timing. */
  lemma SettledRow(cfg: Config, now: Instant, d: Delivery, res: SendResult)
    requires d.Pending() && d.nextAttemptAt <= now && 0 <= d.attempts < Cap(cfg)
    requires d.nextAttemptAt >= d.createdAt + BackoffSum(cfg.retryBaseS, d.attempts)
    ensures
      var e := Settled(d, SendMark(cfg, now, d, res), now);
      && 0 <= e.attempts < Cap(cfg) && TimingOk(cfg, e) && Recorded(e) == d.attempts + 1
      && e.nextAttemptAt >= e.createdAt + BackoffSum(cfg.retryBaseS, e.attempts)
  {
    BackoffSumStep(cfg.retryBaseS, d.attempts);
  }

  lemma SettleSendKeeps(cfg: Config, s: Sys)
    requires Inv(cfg, s) && s.phase.Sent?
    ensures Inv(cfg, Next(cfg, s, SettleSend).value)
  {
    var p, t := s.phase, Next(cfg, s, SettleSend).value;
    SettledRow(cfg, p.now, p.d, p.res);
    var e := Settled(p.d, SendMark(cfg, p.now, p.d, p.res), p.now);
    assert t.db.deliveries == if p.id in s.db.deliveries then s.db.deliveries[p.id := e] else s.db.deliveries;
    forall id ensures InFlight(t, id) == 0 {
    }
  }

  /** No delivery row in the worker's hands. */
  predicate HandsFree(p: Phase) {
    p.Idle? || p.Batch? || p.Replacing? || p.Refilling? || p.Settling?
  }

  /** Steps that leave deliveries and log alone and put no new row in the worker's hands. */
  lemma Frame(cfg: Config, s: Sys, t: Sys)
    requires Inv(cfg, s)
    requires t.db.deliveries == s.db.deliveries && t.db.nextDelivery == s.db.nextDelivery
    requires t.log == s.log && t.lost == s.lost
    requires t.phase == s.phase || (!s.phase.Sent? && HandsFree(t.phase))
    ensures Inv(cfg, t)
  {
    forall id ensures InFlight(t, id) == InFlight(s, id) {
    }
  }

  lemma LookKeeps(cfg: Config, s: Sys)
    requires Inv(cfg, s) && Next(cfg, s, Look).Some?
    ensures Inv(cfg, Next(cfg, s, Look).value)
  {
    var t := Next(cfg, s, Look).value;
    if t.phase.Settling? {
      Frame(cfg, s, t);
    }
  }

  lemma ApiKeeps(cfg: Config, s: Sys, step: Step)
    requires Inv(cfg, s) && (step.Unsubscribe? || step.InsertDelivery?)
    ensures Inv(cfg, Next(cfg, s, step).value)
  {
    var t := Next(cfg, s, step).value;
    forall id ensures InFlight(t, id) == InFlight(s, id) {
    }
  }

  lemma CrashKeeps(cfg: Config, s: Sys)
    requires Inv(cfg, s)
    ensures Inv(cfg, Next(cfg, s, Crash).value)
  {
    var t := Next(cfg, s, Crash).value;
    forall id
      ensures SendsOf(s.log, id) <= Cap(cfg) + s.lost[id] <= Cap(cfg) + t.lost[id]
      ensures s.lost[id] + InFlight(s, id) == t.lost[id] + InFlight(t, id)
    {
    }
  }

  lemma CheckKeeps(cfg: Config, s: Sys)
    requires Inv(cfg, s) && s.phase.Loaded?
    ensures Inv(cfg, Next(cfg, s, CheckSubscription).value)
  {
    forall id ensures InFlight(Next(cfg, s, CheckSubscription).value, id) == InFlight(s, id) == 0 {
    }
  }

  lemma OrphanKeeps(cfg: Config, s: Sys)
    requires Inv(cfg, s) && s.phase.Orphaned?
    ensures Inv(cfg, Next(cfg, s, SettleOrphan).value)
  {
    var p, t := s.phase, Next(cfg, s, SettleOrphan).value;
    var e := Settled(p.d, MarkUndeliverable(SubscriptionMissing), p.now);
    assert t.db.deliveries == if p.id in s.db.deliveries then s.db.deliveries[p.id := e] else s.db.deliveries;
    assert Recorded(e) == p.d.attempts && TimingOk(cfg, e);
    forall id ensures InFlight(t, id) == InFlight(s, id) == 0 {
    }
  }

  predicate Quiet(step: Step) {
    !step.Send? && !step.SettleSend? && !step.Crash? && !step.Look? && !step.Unsubscribe? && !step.InsertDelivery? &&
    !step.CheckSubscription? && !step.SettleOrphan?
  }

  lemma QuietSteps(cfg: Config, s: Sys, step: Step)
    requires Quiet(step) && Next(cfg, s, step).Some?
    ensures
      var t := Next(cfg, s, step).value;
      && t.db.deliveries == s.db.deliveries && t.db.nextDelivery == s.db.nextDelivery
      && t.log == s.log && t.lost == s.lost
      && (t.phase == s.phase || (!s.phase.Sent? && HandsFree(t.phase)))
  {
  }

  lemma StepKeeps(cfg: Config, s: Sys, step: Step)
    requires Inv(cfg, s) && Next(cfg, s, step).Some?
    ensures Inv(cfg, Next(cfg, s, step).value)
  {
    match step
    case Send(res) => SendKeeps(cfg, s, res);
    case SettleSend => SettleSendKeeps(cfg, s);
    case Crash => CrashKeeps(cfg, s);
    case Look => LookKeeps(cfg, s);
    case Unsubscribe(_, _) => ApiKeeps(cfg, s, step);
    case InsertDelivery(_, _, _, _, _, _) => ApiKeeps(cfg, s, step);
    case CheckSubscription => CheckKeeps(cfg, s);
    case SettleOrphan => OrphanKeeps(cfg, s);
    case _ =>
      QuietSteps(cfg, s, step);
      Frame(cfg, s, Next(cfg, s, step).value);
  }

  lemma {:induction false} RunKeeps(cfg: Config, s: Sys, steps: seq<Step>)
    requires Inv(cfg, s) && Run(cfg, s, steps).Some?
    ensures Inv(cfg, Run(cfg, s, steps).value)
    decreases |steps|
  {
    if steps != [] {
      StepKeeps(cfg, s, steps[0]);
      RunKeeps(cfg, Next(cfg, s, steps[0]).value, steps[1..]);
    }
  }

  lemma Reachable(cfg: Config, steps: seq<Step>)
    requires Run(cfg, START, steps).Some?
    ensures Inv(cfg, Run(cfg, START, steps).value)
  {
    RunKeeps(cfg, START, steps);
  }

  /** delete_webhook_subscription: the customer's deliveries of the subscription go, and the subscription if it is the
      customer's; everything else stays. */
  lemma UnsubscribeIs(db: Db, id: string, customer: string)
    ensures
      var after := DeleteSubscription(db, id, customer);
      && after == db.(deliveries := after.deliveries, subs := after.subs)
      && (forall k :: k in after.deliveries <==>
            k in db.deliveries
            && (db.deliveries[k].subscriptionId != id || db.deliveries[k].customerId != customer))
      && (forall k :: k in after.deliveries ==> after.deliveries[k] == db.deliveries[k])
      && (forall k :: k in after.subs <==> k in db.subs && (k != id || db.subs[k].customerId != customer))
      && (forall k :: k in after.subs ==> after.subs[k] == db.subs[k])
  {
  }

  // ----- the results -----

  /**
   RESULT: the send counter of every existing delivery is its attempt_count while it is pending or failed for want of a
   subscription, and one more once delivered or given up, plus sends in flight or lost to crashes.
   */
  lemma AttemptAccounting(cfg: Config, steps: seq<Step>, id: int)
    requires Run(cfg, START, steps).Some? && id in Run(cfg, START, steps).value.db.deliveries
    ensures
      var s := Run(cfg, START, steps).value;
      var d := s.db.deliveries[id];
      && SendsOf(s.log, id) - InFlight(s, id) - s.lost[id] ==
           (if d.status.Delivered? || (d.status.Failed? && !d.lastError.SubscriptionMissing?)
            then d.attempts + 1 else d.attempts)
      && (d.Pending() ==> d.attempts < Cap(cfg))
  {
    Reachable(cfg, steps);
  }

  /** RESULT: in every run, a delivery waiting for a retry is due base * 2^min(i, 16) seconds after its last attempt, i
      being its failures before that one: cut to whole seconds, at most one later, and exact on a whole base. */
  lemma RetryTiming(cfg: Config, steps: seq<Step>, id: int)
    requires Run(cfg, START, steps).Some? && id in Run(cfg, START, steps).value.db.deliveries
    ensures
      var d := Run(cfg, START, steps).value.db.deliveries[id];
      && (d.status.Queued? ==> d.attempts == 0 && d.nextAttemptAt == d.createdAt)
      && (d.status.Retry? ==>
            && d.attempts >= 1 && d.lastAttemptAt.Some?
            && var delay := d.nextAttemptAt - d.lastAttemptAt.value;
            && FloorDelay(cfg.retryBaseS, d.attempts - 1) <= delay <= FloorDelay(cfg.retryBaseS, d.attempts - 1) + 1
            && (cfg.retryBaseS.Floor as real == cfg.retryBaseS ==>
                  delay == cfg.retryBaseS.Floor * Power(d.attempts - 1)))
  {
    Reachable(cfg, steps);
    var d := Run(cfg, START, steps).value.db.deliveries[id];
    assert TimingOk(cfg, d);
    DelayIsFloor(cfg.retryBaseS, d.attempts - 1);
    WholeDelay(cfg.retryBaseS.Floor, d.attempts - 1);
  }

  /** RESULT: no delivery, deleted or not, is ever sent more than max_attempts times, not counting sends lost to
      crashes. */
  lemma SendsBounded(cfg: Config, steps: seq<Step>, id: int)
    requires Run(cfg, START, steps).Some?
    ensures
      var s := Run(cfg, START, steps).value;
      SendsOf(s.log, id) <= Cap(cfg) + s.lost[id]
  {
    Reachable(cfg, steps);
  }

  /** A worker that never crashes between send and mark loses no send. */
  ghost predicate NoLostSend(cfg: Config, s: Sys, steps: seq<Step>)
    decreases |steps|
  {
    steps == [] ||
    (!(s.phase.Sent? && steps[0].Crash?) &&
     var t := Next(cfg, s, steps[0]);
     t.Some? && NoLostSend(cfg, t.value, steps[1..]))
  }

  lemma {:induction false} NothingLost(cfg: Config, s: Sys, steps: seq<Step>)
    requires NoLostSend(cfg, s, steps) && Run(cfg, s, steps).Some?
    ensures Run(cfg, s, steps).value.lost == s.lost
    decreases |steps|
  {
    if steps != [] {
      NothingLost(cfg, Next(cfg, s, steps[0]).value, steps[1..]);
    }
  }

  lemma BackoffBehind(cfg: Config, steps: seq<Step>, k: nat)
    requires Run(cfg, START, steps).Some? && NoLostSend(cfg, START, steps)
    requires k < |Run(cfg, START, steps).value.log|
    ensures
      var log := Run(cfg, START, steps).value.log;
      log[k].now >= log[k].createdAt + BackoffSum(cfg.retryBaseS, SendsOf(log[..k], log[k].id))
  {
    Reachable(cfg, steps);
    NothingLost(cfg, START, steps);
    var s := Run(cfg, START, steps).value;
    assert SendOk(cfg, s.log, k);
    assert s.log[k].lost <= s.lost[s.log[k].id];
  }

  /** RESULT: the k-th send logged is number n + 1 of its delivery and comes n backoffs after the delivery was
      created. */
  lemma BackoffOverRuns(cfg: Config, steps: seq<Step>, k: nat)
    requires Run(cfg, START, steps).Some? && NoLostSend(cfg, START, steps)
    requires k < |Run(cfg, START, steps).value.log|
    ensures
      var log := Run(cfg, START, steps).value.log;
      var n := SendsOf(log[..k], log[k].id);
      log[k].now >= log[k].createdAt + BackoffSum(cfg.retryBaseS, n) >= log[k].createdAt + FloorSum(cfg.retryBaseS, n)
  {
    BackoffBehind(cfg, steps, k);
    var log := Run(cfg, START, steps).value.log;
    BackoffCoversFloors(cfg.retryBaseS, SendsOf(log[..k], log[k].id));
  }

  /** The row that a step finds delivered or failed it leaves exactly as it was, unless it deletes it. */
  lemma StepAbsorbs(cfg: Config, s: Sys, step: Step, id: int)
    requires Inv(cfg, s) && Next(cfg, s, step).Some?
    requires id in s.db.deliveries && !s.db.deliveries[id].Pending()
    ensures
      var t := Next(cfg, s, step).value;
      if id in t.db.deliveries then t.db.deliveries[id] == s.db.deliveries[id] else step.Unsubscribe?
  {
  }

  lemma {:induction false} StaysDeleted(cfg: Config, s: Sys, steps: seq<Step>, id: int)
    requires Run(cfg, s, steps).Some? && id < s.db.nextDelivery && id !in s.db.deliveries
    ensures id !in Run(cfg, s, steps).value.db.deliveries
    decreases |steps|
  {
    if steps != [] {
      StaysDeleted(cfg, Next(cfg, s, steps[0]).value, steps[1..], id);
    }
  }

  lemma {:induction false} RunAbsorbs(cfg: Config, s: Sys, steps: seq<Step>, id: int)
    requires Inv(cfg, s) && Run(cfg, s, steps).Some?
    requires id in s.db.deliveries && !s.db.deliveries[id].Pending()
    ensures
      var t := Run(cfg, s, steps).value;
      id in t.db.deliveries ==> t.db.deliveries[id] == s.db.deliveries[id]
    decreases |steps|
  {
    if steps != [] {
      var t := Next(cfg, s, steps[0]).value;
      StepAbsorbs(cfg, s, steps[0], id);
      StepKeeps(cfg, s, steps[0]);
      if id in t.db.deliveries {
        RunAbsorbs(cfg, t, steps[1..], id);
      } else {
        StaysDeleted(cfg, t, steps[1..], id);
      }
    }
  }

  /** RESULT: in every run, a delivery once delivered or failed keeps that row to the end, or is deleted and never
      comes back. */
  lemma Absorption(cfg: Config, steps: seq<Step>, more: seq<Step>, id: int)
    requires Run(cfg, START, steps).Some? && Run(cfg, START, steps + more).Some?
    requires
      var s := Run(cfg, START, steps).value;
      id in s.db.deliveries && !s.db.deliveries[id].Pending()
    ensures
      var s, t := Run(cfg, START, steps).value, Run(cfg, START, steps + more).value;
      id in t.db.deliveries ==> t.db.deliveries[id] == s.db.deliveries[id]
  {
    Reachable(cfg, steps);
    RunAppend(cfg, START, steps, more);
    RunAbsorbs(cfg, Run(cfg, START, steps).value, more, id);
  }
}
