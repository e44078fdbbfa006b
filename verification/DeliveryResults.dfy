/** What became of each delivery, told by the results of its sends: over every run of one worker and any API calls. */
module DeliveryResults {
  import opened Options
  import opened Tables
  import opened Webhooks
  import opened Protocol
  import D = DeliveryAccounting

  /** Position i of the log is a send of the delivery whose mark was written. */
  predicate MarkedSend(s: Sys, id: int, i: int) {
    i in s.marked && 0 <= i < |s.log| && s.log[i].id == id
  }

  ghost predicate AllFailed(s: Sys, id: int) {
    forall i :: MarkedSend(s, id, i) ==> !s.log[i].res.ok
  }

  ghost predicate LastMarked(s: Sys, id: int, i: int) {
    MarkedSend(s, id, i) && forall j :: MarkedSend(s, id, j) ==> j <= i
  }

  /** Every marked send but the last failed. */
  ghost predicate FailedBefore(s: Sys, id: int, last: int) {
    forall i :: MarkedSend(s, id, i) && i < last ==> !s.log[i].res.ok
  }

  /** The row is what the last marked send made of it. */
  predicate Tells(cfg: Config, d: Delivery, e: SendEvent) {
    && d.lastAttemptAt == Some(e.now)
    && match d.status
       case Queued => false
       case Delivered => e.res.ok && d.lastStatusCode == Some(e.res.statusCode.GetOr(0))
       case Retry =>
         !e.res.ok && d.attempts < cfg.maxAttempts
         && d.lastStatusCode == e.res.statusCode && d.lastError == SendError(e.res.error)
       case Failed => !e.res.ok && d.attempts + 1 >= cfg.maxAttempts && d.lastError == SendError(e.res.error)
  }

  /** A new delivery has no marked send, one failed for want of a subscription only failed ones. */
  ghost predicate Reports(cfg: Config, s: Sys, id: int, d: Delivery) {
    if d.status.Queued? then forall i :: !MarkedSend(s, id, i)
    else if d.status.Failed? && d.lastError.SubscriptionMissing? then AllFailed(s, id)
    else exists i :: LastMarked(s, id, i) && FailedBefore(s, id, i) && Tells(cfg, d, s.log[i])
  }

  /** Nothing of a delivery is sent after a marked success. */
  ghost predicate Final(s: Sys) {
    forall i, j :: 0 <= i < j < |s.log| && i in s.marked && s.log[i].id == s.log[j].id ==> !s.log[i].res.ok
  }

  predicate Held(p: Phase) {
    p.Loaded? || p.Orphaned? || p.Cleared? || p.Sent?
  }

  /** The send in flight is the last of the log, not marked yet. */
  predicate InHand(s: Sys) {
    s.phase.Sent? ==>
      && s.log != [] && |s.log| - 1 !in s.marked
      && var e := s.log[|s.log| - 1];
      e.id == s.phase.id && e.res == s.phase.res && e.now == s.phase.now
  }

  ghost predicate Inv(cfg: Config, s: Sys) {
    && (forall i :: i in s.marked ==> 0 <= i < |s.log|)
    && (forall i :: 0 <= i < |s.log| ==> s.log[i].id < s.db.nextDelivery)
    && InHand(s) && Final(s)
    && (Held(s.phase) ==> AllFailed(s, s.phase.id))
    && (forall id :: id in s.db.deliveries ==> Reports(cfg, s, id, s.db.deliveries[id]))
  }

  /** The marked sends of a delivery are the same in both states. */
  ghost predicate SameSends(s: Sys, t: Sys, id: int) {
    forall i :: (MarkedSend(s, id, i) <==> MarkedSend(t, id, i)) && (MarkedSend(s, id, i) ==> s.log[i] == t.log[i])
  }

  lemma SameReports(cfg: Config, s: Sys, t: Sys, id: int, d: Delivery)
    requires SameSends(s, t, id)
    ensures Reports(cfg, s, id, d) ==> Reports(cfg, t, id, d)
    ensures AllFailed(s, id) <==> AllFailed(t, id)
  {
    if Reports(cfg, s, id, d) && !d.status.Queued? && !(d.status.Failed? && d.lastError.SubscriptionMissing?) {
      var i :| LastMarked(s, id, i) && FailedBefore(s, id, i) && Tells(cfg, d, s.log[i]);
      assert LastMarked(t, id, i) && FailedBefore(t, id, i) && Tells(cfg, d, t.log[i]);
    }
  }

  /** A pending row has no marked success behind it. */
  lemma PendingFailed(cfg: Config, s: Sys, id: int, d: Delivery)
    requires Reports(cfg, s, id, d) && d.Pending()
    ensures AllFailed(s, id)
  {
    if d.status.Retry? {
      var i :| LastMarked(s, id, i) && FailedBefore(s, id, i) && Tells(cfg, d, s.log[i]);
    }
  }

  lemma SendKeeps(cfg: Config, s: Sys, res: SendResult)
    requires D.Inv(cfg, s) && Inv(cfg, s) && s.phase.Cleared?
    ensures Inv(cfg, Next(cfg, s, Send(res)).value)
  {
    var t := Next(cfg, s, Send(res)).value;
    forall id ensures SameSends(s, t, id) {
    }
    forall id | id in t.db.deliveries ensures Reports(cfg, t, id, t.db.deliveries[id]) {
      SameReports(cfg, s, t, id, s.db.deliveries[id]);
    }
    assert AllFailed(t, s.phase.id);
  }

  lemma MarkReports(cfg: Config, s: Sys)
    requires D.Inv(cfg, s) && Inv(cfg, s) && s.phase.Sent?
    ensures
      var p, t := s.phase, Next(cfg, s, SettleSend).value;
      Reports(cfg, t, p.id, Settled(p.d, SendMark(cfg, p.now, p.d, p.res), p.now))
  {
    var p, t := s.phase, Next(cfg, s, SettleSend).value;
    var i, d := |s.log| - 1, Settled(p.d, SendMark(cfg, p.now, p.d, p.res), p.now);
    assert LastMarked(t, p.id, i);
    forall j | MarkedSend(t, p.id, j) && j < i ensures !t.log[j].res.ok {
      assert MarkedSend(s, p.id, j);
    }
    assert Tells(cfg, d, t.log[i]);
  }

  /** One row is settled, the others and their sends staying as they were. */
  lemma RowSettled(cfg: Config, s: Sys, t: Sys, id: int, d: Delivery)
    requires Inv(cfg, s) && t.log == s.log && t.db.nextDelivery == s.db.nextDelivery && t.phase.Settling?
    requires t.db.deliveries == if id in s.db.deliveries then s.db.deliveries[id := d] else s.db.deliveries
    requires t.marked == s.marked || (s.log != [] && t.marked == s.marked + {|s.log| - 1})
    requires t.marked != s.marked ==> s.log[|s.log| - 1].id == id
    requires Reports(cfg, t, id, d)
    ensures Inv(cfg, t)
  {
    forall other | other in t.db.deliveries ensures Reports(cfg, t, other, t.db.deliveries[other]) {
      if other != id {
        assert SameSends(s, t, other);
        SameReports(cfg, s, t, other, s.db.deliveries[other]);
      }
    }
  }

  lemma SettleSendKeeps(cfg: Config, s: Sys)
    requires D.Inv(cfg, s) && Inv(cfg, s) && s.phase.Sent?
    ensures Inv(cfg, Next(cfg, s, SettleSend).value)
  {
    var p, t := s.phase, Next(cfg, s, SettleSend).value;
    MarkReports(cfg, s);
    RowSettled(cfg, s, t, p.id, Settled(p.d, SendMark(cfg, p.now, p.d, p.res), p.now));
  }

  lemma OrphanKeeps(cfg: Config, s: Sys)
    requires D.Inv(cfg, s) && Inv(cfg, s) && s.phase.Orphaned?
    ensures Inv(cfg, Next(cfg, s, SettleOrphan).value)
  {
    var p, t := s.phase, Next(cfg, s, SettleOrphan).value;
    assert SameSends(s, t, p.id);
    SameReports(cfg, s, t, p.id, p.d);
    RowSettled(cfg, s, t, p.id, Settled(p.d, MarkUndeliverable(SubscriptionMissing), p.now));
  }

  /** Steps that mark and send nothing. */
  lemma Frame(cfg: Config, s: Sys, t: Sys)
    requires Inv(cfg, s) && t.log == s.log && t.marked == s.marked && s.db.nextDelivery <= t.db.nextDelivery
    requires forall id :: id in t.db.deliveries ==>
      if id in s.db.deliveries then t.db.deliveries[id] == s.db.deliveries[id]
      else t.db.deliveries[id].status.Queued? && id >= s.db.nextDelivery
    requires t.phase.Sent? ==> t.phase == s.phase
    requires Held(t.phase) ==> AllFailed(s, t.phase.id)
    ensures Inv(cfg, t)
  {
    forall id ensures SameSends(s, t, id) {
    }
    forall id | id in t.db.deliveries ensures Reports(cfg, t, id, t.db.deliveries[id]) {
      if id in s.db.deliveries {
        SameReports(cfg, s, t, id, s.db.deliveries[id]);
      }
    }
    if Held(t.phase) {
      SameReports(cfg, s, t, t.phase.id, t.phase.d);
    }
  }

  lemma LookKeeps(cfg: Config, s: Sys)
    requires Inv(cfg, s) && Next(cfg, s, Look).Some?
    ensures Inv(cfg, Next(cfg, s, Look).value)
  {
    var t := Next(cfg, s, Look).value;
    if t.phase.Loaded? {
      PendingFailed(cfg, s, t.phase.id, t.phase.d);
    }
    Frame(cfg, s, t);
  }

  lemma QuietKeeps(cfg: Config, s: Sys, step: Step)
    requires D.Inv(cfg, s) && Inv(cfg, s) && Next(cfg, s, step).Some?
    requires !step.Send? && !step.SettleSend? && !step.SettleOrphan? && !step.Look?
    ensures Inv(cfg, Next(cfg, s, step).value)
  {
    var t := Next(cfg, s, step).value;
    QuietDeliveries(cfg, s, step);
    Frame(cfg, s, t);
  }

  lemma QuietDeliveries(cfg: Config, s: Sys, step: Step)
    requires D.Inv(cfg, s) && Next(cfg, s, step).Some?
    requires !step.Send? && !step.SettleSend? && !step.SettleOrphan? && !step.Look?
    ensures
      var t := Next(cfg, s, step).value;
      && t.log == s.log && t.marked == s.marked && s.db.nextDelivery <= t.db.nextDelivery
      && (Held(t.phase) ==> Held(s.phase) && t.phase.id == s.phase.id && (t.phase.Sent? ==> t.phase == s.phase))
      && (forall id :: id in t.db.deliveries ==>
            if id in s.db.deliveries then t.db.deliveries[id] == s.db.deliveries[id]
            else t.db.deliveries[id].status.Queued? && id >= s.db.nextDelivery)
  {
  }

  lemma StepKeeps(cfg: Config, s: Sys, step: Step)
    requires D.Inv(cfg, s) && Inv(cfg, s) && Next(cfg, s, step).Some?
    ensures Inv(cfg, Next(cfg, s, step).value)
  {
    match step
    case Send(res) => SendKeeps(cfg, s, res);
    case SettleSend => SettleSendKeeps(cfg, s);
    case SettleOrphan => OrphanKeeps(cfg, s);
    case Look => LookKeeps(cfg, s);
    case _ => QuietKeeps(cfg, s, step);
  }

  lemma {:induction false} RunKeeps(cfg: Config, s: Sys, steps: seq<Step>)
    requires D.Inv(cfg, s) && Inv(cfg, s) && Run(cfg, s, steps).Some?
    ensures Inv(cfg, Run(cfg, s, steps).value)
    decreases |steps|
  {
    if steps != [] {
      StepKeeps(cfg, s, steps[0]);
      D.StepKeeps(cfg, s, steps[0]);
      RunKeeps(cfg, Next(cfg, s, steps[0]).value, steps[1..]);
    }
  }

  /**
   RESULT: in every run the row of a delivery is told by its marked sends. It is delivered exactly when one of them
   succeeded, which was then the last. It waits for a retry, or was given up for its attempts, only when every one of
   them failed, and carries the code and error of the last.
   */
  lemma RowsTold(cfg: Config, steps: seq<Step>, id: int)
    requires Run(cfg, START, steps).Some? && id in Run(cfg, START, steps).value.db.deliveries
    ensures
      var s := Run(cfg, START, steps).value;
      var d := s.db.deliveries[id];
      && Reports(cfg, s, id, d)
      && (d.status.Delivered? <==> exists i :: MarkedSend(s, id, i) && s.log[i].res.ok)
      && (d.status.Queued? || d.status.Retry? || d.status.Failed? <==> AllFailed(s, id))
  {
    RunKeeps(cfg, START, steps);
    var s := Run(cfg, START, steps).value;
    var d := s.db.deliveries[id];
    if d.Pending() {
      PendingFailed(cfg, s, id, d);
    }
  }

  /** RESULT: in every run nothing of a delivery, deleted or not, is sent again after a success that was marked. */
  lemma SuccessIsFinal(cfg: Config, steps: seq<Step>, i: nat, j: nat)
    requires Run(cfg, START, steps).Some?
    requires
      var s := Run(cfg, START, steps).value;
      i < j < |s.log| && i in s.marked && s.log[i].id == s.log[j].id
    ensures !Run(cfg, START, steps).value.log[i].res.ok
  {
    RunKeeps(cfg, START, steps);
  }
}
