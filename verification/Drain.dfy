/** Rounds of admin_run_webhook_deliveries then process_once bring a delivery to an end in bounded time. */
module Drain {
  import opened Options
  import opened Selection
  import opened Tables
  import opened Protocol
  import opened DeliveryAccounting
  import opened JobEffects
  import opened Worker
  import opened Emission
  import opened Decimal

  /** d2 can be d1 after some worker activity: over, or at least as far on and still below the cap. */
  predicate Advanced(cfg: Config, d1: Delivery, d2: Delivery, sends: int) {
    && d2.subscriptionId == d1.subscriptionId
    && (d2.Pending() ==> d1.Pending() && d1.attempts + sends <= d2.attempts < Cap(cfg))
    && (!d1.Pending() ==> d2 == d1)
  }

  /** The row is untouched or has advanced by a send. */
  predicate SameOrAdvanced(cfg: Config, d1: Delivery, d2: Delivery) {
    d2 == d1 || Advanced(cfg, d1, d2, 1)
  }

  predicate Targets(c: Claimed, id: int) {
    c.jobType == WEBHOOK && c.payload.Object? && c.payload.deliveryId == Whole(id)
  }

  predicate Deliverable(db: Db, id: int) {
    id in db.deliveries && Tables.Active(db, db.deliveries[id].subscriptionId)
  }

  lemma OneJob(cfg: Config, db: Db, now: Instant, c: Claimed, o: Outcome, id: int)
    requires Deliverable(db, id)
    ensures
      var after := ProcessJob(cfg, db, now, c, o);
      && after.subs == db.subs && id in after.deliveries
      && SameOrAdvanced(cfg, db.deliveries[id], after.deliveries[id])
      && (Targets(c, id) && db.deliveries[id].Pending() && db.deliveries[id].nextAttemptAt <= now ==>
            Advanced(cfg, db.deliveries[id], after.deliveries[id], 1))
  {
  }

  /** Whatever else is in the batch, a due delivery with a job in it gets at least one send. */
  lemma {:induction false} WholeBatch(cfg: Config, db: Db, now: Instant, jobs: seq<Claimed>, outcomes: nat -> Outcome,
        id: int)
    requires Deliverable(db, id)
    ensures
      var after := ProcessAll(cfg, db, now, jobs, outcomes);
      && after.subs == db.subs && id in after.deliveries
      && SameOrAdvanced(cfg, db.deliveries[id], after.deliveries[id])
      && ((exists i :: 0 <= i < |jobs| && Targets(jobs[i], id))
          && db.deliveries[id].Pending() && db.deliveries[id].nextAttemptAt <= now ==>
            Advanced(cfg, db.deliveries[id], after.deliveries[id], 1))
    decreases |jobs|
  {
    if jobs != [] {
      var front, last := jobs[..|jobs| - 1], jobs[|jobs| - 1];
      WholeBatch(cfg, db, now, front, outcomes, id);
      var mid := ProcessAll(cfg, db, now, front, outcomes);
      OneJob(cfg, mid, now, last, outcomes(|jobs| - 1), id);
      if (exists i :: 0 <= i < |jobs| && Targets(jobs[i], id)) && !Targets(last, id) {
        var i :| 0 <= i < |jobs| && Targets(jobs[i], id);
        assert Targets(front[i], id);
      }
    }
  }

  /** A job that process_once will claim at any instant from now on. */
  predicate Ready(j: Job, id: int, now: Instant) {
    j.jobType == WEBHOOK && j.payload == DeliveryPayload(id) && j.jobKey == Some(IntText(id)) &&
    j.Pending() && j.runAt == now && j.lockedUntil.None?
  }

  lemma {:induction false} QueuedIsReady(db: Db, ids: seq<int>, now: Instant, id: int) returns (k: int)
    requires id in ids
    ensures
      var after := QueueAll(db, ids, now);
      k < after.nextJob && k in after.jobs && Ready(after.jobs[k], id, now)
    decreases |ids|
  {
    var front, last := ids[..|ids| - 1], ids[|ids| - 1];
    var mid := QueueAll(db, front, now);
    if last == id {
      k := mid.nextJob;
    } else {
      assert id in front;
      k := QueuedIsReady(db, front, now, id);
      if IntText(last) == IntText(id) {
        IntTextInjective(last, id);
      }
    }
  }

  lemma {:induction false} QueueKeeps(db: Db, ids: seq<int>, now: Instant)
    ensures QueueAll(db, ids, now).deliveries == db.deliveries && QueueAll(db, ids, now).subs == db.subs
    decreases |ids|
  {
    if ids != [] {
      QueueKeeps(db, ids[..|ids| - 1], now);
    }
  }

  // ----- one round -----

  /** before is the database the round starts from; the rest are the answers its calls got. */
  datatype Round = Round(
    before: Db, now: Instant, limit: int, due: seq<int>,
    tickAt: Instant, lockedUntil: Instant, claimed: seq<int>, outcomes: nat -> Outcome)

  function Queued(r: Round): Db {
    QueueAll(r.before, r.due, r.now)
  }

  /** The calls answered correctly, neither limit was reached, the tick is not before the run, the subscription is
      active. */
  ghost predicate RoundOk(r: Round, id: int) {
    var found := ReleaseExpired(Queued(r), r.tickAt);
    && Deliverable(r.before, id)
    && (r.before.deliveries[id].Pending() ==> r.before.deliveries[id].nextAttemptAt <= r.now)
    && IsTop(DueKeys(r.before, r.now), Clamp(1, r.limit, 500), r.due)
    && |DueKeys(r.before, r.now)| <= Clamp(1, r.limit, 500)
    && r.now <= r.tickAt
    && ClaimIsTop(found, r.tickAt, r.claimed)
    && |ClaimableKeys(found, r.tickAt)| <= CLAIM_LIMIT
  }

  function After(cfg: Config, r: Round): Db
    requires ClaimIsTop(ReleaseExpired(Queued(r), r.tickAt), r.tickAt, r.claimed)
  {
    Tick(cfg, Queued(r), r.tickAt, r.lockedUntil, r.claimed, r.outcomes)
  }

  lemma OneRound(cfg: Config, r: Round, id: int)
    requires RoundOk(r, id)
    ensures
      var after := After(cfg, r);
      id in after.deliveries && Advanced(cfg, r.before.deliveries[id], after.deliveries[id], 1)
  {
    QueueKeeps(r.before, r.due, r.now);
    var found := ReleaseExpired(Queued(r), r.tickAt);
    var locked := LockJobs(found, r.claimed, r.lockedUntil, r.tickAt);
    var rows := ClaimedRows(found, r.claimed);
    WholeBatch(cfg, locked, r.tickAt, rows, r.outcomes, id);
    if r.before.deliveries[id].Pending() {
      TopIsAll(DueKeys(r.before, r.now), Clamp(1, r.limit, 500), r.due);
      assert id in DueKeys(r.before, r.now);
      var k := QueuedIsReady(r.before, r.due, r.now, id);
      assert k in ClaimableKeys(found, r.tickAt);
      TopIsAll(ClaimableKeys(found, r.tickAt), CLAIM_LIMIT, r.claimed);
      var i :| 0 <= i < |r.claimed| && r.claimed[i] == k;
      assert Targets(rows[i], id);
    }
  }

  // ----- many rounds -----

  /** Between rounds anything may happen except to this delivery row. */
  ghost predicate RoundsOk(cfg: Config, rs: seq<Round>, id: int) {
    && (forall i :: 0 <= i < |rs| ==> RoundOk(rs[i], id))
    && (forall i, j :: 0 <= i && j == i + 1 < |rs| ==>
          id in After(cfg, rs[i]).deliveries && rs[j].before.deliveries[id] == After(cfg, rs[i]).deliveries[id])
  }

  /** What a round does to the row of the delivery, end to end. */
  datatype Leg = Leg(from: Delivery, to: Delivery)

  ghost function LegOf(cfg: Config, r: Round, id: int): Leg
    requires RoundOk(r, id)
  {
    OneRound(cfg, r, id);
    Leg(r.before.deliveries[id], After(cfg, r).deliveries[id])
  }

  lemma {:induction false} AdvanceAdds(cfg: Config, legs: seq<Leg>)
    requires legs != []
    requires forall i :: 0 <= i < |legs| ==> Advanced(cfg, legs[i].from, legs[i].to, 1)
    requires forall i, j :: 0 <= i && j == i + 1 < |legs| ==> legs[j].from == legs[i].to
    ensures Advanced(cfg, legs[0].from, legs[|legs| - 1].to, |legs|)
    decreases |legs|
  {
    if |legs| > 1 {
      AdvanceAdds(cfg, legs[..|legs| - 1]);
    }
  }

  /** RESULT: max_attempts - attempt_count rounds, at least one, leave the delivery delivered or failed. */
  lemma DrainBound(cfg: Config, rs: seq<Round>, id: int)
    requires RoundsOk(cfg, rs, id) && rs != []
    requires |rs| >= cfg.maxAttempts - rs[0].before.deliveries[id].attempts
    requires rs[0].before.deliveries[id].attempts >= 0
    ensures
      var after := After(cfg, rs[|rs| - 1]);
      id in after.deliveries && !after.deliveries[id].Pending()
  {
    forall i | 0 <= i < |rs|
      ensures id in After(cfg, rs[i]).deliveries
      ensures Advanced(cfg, rs[i].before.deliveries[id], After(cfg, rs[i]).deliveries[id], 1)
    {
      OneRound(cfg, rs[i], id);
    }
    AdvanceAdds(cfg, seq(|rs|, i requires 0 <= i < |rs| => LegOf(cfg, rs[i], id)));
  }
}
