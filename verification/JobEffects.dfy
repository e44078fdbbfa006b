/** What one claimed job does to the tables: the function process_once computes, and the same told row by row. */
module JobEffects {
  import opened Options
  import opened Tables
  import opened Webhooks
  import opened Protocol

  /** Database errors the refresh branch catches: in its delete, its enqueue and its mark of success, with the text of
      the exception, and the clock when one is handled. */
  datatype Faults = Faults(delete: bool, enqueue: Option<string>, mark: Option<string>, clock: Instant)

  /** What the outside world answers while one job is processed. */
  datatype Outcome = Outcome(send: SendResult, ingest: IngestResult, clock: Instant, faults: Faults)

  function DeliveryEffect(cfg: Config, db: Db, now: Instant, d: Delivery, res: SendResult): DeliveryMark {
    if Tables.Active(db, d.subscriptionId) then SendMark(cfg, now, d, res) else MarkUndeliverable(SubscriptionMissing)
  }

  function ProcessJob(cfg: Config, db: Db, now: Instant, c: Claimed, o: Outcome): Db {
    if IsRefresh(c) then RefreshJob(db, now, c, o) else DeliveryJob(cfg, db, now, c, o.send)
  }

  /** The table and the mark of the job once its re-enqueue is over. */
  function ReEnqueued(db: Db, key: string, intervalS: int, runAt: Instant, now: Instant, f: Faults): (Db, JobMark) {
    var cleared := if f.delete then db else Tables.DeletePendingJobs(db, REFRESH, key);
    if f.enqueue.Some? then (cleared, MarkRetry(f.clock + RETRY_AFTER_S, f.enqueue))
    else (Refilled(cleared, key, intervalS, runAt, now), Closing(f))
  }

  function Closing(f: Faults): JobMark {
    if f.mark.Some? then MarkRetry(f.clock + RETRY_AFTER_S, f.mark) else MarkDone
  }

  function RefreshJob(db: Db, now: Instant, c: Claimed, o: Outcome): Db {
    match AfterIngest(now, [c], o.ingest, o.clock)
    case Replacing(_, _, key, intervalS, runAt) =>
      var (after, mark) := ReEnqueued(db, key, intervalS, runAt, now, o.faults);
      Tables.MarkJob(after, c.id, mark, now)
    case Settling(_, _, mark) => Tables.MarkJob(db, c.id, if mark.MarkDone? then Closing(o.faults) else mark, now)
    case _ => db
  }

  function DeliveryJob(cfg: Config, db: Db, now: Instant, c: Claimed, res: SendResult): Db {
    match LookAt(db, now, [c])
    case Loaded(_, _, id, d) =>
      Tables.MarkJob(MarkDelivery(db, id, DeliveryEffect(cfg, db, now, d, res), now), c.id, MarkDone, now)
    case Settling(_, _, mark) => Tables.MarkJob(db, c.id, mark, now)
    case _ => db
  }

  // ----- what one job leaves, row by row -----

  /** Row e is row d after its send was answered at now. */
  predicate Answered(cfg: Config, now: Instant, d: Delivery, res: SendResult, e: Delivery) {
    && e.subscriptionId == d.subscriptionId && e.customerId == d.customerId
    && e.eventType == d.eventType && e.eventId == d.eventId && e.payloadJson == d.payloadJson
    && e.createdAt == d.createdAt
    && e.lastAttemptAt == Some(now) && e.updatedAt == now && !e.status.Queued?
    && (e.status.Delivered? <==> res.ok)
    && (e.status.Failed? <==> !res.ok && d.attempts + 1 >= cfg.maxAttempts)
    && (e.status.Delivered? ==> e.lastStatusCode == Some(res.statusCode.GetOr(0)) && e.lastError == d.lastError)
    && (e.status.Failed? ==> e.lastStatusCode == d.lastStatusCode && e.lastError == SendError(res.error))
    && (e.status.Retry? ==> e.lastStatusCode == res.statusCode && e.lastError == SendError(res.error))
    && (if e.status.Retry?
        then e.attempts == d.attempts + 1 && DelayOk(cfg, now, d.attempts, e.nextAttemptAt)
        else e.attempts == d.attempts && e.nextAttemptAt == d.nextAttemptAt)
  }

  predicate DelayOk(cfg: Config, now: Instant, attempts: int, next: Instant) {
    now + FloorDelay(cfg.retryBaseS, attempts) <= next <= now + FloorDelay(cfg.retryBaseS, attempts) + 1
  }

  /** Row e is row d given up for want of a subscription. */
  predicate Orphaned(now: Instant, d: Delivery, e: Delivery) {
    e == d.(status := Failed, lastAttemptAt := Some(now), lastError := SubscriptionMissing, updatedAt := now)
  }

  /** Everything is as it was except the row of one job, if it is there: done. */
  ghost predicate JobDoneOnly(before: map<int, Job>, after: map<int, Job>, id: int, now: Instant) {
    && after.Keys == before.Keys
    && (forall k :: k in before ==>
          after[k] == if k == id then before[k].(status := JobDone, updatedAt := now) else before[k])
  }

  /** The same, put off until an instant. */
  ghost predicate JobPutOff(before: map<int, Job>, after: map<int, Job>, id: int, now: Instant, until: Instant,
        error: Option<string>) {
    && after.Keys == before.Keys
    && (forall k :: k in before ==>
          after[k] == if k == id
                      then before[k].(status := JobRetry, attempts := before[k].attempts + 1, runAt := until,
                                      lastError := error, updatedAt := now)
                      else before[k])
  }

  /** What a delivery job does to the delivery it names. */
  ghost predicate DeliveryTold(cfg: Config, before: Db, after: Db, now: Instant, id: int, res: SendResult) {
    && after.deliveries.Keys == before.deliveries.Keys
    && (forall k :: k in before.deliveries && k != id ==> after.deliveries[k] == before.deliveries[k])
    && (id in before.deliveries ==>
          var d, e := before.deliveries[id], after.deliveries[id];
          if d.status.Delivered? || d.status.Failed? || d.nextAttemptAt > now then e == d
          else if d.subscriptionId in before.subs && before.subs[d.subscriptionId].active
          then Answered(cfg, now, d, res, e) else Orphaned(now, d, e))
  }

  /** And what becomes of the job: put off exactly when its delivery is not due yet, else done. */
  ghost predicate DeliveryJobTold(before: Db, after: Db, now: Instant, id: int, job: int) {
    if id in before.deliveries && (before.deliveries[id].status.Queued? || before.deliveries[id].status.Retry?)
       && before.deliveries[id].nextAttemptAt > now
    then JobPutOff(before.jobs, after.jobs, job, now, before.deliveries[id].nextAttemptAt, None)
    else JobDoneOnly(before.jobs, after.jobs, job, now)
  }

  lemma SendAnswered(cfg: Config, now: Instant, d: Delivery, res: SendResult)
    ensures Answered(cfg, now, d, res, Settled(d, SendMark(cfg, now, d, res), now))
  {
    DelayIsFloor(cfg.retryBaseS, d.attempts);
  }

  /** RESULT: a delivery job, told by the rows alone: which result of the send leads to which row, the job done. */
  lemma DeliveryJobExact(cfg: Config, db: Db, now: Instant, c: Claimed, id: int, res: SendResult)
    requires c.jobType == WEBHOOK && c.payload.Object? && c.payload.deliveryId == Whole(id)
    ensures
      var after := DeliveryJob(cfg, db, now, c, res);
      && DeliveryTold(cfg, db, after, now, id, res) && DeliveryJobTold(db, after, now, id, c.id)
      && after.subs == db.subs && after.nextJob == db.nextJob && after.nextDelivery == db.nextDelivery
  {
    if id in db.deliveries {
      SendAnswered(cfg, now, db.deliveries[id], res);
    }
  }

  /** The refresh ran: its payload is a dict with a usable interval or none, and nothing raised. */
  predicate Refreshed(c: Claimed, o: Outcome) {
    c.payload.Object? && !c.payload.intervalS.NotANumber? && o.ingest.ok
  }

  /** A row of the key that the re-enqueue replaces. */
  predicate Superseded(j: Job, key: string) {
    j.jobType == "ingest_refresh" && j.jobKey == Some(key) && (j.status.JobQueued? || j.status.JobRetry?)
  }

  /** The key a refresh works on. */
  predicate WorksOn(c: Claimed, key: string) {
    if c.payload.Object? && c.payload.key.Some? && c.payload.key.value != "" then key == c.payload.key.value
    else if c.jobKey != "" then key == c.jobKey else key == "__global__"
  }

  /** The job's own row afterwards: done, or put off for a minute when the database raised. */
  predicate ClosedRow(j: Job, after: Job, now: Instant, error: Option<string>, clock: Instant) {
    if error.None? then after == j.(status := JobDone, updatedAt := now)
    else after == j.(status := JobRetry, attempts := j.attempts + 1, runAt := clock + 60, lastError := error,
                     updatedAt := now)
  }

  /** A refresh that carries an interval: the key's pending refreshes are gone, a new one is due an interval after the
      refresh ended, and the job is done, up to the errors met on the way. */
  ghost predicate ReEnqueuedTold(before: Db, after: Db, now: Instant, c: Claimed, key: string, interval: int,
        o: Outcome) {
    var f := o.faults;
    && (forall k :: k in after.jobs <==>
          || (k in before.jobs && (f.delete || !Superseded(before.jobs[k], key)))
          || (k == before.nextJob && f.enqueue.None?))
    && after.nextJob == before.nextJob + (if f.enqueue.None? then 1 else 0)
    && (forall k :: k in after.jobs && k < before.nextJob ==>
          if k == c.id
          then ClosedRow(before.jobs[k], after.jobs[k], now, if f.enqueue.Some? then f.enqueue else f.mark, f.clock)
          else after.jobs[k] == before.jobs[k])
    && (f.enqueue.None? ==>
          after.jobs[before.nextJob] ==
            Job("ingest_refresh", Some(key), Object(Some(key), None, Whole(interval), Missing), JobQueued, 0,
                o.clock + interval, None, None, now, now))
  }

  /** What a refresh job leaves of the jobs table. */
  ghost predicate RefreshTold(before: Db, after: Db, now: Instant, c: Claimed, o: Outcome) {
    if !Refreshed(c, o) then JobPutOff(before.jobs, after.jobs, c.id, now, o.clock + 60, Some(o.ingest.error))
    else if c.payload.intervalS.Missing? then
      if o.faults.mark.None? then JobDoneOnly(before.jobs, after.jobs, c.id, now)
      else JobPutOff(before.jobs, after.jobs, c.id, now, o.faults.clock + 60, o.faults.mark)
    else exists key :: WorksOn(c, key) && ReEnqueuedTold(before, after, now, c, key, c.payload.intervalS.n, o)
  }

  /** Job ids, the claimed one included, lie below the counter. */
  predicate JobIdsOk(db: Db, c: Claimed) {
    c.id < db.nextJob && forall id :: id in db.jobs ==> id < db.nextJob
  }

  /** The table before the job's own row is marked. */
  ghost predicate RowsReplaced(before: Db, after: Db, key: string, interval: int, runAt: Instant, now: Instant,
        f: Faults) {
    && (forall k :: k in after.jobs <==>
          || (k in before.jobs && (f.delete || !Superseded(before.jobs[k], key)))
          || (k == before.nextJob && f.enqueue.None?))
    && after.nextJob == before.nextJob + (if f.enqueue.None? then 1 else 0)
    && (forall k :: k in after.jobs && k < before.nextJob ==> after.jobs[k] == before.jobs[k])
    && (f.enqueue.None? ==>
          after.jobs[before.nextJob] ==
            Job("ingest_refresh", Some(key), Object(Some(key), None, Whole(interval), Missing), JobQueued, 0,
                runAt, None, None, now, now))
  }

  lemma ReEnqueueRows(db: Db, key: string, interval: int, runAt: Instant, now: Instant, f: Faults)
    requires forall id :: id in db.jobs ==> id < db.nextJob
    ensures RowsReplaced(db, ReEnqueued(db, key, interval, runAt, now, f).0, key, interval, runAt, now, f)
  {
  }

  lemma ReEnqueueMarked(before: Db, mid: Db, now: Instant, c: Claimed, key: string, interval: int, o: Outcome,
        mark: JobMark)
    requires JobIdsOk(before, c) && RowsReplaced(before, mid, key, interval, o.clock + interval, now, o.faults)
    requires
      var error := if o.faults.enqueue.Some? then o.faults.enqueue else o.faults.mark;
      mark == if error.None? then MarkDone else MarkRetry(o.faults.clock + 60, error)
    ensures ReEnqueuedTold(before, Tables.MarkJob(mid, c.id, mark, now), now, c, key, interval, o)
  {
  }

  /** A re-enqueueing job in two moves. */
  lemma InTwoMoves(db: Db, now: Instant, c: Claimed, o: Outcome) returns (mid: Db, mark: JobMark)
    requires IsRefresh(c) && Refreshed(c, o) && c.payload.intervalS.Whole?
    ensures
      var n := c.payload.intervalS.n;
      (mid, mark) == ReEnqueued(db, RefreshKey(c), n, o.clock + n, now, o.faults)
    ensures RefreshJob(db, now, c, o) == Tables.MarkJob(mid, c.id, mark, now)
    ensures
      var error := if o.faults.enqueue.Some? then o.faults.enqueue else o.faults.mark;
      mark == if error.None? then MarkDone else MarkRetry(o.faults.clock + 60, error)
  {
    var n := c.payload.intervalS.n;
    var moves := ReEnqueued(db, RefreshKey(c), n, o.clock + n, now, o.faults);
    mid, mark := moves.0, moves.1;
  }

  lemma ReEnqueueExact(db: Db, now: Instant, c: Claimed, o: Outcome)
    requires IsRefresh(c) && JobIdsOk(db, c) && Refreshed(c, o) && c.payload.intervalS.Whole?
    ensures ReEnqueuedTold(db, RefreshJob(db, now, c, o), now, c, RefreshKey(c), c.payload.intervalS.n, o)
  {
    var n, key := c.payload.intervalS.n, RefreshKey(c);
    var mid, mark := InTwoMoves(db, now, c, o);
    assert RowsReplaced(db, mid, key, n, o.clock + n, now, o.faults) by {
      ReEnqueueRows(db, key, n, o.clock + n, now, o.faults);
    }
    ReEnqueueMarked(db, mid, now, c, key, n, o, mark);
  }

  lemma PlainRefreshExact(db: Db, now: Instant, c: Claimed, o: Outcome)
    requires IsRefresh(c) && !(Refreshed(c, o) && c.payload.intervalS.Whole?)
    ensures RefreshTold(db, RefreshJob(db, now, c, o), now, c, o)
  {
  }

  /** RESULT: a refresh job, told by the rows alone: failed ones wait a minute, scheduled ones come back an interval
      after they ended, under the key of the payload, else of the job. */
  lemma RefreshJobExact(db: Db, now: Instant, c: Claimed, o: Outcome)
    requires IsRefresh(c) && JobIdsOk(db, c)
    ensures
      var after := RefreshJob(db, now, c, o);
      && RefreshTold(db, after, now, c, o)
      && after.deliveries == db.deliveries && after.nextDelivery == db.nextDelivery && after.subs == db.subs
  {
    if Refreshed(c, o) && c.payload.intervalS.Whole? {
      ReEnqueueExact(db, now, c, o);
      assert WorksOn(c, RefreshKey(c));
    } else {
      PlainRefreshExact(db, now, c, o);
    }
  }

  /** Only the job's own row changed: it failed for this reason. */
  ghost predicate JobFailedOnly(before: Db, after: Db, id: int, now: Instant, reason: string) {
    && after == before.(jobs := after.jobs) && after.jobs.Keys == before.jobs.Keys
    && (forall k :: k in before.jobs ==>
          after.jobs[k] ==
            if k == id then before.jobs[k].(status := JobFailed, lastError := Some(reason), updatedAt := now)
            else before.jobs[k])
  }

  lemma BadJobExact(cfg: Config, db: Db, now: Instant, c: Claimed, o: Outcome)
    requires !IsRefresh(c) && (c.jobType == WEBHOOK ==> !(c.payload.Object? && c.payload.deliveryId.Whole?))
    ensures
      var reason :=
        if !c.payload.BadJson? && c.jobType != "webhook_delivery" then "unknown_job_type" else "bad_payload";
      JobFailedOnly(db, ProcessJob(cfg, db, now, c, o), c.id, now, reason)
  {
  }

  /** What the body of the loop over claimed jobs leaves, told without the functions that compute it. */
  ghost predicate JobTold(cfg: Config, before: Db, after: Db, now: Instant, c: Claimed, o: Outcome) {
    if c.payload.BadJson? then JobFailedOnly(before, after, c.id, now, "bad_payload")
    else if c.jobType == "ingest_refresh" then
      RefreshTold(before, after, now, c, o) && after == before.(jobs := after.jobs, nextJob := after.nextJob)
    else if c.jobType != "webhook_delivery" then JobFailedOnly(before, after, c.id, now, "unknown_job_type")
    else if c.payload.Object? && c.payload.deliveryId.Whole? then
      && DeliveryTold(cfg, before, after, now, c.payload.deliveryId.n, o.send)
      && DeliveryJobTold(before, after, now, c.payload.deliveryId.n, c.id)
      && after == before.(jobs := after.jobs, deliveries := after.deliveries)
    else JobFailedOnly(before, after, c.id, now, "bad_payload")
  }

  /** RESULT: every kind of job, told by the rows alone. */
  lemma JobExact(cfg: Config, db: Db, now: Instant, c: Claimed, o: Outcome)
    requires JobIdsOk(db, c)
    ensures JobTold(cfg, db, ProcessJob(cfg, db, now, c, o), now, c, o)
  {
    if IsRefresh(c) {
      RefreshJobExact(db, now, c, o);
    } else if c.jobType == WEBHOOK && c.payload.Object? && c.payload.deliveryId.Whole? {
      DeliveryJobExact(cfg, db, now, c, c.payload.deliveryId.n, o.send);
    } else {
      BadJobExact(cfg, db, now, c, o);
    }
  }
}
