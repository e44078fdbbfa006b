/**
 The job, delivery and subscription tables as values, and the effect of each database statement on them.
 Instants are whole seconds; module Timestamps proves that comparing the stored texts compares these.
 */
module Tables {
  import opened Options

  type Instant = int

  datatype JobStatus = JobQueued | JobRetry | JobDone | JobFailed

  /** A JSON member read with int(): absent, a whole number, or something int() rejects. */
  datatype Number = Missing | Whole(n: int) | NotANumber

  /** What json.loads makes of payload_json, reduced to the members the worker reads. */
  datatype Payload =
    | BadJson
    | NotAnObject
    | Object(key: Option<string>, retrievalTs: Option<string>, intervalS: Number, deliveryId: Number)

  datatype Job = Job(
    jobType: string,
    jobKey: Option<string>,
    payload: Payload,
    status: JobStatus,
    attempts: int,
    runAt: Instant,
    lastError: Option<string>,
    lockedUntil: Option<Instant>,
    createdAt: Instant,
    updatedAt: Instant)
  {
    predicate Pending() {
      status.JobQueued? || status.JobRetry?
    }

    predicate Claimable(now: Instant) {
      Pending() && runAt <= now && (lockedUntil.None? || lockedUntil.value <= now)
    }
  }

  datatype DeliveryStatus = Queued | Retry | Delivered | Failed

  datatype DeliveryError = NoError | SubscriptionMissing | SendError(reason: Option<string>)

  datatype Delivery = Delivery(
    subscriptionId: string,
    customerId: string,
    eventType: string,
    eventId: string,
    payloadJson: string,
    status: DeliveryStatus,
    attempts: int,
    nextAttemptAt: Instant,
    lastAttemptAt: Option<Instant>,
    lastStatusCode: Option<int>,
    lastError: DeliveryError,
    createdAt: Instant,
    updatedAt: Instant)
  {
    predicate Pending() {
      status.Queued? || status.Retry?
    }
  }

  datatype Subscription = Subscription(
    customerId: string, url: string, secret: string, events: seq<string>, active: bool, createdAt: Instant)

  /** nextJob and nextDelivery are the AUTOINCREMENT counters: ids are never reused. */
  datatype Db = Db(
    jobs: map<int, Job>,
    nextJob: int,
    deliveries: map<int, Delivery>,
    nextDelivery: int,
    subs: map<string, Subscription>)

  const EMPTY_DB := Db(map[], 1, map[], 1, map[])

  /** A row returned by claim_due_jobs: the columns as they were when the claim selected them. */
  datatype Claimed = Claimed(id: int, jobType: string, jobKey: string, payload: Payload)

  function Clamp(lo: int, x: int, hi: int): int {
    if x < lo then lo else if x > hi then hi else x
  }

  // ----- jobs -----

  function EnqueueJob(db: Db, jobType: string, jobKey: Option<string>, payload: Payload, runAt: Instant,
        now: Instant): Db {
    var job := Job(jobType, jobKey, payload, JobQueued, 0, runAt, None, None, now, now);
    db.(jobs := db.jobs[db.nextJob := job], nextJob := db.nextJob + 1)
  }

  function ClaimableKeys(db: Db, now: Instant): map<int, Instant> {
    map id | id in db.jobs && db.jobs[id].Claimable(now) :: db.jobs[id].runAt
  }

  function LockJobs(db: Db, ids: seq<int>, lockedUntil: Instant, now: Instant): Db {
    db.(jobs := map id | id in db.jobs ::
      if id in ids then db.jobs[id].(lockedUntil := Some(lockedUntil), updatedAt := now) else db.jobs[id])
  }

  function ClaimedRow(db: Db, id: int): Claimed
    requires id in db.jobs
  {
    var j := db.jobs[id];
    Claimed(id, j.jobType, j.jobKey.GetOr(""), j.payload)
  }

  function ClaimedRows(db: Db, ids: seq<int>): (rows: seq<Claimed>)
    requires forall i :: 0 <= i < |ids| ==> ids[i] in db.jobs
    ensures |rows| == |ids|
    ensures forall i :: 0 <= i < |ids| ==> rows[i] == ClaimedRow(db, ids[i])
  {
    seq(|ids|, i requires 0 <= i < |ids| => ClaimedRow(db, ids[i]))
  }

  function DeletePendingJobs(db: Db, jobType: string, jobKey: string): Db {
    db.(jobs := map id | id in db.jobs && !Matches(db.jobs[id], jobType, jobKey) :: db.jobs[id])
  }

  predicate Matches(j: Job, jobType: string, jobKey: string) {
    j.jobType == jobType && j.jobKey == Some(jobKey) && j.Pending()
  }

  function ReleaseExpired(db: Db, now: Instant): Db {
    db.(jobs := map id | id in db.jobs ::
      var j := db.jobs[id];
      if j.Pending() && j.lockedUntil.Some? && j.lockedUntil.value < now
      then j.(lockedUntil := None, updatedAt := now) else j)
  }

  function DeleteJobsBefore(db: Db, cutoff: Instant, statuses: seq<JobStatus>): Db {
    db.(jobs := map id | id in db.jobs && !(db.jobs[id].updatedAt < cutoff && db.jobs[id].status in statuses)
        :: db.jobs[id])
  }

  /** The three unconditional job updates by id; an absent id updates nothing. */
  datatype JobMark = MarkDone | MarkRetry(runAt: Instant, error: Option<string>) | MarkFailed(reason: Option<string>)

  function Marked(j: Job, mark: JobMark, now: Instant): Job {
    match mark
    case MarkDone => j.(status := JobDone, updatedAt := now)
    case MarkRetry(runAt, error) =>
      j.(status := JobRetry, attempts := j.attempts + 1, runAt := runAt, lastError := error, updatedAt := now)
    case MarkFailed(reason) => j.(status := JobFailed, lastError := reason, updatedAt := now)
  }

  function MarkJob(db: Db, id: int, mark: JobMark, now: Instant): Db {
    if id in db.jobs then db.(jobs := db.jobs[id := Marked(db.jobs[id], mark, now)]) else db
  }

  // ----- deliveries and subscriptions -----

  function NewDelivery(subscriptionId: string, customerId: string, eventType: string, eventId: string,
        payloadJson: string, now: Instant): Delivery {
    Delivery(subscriptionId, customerId, eventType, eventId, payloadJson, Queued, 0, now, None, None, NoError, now, now)
  }

  function EnqueueDelivery(db: Db, d: Delivery): Db {
    db.(deliveries := db.deliveries[db.nextDelivery := d], nextDelivery := db.nextDelivery + 1)
  }

  function DueKeys(db: Db, now: Instant): map<int, Instant> {
    map id | id in db.deliveries && db.deliveries[id].Pending() && db.deliveries[id].nextAttemptAt <= now ::
      db.deliveries[id].nextAttemptAt
  }

  datatype DeliveryMark =
    | MarkDelivered(statusCode: int)
    | MarkAgain(nextAttemptAt: Instant, code: Option<int>, reason: Option<string>)
    | MarkUndeliverable(error: DeliveryError)

  function Settled(d: Delivery, mark: DeliveryMark, now: Instant): Delivery {
    match mark
    case MarkDelivered(code) =>
      d.(status := Delivered, lastAttemptAt := Some(now), lastStatusCode := Some(code), updatedAt := now)
    case MarkAgain(next, code, reason) =>
      d.(status := Retry, attempts := d.attempts + 1, nextAttemptAt := next, lastAttemptAt := Some(now),
         lastStatusCode := code, lastError := SendError(reason), updatedAt := now)
    case MarkUndeliverable(error) =>
      d.(status := Failed, lastAttemptAt := Some(now), lastError := error, updatedAt := now)
  }

  function MarkDelivery(db: Db, id: int, mark: DeliveryMark, now: Instant): Db {
    if id in db.deliveries then db.(deliveries := db.deliveries[id := Settled(db.deliveries[id], mark, now)]) else db
  }

  function CreateSubscription(db: Db, id: string, sub: Subscription): Db {
    if id in db.subs then db else db.(subs := db.subs[id := sub])
  }

  predicate OwnedBy(db: Db, id: string, customerId: string) {
    id in db.subs && db.subs[id].customerId == customerId
  }

  function DeleteSubscription(db: Db, id: string, customerId: string): Db {
    db.(deliveries := map k | k in db.deliveries &&
                              !(db.deliveries[k].subscriptionId == id && db.deliveries[k].customerId == customerId)
                                  :: db.deliveries[k],
        subs := if OwnedBy(db, id, customerId) then db.subs - {id} else db.subs)
  }

  predicate Active(db: Db, subscriptionId: string) {
    subscriptionId in db.subs && db.subs[subscriptionId].active
  }
}
