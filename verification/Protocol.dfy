/**
 One worker interleaved with API calls, as a machine whose steps are single database transactions or one send.
 The result of a send or of an ingest, every clock reading and every API argument is an input of its step.
 */
module Protocol {
  import opened Options
  import opened Selection
  import opened Tables
  import opened Webhooks

  datatype Config = Config(maxAttempts: int, retryBaseS: real)

  const REFRESH := "ingest_refresh"
  const WEBHOOK := "webhook_delivery"
  const GLOBAL_KEY := "__global__"
  const RETRY_AFTER_S := 60

  /** ingest_func returned or raised; error is the text of any exception raised on the way. */
  datatype IngestResult = IngestResult(ok: bool, error: string)

  /** Where the worker is inside process_once; todo[0] is the job being processed. */
  datatype Phase =
    | Idle
    | Batch(now: Instant, todo: seq<Claimed>)
    | Loaded(now: Instant, todo: seq<Claimed>, id: int, d: Delivery)    // delivery read: pending and due
    | Orphaned(now: Instant, todo: seq<Claimed>, id: int, d: Delivery)  // its subscription is gone or inactive
    | Cleared(now: Instant, todo: seq<Claimed>, id: int, d: Delivery)   // its subscription is active
    | Sent(now: Instant, todo: seq<Claimed>, id: int, d: Delivery, res: SendResult)
    | Replacing(now: Instant, todo: seq<Claimed>, key: string, intervalS: int, runAt: Instant)  // about to delete
    | Refilling(now: Instant, todo: seq<Claimed>, key: string, intervalS: int, runAt: Instant)  // about to enqueue
    | Settling(now: Instant, todo: seq<Claimed>, mark: JobMark)         // only the job row is left to mark
  {
    function Todo(): seq<Claimed> {
      if Idle? then [] else todo
    }
  }

  /** A send, with the tick instant, the row it was made from and its result; lost counts earlier sends of it that were
      never marked. */
  datatype SendEvent = SendEvent(id: int, now: Instant, createdAt: Instant, attempts: int, lost: nat, res: SendResult)

  /** log is every send made, marked the positions in it of those whose mark was then written. */
  datatype Sys = Sys(db: Db, phase: Phase, log: seq<SendEvent>, lost: multiset<int>, marked: set<int>)

  const START := Sys(EMPTY_DB, Idle, [], multiset{}, {})

  datatype Step =
    | Subscribe(id: string, sub: Subscription)
    | Unsubscribe(id: string, customerId: string)
    | InsertDelivery(subscriptionId: string, customerId: string, eventType: string, eventId: string,
        payloadJson: string, now: Instant)
    | DropDeliveryJobs(key: string)
    | QueueDeliveryJob(key: string, payload: Payload, runAt: Instant, now: Instant)
    | RefreshNow(key: string, retrievalTs: Option<string>, now: Instant)
    | Schedule(key: string, intervalS: int, now: Instant)
    | Unschedule(key: string)
    | CollectJobs(cutoff: Instant)
    | Release(now: Instant)
    | Claim(now: Instant, lockedUntil: Instant, ids: seq<int>)
    | Look
    | CheckSubscription
    | SettleOrphan
    | Send(res: SendResult)
    | SettleSend
    | Ingest(result: IngestResult, clock: Instant)
    | Clear(ok: bool)  // the delete; an error in it is swallowed
    | Refill
    | Overturn(clock: Instant, error: string)
    | SettleJob
    | Finish
    | Crash

  // ----- what one job does -----

  /** The key a refresh works on: payload key, else job key, else the global key, skipping empty ones. */
  function RefreshKey(c: Claimed): string {
    if c.payload.Object? && c.payload.key.GetOr("") != "" then c.payload.key.value
    else if c.jobKey != "" then c.jobKey
    else GLOBAL_KEY
  }

  function RefreshPayload(key: string, retrievalTs: Option<string>, intervalS: Number): Payload {
    Object(Some(key), retrievalTs, intervalS, Missing)
  }

  /** The worker's re-enqueue of a scheduled refresh. */
  function Refilled(db: Db, key: string, intervalS: int, runAt: Instant, now: Instant): Db {
    Tables.EnqueueJob(db, REFRESH, Some(key), RefreshPayload(key, None, Whole(intervalS)), runAt, now)
  }

  /** delete_pending_jobs then enqueue_job for one refresh key. */
  function ReplaceRefresh(db: Db, key: string, payload: Payload, runAt: Instant, now: Instant): Db {
    Tables.EnqueueJob(Tables.DeletePendingJobs(db, REFRESH, key), REFRESH, Some(key), payload, runAt, now)
  }

  predicate IsRefresh(c: Claimed) {
    c.jobType == REFRESH && !c.payload.BadJson?
  }

  /** Everything a non-refresh job can turn out to be once its delivery has been read. */
  function LookAt(db: Db, now: Instant, todo: seq<Claimed>): Phase
    requires todo != []
  {
    var c := todo[0];
    if c.payload.BadJson? then Settling(now, todo, MarkFailed(Some("bad_payload")))
    else if c.jobType != WEBHOOK then Settling(now, todo, MarkFailed(Some("unknown_job_type")))
    else if !c.payload.Object? || !c.payload.deliveryId.Whole? then Settling(now, todo, MarkFailed(Some("bad_payload")))
    else
      var id := c.payload.deliveryId.n;
      if id !in db.deliveries || !db.deliveries[id].Pending() then Settling(now, todo, MarkDone)
      else if db.deliveries[id].nextAttemptAt > now then
        Settling(now, todo, MarkRetry(db.deliveries[id].nextAttemptAt, None))
      else Loaded(now, todo, id, db.deliveries[id])
  }

  function AfterIngest(now: Instant, todo: seq<Claimed>, result: IngestResult, clock: Instant): Phase
    requires todo != []
  {
    var c := todo[0];
    if !result.ok || !c.payload.Object? || c.payload.intervalS.NotANumber?
    then Settling(now, todo, MarkRetry(clock + RETRY_AFTER_S, Some(result.error)))
    else if c.payload.intervalS.Missing? then Settling(now, todo, MarkDone)
    else Replacing(now, todo, RefreshKey(c), c.payload.intervalS.n, clock + c.payload.intervalS.n)
  }

  /** The row update after a send, from the row as it was read. */
  function SendMark(cfg: Config, now: Instant, d: Delivery, res: SendResult): DeliveryMark {
    if res.ok then MarkDelivered(res.statusCode.GetOr(0))
    else if d.attempts + 1 >= cfg.maxAttempts then MarkUndeliverable(SendError(res.error))
    else MarkAgain(NextAttempt(now, d.attempts, cfg.retryBaseS), res.statusCode, res.error)
  }

  // ----- the step relation -----

  function Next(cfg: Config, s: Sys, step: Step): Option<Sys> {
    var db, p := s.db, s.phase;
    match step
    case Subscribe(id, sub) => Some(s.(db := CreateSubscription(db, id, sub)))
    case Unsubscribe(id, customer) => Some(s.(db := DeleteSubscription(db, id, customer)))
    case InsertDelivery(sub, customer, eventType, eventId, payload, now) =>
      Some(s.(db := EnqueueDelivery(db, NewDelivery(sub, customer, eventType, eventId, payload, now))))
    case DropDeliveryJobs(key) => Some(s.(db := Tables.DeletePendingJobs(db, WEBHOOK, key)))
    case QueueDeliveryJob(key, payload, runAt, now) =>
      Some(s.(db := Tables.EnqueueJob(db, WEBHOOK, Some(key), payload, runAt, now)))
    case RefreshNow(key, retrievalTs, now) =>
      if key == "" then None
      else Some(s.(db := ReplaceRefresh(db, key, RefreshPayload(key, retrievalTs, Missing), now, now)))
    case Schedule(key, intervalS, now) =>
      if key == "" then None
      else Some(s.(db := ReplaceRefresh(db, key, RefreshPayload(key, None, Whole(intervalS)), now, now)))
    case Unschedule(key) => Some(s.(db := Tables.DeletePendingJobs(db, REFRESH, key)))
    case CollectJobs(cutoff) => Some(s.(db := Tables.DeleteJobsBefore(db, cutoff, [JobDone, JobFailed])))
    case Release(now) => Some(s.(db := ReleaseExpired(db, now)))
    case Claim(now, lockedUntil, ids) => NextClaim(s, now, lockedUntil, ids)
    case Look =>
      if p.Batch? && p.todo != [] && !IsRefresh(p.todo[0])
      then Some(s.(phase := LookAt(db, p.now, p.todo))) else None
    case CheckSubscription =>
      if !p.Loaded? then None
      else if Tables.Active(db, p.d.subscriptionId) then Some(s.(phase := Cleared(p.now, p.todo, p.id, p.d)))
      else Some(s.(phase := Orphaned(p.now, p.todo, p.id, p.d)))
    case SettleOrphan =>
      if !p.Orphaned? then None
      else Some(s.(db := MarkDelivery(db, p.id, MarkUndeliverable(SubscriptionMissing), p.now),
                   phase := Settling(p.now, p.todo, MarkDone)))
    case Send(res) =>
      if !p.Cleared? then None
      else Some(s.(phase := Sent(p.now, p.todo, p.id, p.d, res),
                   log := s.log + [SendEvent(p.id, p.now, p.d.createdAt, p.d.attempts, s.lost[p.id], res)]))
    case SettleSend =>
      if !p.Sent? then None
      else Some(s.(db := MarkDelivery(db, p.id, SendMark(cfg, p.now, p.d, p.res), p.now),
                   marked := s.marked + {|s.log| - 1},
                   phase := Settling(p.now, p.todo, MarkDone)))
    case Ingest(result, clock) =>
      if p.Batch? && p.todo != [] && IsRefresh(p.todo[0])
      then Some(s.(phase := AfterIngest(p.now, p.todo, result, clock))) else None
    case Clear(ok) =>
      if !p.Replacing? then None
      else Some(s.(db := if ok then Tables.DeletePendingJobs(db, REFRESH, p.key) else db,
                   phase := Refilling(p.now, p.todo, p.key, p.intervalS, p.runAt)))
    case Refill =>
      if !p.Refilling? then None
      else Some(s.(db := Refilled(db, p.key, p.intervalS, p.runAt, p.now), phase := Settling(p.now, p.todo, MarkDone)))
    case Overturn(clock, error) =>  // a database call of the refresh branch raised
      if (p.Replacing? || p.Refilling? || (p.Settling? && p.mark.MarkDone?)) && p.todo != [] && IsRefresh(p.todo[0])
      then Some(s.(phase := Settling(p.now, p.todo, MarkRetry(clock + RETRY_AFTER_S, Some(error)))))
      else None
    case SettleJob =>
      if !p.Settling? || p.todo == [] then None
      else Some(s.(db := Tables.MarkJob(db, p.todo[0].id, p.mark, p.now), phase := Batch(p.now, p.todo[1..])))
    case Finish => if p.Batch? && p.todo == [] then Some(s.(phase := Idle)) else None
    case Crash => Some(s.(phase := Idle, lost := if p.Sent? then s.lost + multiset{p.id} else s.lost))
  }

  function NextClaim(s: Sys, now: Instant, lockedUntil: Instant, ids: seq<int>): Option<Sys> {
    if s.phase.Idle? && ClaimIsTop(s.db, now, ids)
    then Some(s.(db := LockJobs(s.db, ids, lockedUntil, now), phase := Batch(now, ClaimedRows(s.db, ids))))
    else None
  }

  const CLAIM_LIMIT := 100

  predicate ClaimIsTop(db: Db, now: Instant, ids: seq<int>)
    ensures ClaimIsTop(db, now, ids) ==> forall i :: 0 <= i < |ids| ==> ids[i] in db.jobs
  {
    IsTop(ClaimableKeys(db, now), CLAIM_LIMIT, ids)
  }

  function Run(cfg: Config, s: Sys, steps: seq<Step>): Option<Sys>
    decreases |steps|
  {
    if steps == [] then Some(s)
    else
      var t := Next(cfg, s, steps[0]);
      if t.None? then None else Run(cfg, t.value, steps[1..])
  }

  lemma RunFirst(cfg: Config, s: Sys, steps: seq<Step>, t: Sys)
    requires steps != [] && Next(cfg, s, steps[0]) == Some(t)
    ensures Run(cfg, s, steps) == Run(cfg, t, steps[1..])
  {
  }

  lemma {:induction false} RunAppend(cfg: Config, s: Sys, a: seq<Step>, b: seq<Step>)
    requires Run(cfg, s, a).Some?
    ensures Run(cfg, s, a + b) == Run(cfg, Run(cfg, s, a).value, b)
    decreases |a|
  {
    if a == [] {
      assert a + b == b;
    } else {
      var t := Next(cfg, s, a[0]).value;
      RunAppend(cfg, t, a[1..], b);
      RunFirst(cfg, s, a + b, t);
      assert (a + b)[1..] == a[1..] + b;
    }
  }
}
