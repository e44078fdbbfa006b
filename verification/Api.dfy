/** The API handlers that feed the job queue. */
module Api {
  import opened Options
  import opened Selection
  import opened Tables
  import opened Database
  import opened Protocol
  import opened Decimal
  import opened Emission
  import JobEffects

  /** subs is what list_webhook_subscriptions returned for the customer. */
  method EmitWebhooks(db: ProofRailDb, subs: seq<Listed>, e: Event)
    modifies db
    ensures db.State() == Emit(old(db.State()), subs, e)
    ensures
      var before, after := old(db.State()), db.State();
      IdsOk(before) ==>
        && Posted(before, after.deliveries, after.nextDelivery, subs, e) && after.subs == before.subs
        && Requeued(before, after.jobs, after.nextJob, EmitTickets(subs, e.eventType, before.nextDelivery))
        && exists w, tickets :: Notified(before, after, subs, e, w, tickets)
  {
    for i := 0 to |subs|
      invariant db.State() == Emit(old(db.State()), subs[..i], e)
    {
      assert subs[..i + 1][..i] == subs[..i];
      var l := subs[i];
      if l.sub.active && (e.eventType in l.sub.events || "*" in l.sub.events) {
        PostDelivery(db, l, e);
      }
    }
    assert subs[..|subs|] == subs;
    if IdsOk(old(db.State())) {
      EmitExact(old(db.State()), subs, e);
      var w, tickets := EmissionTold(old(db.State()), subs, e);
    }
  }

  method PostDelivery(db: ProofRailDb, l: Listed, e: Event)
    modifies db
    ensures db.State() ==
      QueueDelivery(EnqueueDelivery(old(db.State()), DeliveryOf(l, e)), old(db.nextDelivery), l.runAt, l.queuedAt)
  {
    var id := db.EnqueueWebhookDelivery(l.id, e.customerId, e.eventType, e.eventId, e.payloadJson, l.insertedAt);
    QueueJob(db, id, l.runAt, l.queuedAt);
  }

  method QueueJob(db: ProofRailDb, id: int, runAt: Instant, now: Instant)
    modifies db
    ensures db.State() == QueueDelivery(old(db.State()), id, runAt, now)
  {
    var _ := db.DeletePendingJobs(WEBHOOK, IntText(id));
    var _ := db.EnqueueJob(WEBHOOK, Some(IntText(id)), DeliveryPayload(id), runAt, now);
  }

  method AdminRunWebhookDeliveries(db: ProofRailDb, now: Instant, limit: int)
    returns (ghost due: seq<int>, enqueued: nat)
    modifies db
    ensures IsTop(DueKeys(old(db.State()), now), Clamp(1, limit, 500), due)
    ensures ListsDue(old(db.deliveries), now, limit, due)
    ensures db.State() == QueueAll(old(db.State()), due, now) && enqueued == |due|
    ensures
      var before, after := old(db.State()), db.State();
      IdsOk(before) ==>
        && Requeued(before, after.jobs, after.nextJob, TicketsFor(due, now)) && after.deliveries == before.deliveries
        && NewJobs(before, after, TicketsFor(due, now))
  {
    var ids := db.ListDueWebhookDeliveries(now, limit);
    due, enqueued := ids, 0;
    while enqueued < |ids|
      invariant 0 <= enqueued <= |ids|
      invariant db.State() == QueueAll(old(db.State()), ids[..enqueued], now)
    {
      assert ids[..enqueued + 1][..enqueued] == ids[..enqueued];
      QueueJob(db, ids[enqueued], now, now);
      enqueued := enqueued + 1;
    }
    assert ids[..enqueued] == ids;
    if IdsOk(old(db.State())) {
      QueueAllExact(old(db.State()), ids, now);
      NewJobsFrom(old(db.State()), db.State(), TicketsFor(ids, now));
    }
  }

  function KeyOrGlobal(customerId: Option<string>): (key: string)
    ensures key != ""
  {
    if customerId.GetOr("") == "" then GLOBAL_KEY else customerId.value
  }

  predicate ForKey(customerId: Option<string>, key: string) {
    if customerId == None || customerId == Some("") then key == "__global__" else customerId == Some(key)
  }

  /** The pending refreshes of the key gave way to one new one, due at once; everything else is as it was. */
  ghost predicate RefreshQueued(before: Db, after: Db, key: string, retrievalTs: Option<string>, interval: Number,
        now: Instant) {
    && after == before.(jobs := after.jobs, nextJob := before.nextJob + 1)
    && before.nextJob in after.jobs
    && after.jobs[before.nextJob] ==
         Job("ingest_refresh", Some(key), Object(Some(key), retrievalTs, interval, Missing), JobQueued, 0, now, None,
             None, now, now)
    && (forall k :: k in after.jobs && k != before.nextJob ==> k in before.jobs && after.jobs[k] == before.jobs[k])
    && (forall k :: k in before.jobs && k != before.nextJob ==>
          (k in after.jobs <==> !JobEffects.Superseded(before.jobs[k], key)))
  }

  lemma QueuedRefresh(db: Db, key: string, retrievalTs: Option<string>, interval: Number, now: Instant)
    ensures RefreshQueued(db, ReplaceRefresh(db, key, RefreshPayload(key, retrievalTs, interval), now, now), key,
                          retrievalTs, interval, now)
  {
  }

  method RefreshIngest(db: ProofRailDb, customerId: Option<string>, retrievalTs: Option<string>, now: Instant)
    returns (id: int)
    modifies db
    ensures
      var key := KeyOrGlobal(customerId);
      db.State() == ReplaceRefresh(old(db.State()), key, RefreshPayload(key, retrievalTs, Missing), now, now)
    ensures id == old(db.nextJob)
    ensures exists key ::
      ForKey(customerId, key) && RefreshQueued(old(db.State()), db.State(), key, retrievalTs, Missing, now)
  {
    var key := KeyOrGlobal(customerId);
    QueuedRefresh(db.State(), key, retrievalTs, Missing, now);
    assert ForKey(customerId, key);
    var _ := db.DeletePendingJobs(REFRESH, key);
    id := db.EnqueueJob(REFRESH, Some(key), RefreshPayload(key, retrievalTs, Missing), now, now);
  }

  /** Err is the 409 answered when the scheduler is disabled. */
  method ScheduleRefresh(db: ProofRailDb, enabled: bool, customerId: Option<string>, intervalS: int, now: Instant)
    returns (r: Result<int, string>)
    modifies db
    ensures
      var key := KeyOrGlobal(customerId);
      if enabled
      then
        && r == Ok(old(db.nextJob))
        && db.State() == ReplaceRefresh(old(db.State()), key, RefreshPayload(key, None, Whole(intervalS)), now, now)
      else r == Err("scheduler_disabled") && db.State() == old(db.State())
    ensures enabled ==> exists key ::
      ForKey(customerId, key) && RefreshQueued(old(db.State()), db.State(), key, None, Whole(intervalS), now)
  {
    var key := KeyOrGlobal(customerId);
    if !enabled {
      return Err("scheduler_disabled");
    }
    QueuedRefresh(db.State(), key, None, Whole(intervalS), now);
    assert ForKey(customerId, key);
    var _ := db.DeletePendingJobs(REFRESH, key);
    var id := db.EnqueueJob(REFRESH, Some(key), RefreshPayload(key, None, Whole(intervalS)), now, now);
    r := Ok(id);
  }

  method StopSchedule(db: ProofRailDb, enabled: bool, customerId: Option<string>) returns (r: Result<int, string>)
    modifies db
    ensures
      if enabled
      then
        && r == Ok(|old(db.jobs).Keys - db.jobs.Keys|)
        && db.State() == Tables.DeletePendingJobs(old(db.State()), REFRESH, KeyOrGlobal(customerId))
      else r == Err("scheduler_disabled") && db.State() == old(db.State())
    ensures enabled ==> exists key ::
      && ForKey(customerId, key) && (forall k :: k in db.jobs ==> k in old(db.jobs) && db.jobs[k] == old(db.jobs)[k])
      && (forall k :: k in old(db.jobs) ==> (k in db.jobs <==> !JobEffects.Superseded(old(db.jobs)[k], key)))
  {
    if !enabled {
      return Err("scheduler_disabled");
    }
    assert ForKey(customerId, KeyOrGlobal(customerId));
    var n := db.DeletePendingJobs(REFRESH, KeyOrGlobal(customerId));
    r := Ok(n);
  }
}
