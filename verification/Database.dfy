/** The database object: each method is one transaction over the tables. */
module Database {
  import opened Options
  import opened Selection
  import opened Tables

  /** left is what remains of the rows when exactly the doomed ones are deleted. */
  ghost predicate Remaining(all: map<int, Job>, doomed: Job -> bool, left: map<int, Job>) {
    && (forall id :: id in left <==> id in all && !doomed(all[id]))
    && (forall id :: id in left ==> left[id] == all[id])
  }

  lemma RemainingUnique(all: map<int, Job>, doomed: Job -> bool, left: map<int, Job>, right: map<int, Job>)
    requires Remaining(all, doomed, left) && Remaining(all, doomed, right)
    ensures left == right
  {
    assert forall id :: id in left <==> id in right;
    assert left.Keys == right.Keys;
    assert forall id :: id in left ==> left[id] == right[id];
    assert left == right;
  }

  function OfKey(jobType: string, jobKey: string): Job -> bool {
    (j: Job) =>
      j.jobType == jobType && j.jobKey == Some(jobKey) && (j.status.JobQueued? || j.status.JobRetry?)
  }

  /** delete_pending_jobs leaves exactly the rows that are not queued or retry under the type and key, unchanged. */
  lemma PendingDeleted(db: Db, left: map<int, Job>, jobType: string, jobKey: string)
    ensures Remaining(db.jobs, OfKey(jobType, jobKey), left)
      <==> Tables.DeletePendingJobs(db, jobType, jobKey) == db.(jobs := left)
  {
    var jobs := Tables.DeletePendingJobs(db, jobType, jobKey).jobs;
    assert Remaining(db.jobs, OfKey(jobType, jobKey), jobs);
    if Remaining(db.jobs, OfKey(jobType, jobKey), left) {
      RemainingUnique(db.jobs, OfKey(jobType, jobKey), left, jobs);
    }
  }

  function SettledBefore(cutoff: Instant, statuses: seq<JobStatus>): Job -> bool {
    (j: Job) => j.updatedAt < cutoff && j.status in statuses
  }

  /** delete_jobs_before leaves exactly the rows updated since the cutoff or in another status, unchanged. */
  lemma OldDeleted(db: Db, left: map<int, Job>, cutoff: Instant, statuses: seq<JobStatus>)
    ensures Remaining(db.jobs, SettledBefore(cutoff, statuses), left)
      <==> Tables.DeleteJobsBefore(db, cutoff, statuses) == db.(jobs := left)
  {
    var jobs := Tables.DeleteJobsBefore(db, cutoff, statuses).jobs;
    assert Remaining(db.jobs, SettledBefore(cutoff, statuses), jobs);
    if Remaining(db.jobs, SettledBefore(cutoff, statuses), left) {
      RemainingUnique(db.jobs, SettledBefore(cutoff, statuses), left, jobs);
    }
  }

  /** A queued or retry row whose lease ended before now loses it; any other row stays as it is. */
  function Unleased(j: Job, now: Instant): Job {
    if (j.status.JobQueued? || j.status.JobRetry?) && j.lockedUntil.Some? && j.lockedUntil.value < now
    then j.(lockedUntil := None, updatedAt := now) else j
  }

  ghost predicate Unleases(before: map<int, Job>, after: map<int, Job>, now: Instant) {
    after.Keys == before.Keys && forall id :: id in after ==> after[id] == Unleased(before[id], now)
  }

  /** release_expired_job_leases keeps every row and clears exactly the leases of pending rows that ended before now. */
  lemma LeasesReleased(db: Db, left: map<int, Job>, now: Instant)
    ensures Unleases(db.jobs, left, now) <==> ReleaseExpired(db, now) == db.(jobs := left)
  {
    var jobs := ReleaseExpired(db, now).jobs;
    assert Unleases(db.jobs, jobs, now);
    if Unleases(db.jobs, left, now) {
      assert jobs.Keys == left.Keys;
      assert forall id :: id in left ==> jobs[id] == left[id];
      assert jobs == left;
    }
  }

  // ----- what is due -----

  /** Queued or to be retried, its time come, and under no lease that still runs. */
  predicate IsDue(j: Job, now: Instant) {
    (j.status.JobQueued? || j.status.JobRetry?) && j.runAt <= now && (j.lockedUntil.None? || j.lockedUntil.value <= now)
  }

  /** max(1, min(limit, 500)) */
  predicate Allows(limit: int, n: int) {
    if limit < 1 then n == 1 else if limit > 500 then n == 500 else n == limit
  }

  /** The claimed rows are due, each once, in run_at order; a due row is left out only by a full claim of rows no later
      than it. */
  ghost predicate Claims(jobs: map<int, Job>, now: Instant, limit: int, ids: seq<int>) {
    && Distinct(ids)
    && (forall i :: 0 <= i < |ids| ==> ids[i] in jobs && IsDue(jobs[ids[i]], now))
    && (forall i, j :: 0 <= i < j < |ids| ==> jobs[ids[i]].runAt <= jobs[ids[j]].runAt)
    && (exists n :: Allows(limit, n) && |ids| <= n)
    && (forall id :: id in jobs && IsDue(jobs[id], now) && id !in ids ==>
          Allows(limit, |ids|) && forall i :: 0 <= i < |ids| ==> jobs[ids[i]].runAt <= jobs[id].runAt)
  }

  /** claim_due_jobs may select a list of ids exactly when it claims so. */
  lemma ClaimsIff(db: Db, now: Instant, limit: int, ids: seq<int>)
    ensures IsTop(ClaimableKeys(db, now), Clamp(1, limit, 500), ids) <==> Claims(db.jobs, now, limit, ids)
  {
    var due, n := ClaimableKeys(db, now), Clamp(1, limit, 500);
    assert Allows(limit, n);
    assert forall id :: id in due <==> id in db.jobs && IsDue(db.jobs[id], now);
    if IsTop(due, n, ids) {
      forall id | id in due && id !in ids ensures Misses(due, n, ids, id) {
        TopMisses(due, n, ids, id);
      }
    }
    if Claims(db.jobs, now, limit, ids) {
      MissingIsTop(due, n, ids);
    }
  }

  /** The listed deliveries are pending and due, each once, in order of next attempt; a due one is left out only by a
      full listing of others no later than it. */
  ghost predicate ListsDue(deliveries: map<int, Delivery>, now: Instant, limit: int, ids: seq<int>) {
    && Distinct(ids)
    && (forall i :: 0 <= i < |ids| ==> ids[i] in deliveries && DeliveryDue(deliveries[ids[i]], now))
    && (forall i, j :: 0 <= i < j < |ids| ==> deliveries[ids[i]].nextAttemptAt <= deliveries[ids[j]].nextAttemptAt)
    && (exists n :: Allows(limit, n) && |ids| <= n)
    && (forall id :: id in deliveries && DeliveryDue(deliveries[id], now) && id !in ids ==>
          && Allows(limit, |ids|)
          && forall i :: 0 <= i < |ids| ==> deliveries[ids[i]].nextAttemptAt <= deliveries[id].nextAttemptAt)
  }

  predicate DeliveryDue(d: Delivery, now: Instant) {
    (d.status.Queued? || d.status.Retry?) && d.nextAttemptAt <= now
  }

  /** list_due_webhook_deliveries may return a list of ids exactly when it lists so. */
  lemma ListsDueIff(db: Db, now: Instant, limit: int, ids: seq<int>)
    ensures IsTop(DueKeys(db, now), Clamp(1, limit, 500), ids) <==> ListsDue(db.deliveries, now, limit, ids)
  {
    var due, n := DueKeys(db, now), Clamp(1, limit, 500);
    assert Allows(limit, n);
    assert forall id :: id in due <==> id in db.deliveries && DeliveryDue(db.deliveries[id], now);
    if IsTop(due, n, ids) {
      forall id | id in due && id !in ids ensures Misses(due, n, ids, id) {
        TopMisses(due, n, ids, id);
      }
    }
    if ListsDue(db.deliveries, now, limit, ids) {
      MissingIsTop(due, n, ids);
    }
  }

  function Leased(j: Job, lockedUntil: Instant, now: Instant): Job {
    j.(lockedUntil := Some(lockedUntil), updatedAt := now)
  }

  lemma RowsLocked(db: Db, left: map<int, Job>, ids: seq<int>, lockedUntil: Instant, now: Instant)
    requires left.Keys == db.jobs.Keys
    requires forall id :: id in left ==>
      left[id] == (if id in ids then Leased(db.jobs[id], lockedUntil, now) else db.jobs[id])
    ensures LockJobs(db, ids, lockedUntil, now) == db.(jobs := left)
  {
    var jobs := LockJobs(db, ids, lockedUntil, now).jobs;
    assert jobs.Keys == left.Keys;
    assert forall id :: id in left ==> jobs[id] == left[id];
    assert jobs == left;
  }

  class ProofRailDb {
    var jobs: map<int, Job>
    var nextJob: int
    var deliveries: map<int, Delivery>
    var nextDelivery: int
    var subs: map<string, Subscription>

    function State(): Db
      reads this
    {
      Db(jobs, nextJob, deliveries, nextDelivery, subs)
    }

    constructor ()
      ensures State() == EMPTY_DB
    {
      jobs, nextJob, deliveries, nextDelivery, subs := map[], 1, map[], 1, map[];
    }

    method EnqueueJob(jobType: string, jobKey: Option<string>, payload: Payload, runAt: Instant, now: Instant)
      returns (id: int)
      modifies this
      ensures id == old(nextJob) && nextJob == id + 1
      ensures State() == Tables.EnqueueJob(old(State()), jobType, jobKey, payload, runAt, now)
      ensures id in jobs && (forall k :: k in jobs && k != id ==> k in old(jobs) && jobs[k] == old(jobs)[k])
      ensures
        var j := jobs[id];
        && j.jobType == jobType && j.jobKey == jobKey && j.payload == payload && j.status == JobQueued
        && j.attempts == 0 && j.runAt == runAt && j.lastError == None && j.lockedUntil == None
        && j.createdAt == now && j.updatedAt == now
    {
      id := nextJob;
      jobs := jobs[id := Job(jobType, jobKey, payload, JobQueued, 0, runAt, None, None, now, now)];
      nextJob := nextJob + 1;
    }

    /** One transaction: select the due unlocked rows, lock them, return them as selected. */
    method ClaimDueJobs(now: Instant, lockedUntil: Instant, limit: int)
      returns (ghost ids: seq<int>, rows: seq<Claimed>)
      modifies this
      ensures IsTop(ClaimableKeys(old(State()), now), Clamp(1, limit, 500), ids)
      ensures rows == ClaimedRows(old(State()), ids)
      ensures State() == LockJobs(old(State()), ids, lockedUntil, now)
      ensures Claims(old(jobs), now, limit, ids) && |rows| == |ids|
      ensures forall i :: 0 <= i < |rows| ==>
        var j := old(jobs)[ids[i]];
        rows[i].id == ids[i] && rows[i].jobType == j.jobType && rows[i].payload == j.payload
        && rows[i].jobKey == (if j.jobKey.Some? then j.jobKey.value else "")
      ensures jobs.Keys == old(jobs).Keys && forall id :: id in jobs ==>
        jobs[id] ==
          if id in ids then old(jobs)[id].(lockedUntil := Some(lockedUntil), updatedAt := now) else old(jobs)[id]
    {
      ghost var before := State();
      var due := ClaimableKeys(State(), now);
      var picked := OrderByLimit(due, Clamp(1, limit, 500));
      ids := picked;
      rows := ClaimedRows(State(), picked);
      LockRows(picked, lockedUntil, now);
      ClaimsIff(before, now, limit, ids);
    }

    /** UPDATE ... WHERE job_id IN the claimed ids */
    method LockRows(picked: seq<int>, lockedUntil: Instant, now: Instant)
      requires forall i :: 0 <= i < |picked| ==> picked[i] in jobs
      modifies this`jobs
      ensures State() == LockJobs(old(State()), picked, lockedUntil, now)
      ensures jobs.Keys == old(jobs).Keys && forall id :: id in jobs ==>
        jobs[id] == (if id in picked then Leased(old(jobs)[id], lockedUntil, now) else old(jobs)[id])
    {
      for k := 0 to |picked|
        invariant jobs.Keys == old(jobs).Keys
        invariant forall id :: id in jobs ==>
          jobs[id] == (if id in picked[..k] then Leased(old(jobs)[id], lockedUntil, now) else old(jobs)[id])
      {
        assert picked[..k + 1] == picked[..k] + [picked[k]];
        jobs := jobs[picked[k] := Leased(jobs[picked[k]], lockedUntil, now)];
      }
      assert picked[..|picked|] == picked;
      RowsLocked(old(State()), jobs, picked, lockedUntil, now);
    }

    /** DELETE ... WHERE over the rows in some order; returns the row count. */
    method SweepJobs(doomed: Job -> bool) returns (deleted: nat)
      modifies this`jobs
      ensures Remaining(old(jobs), doomed, jobs)
      ensures deleted == |old(jobs).Keys - jobs.Keys|
    {
      deleted := 0;
      var rest := jobs.Keys;
      ghost var gone: set<int> := {};
      while rest != {}
        invariant rest <= old(jobs).Keys && gone !! rest && gone <= old(jobs).Keys && deleted == |gone|
        invariant jobs == old(jobs) - gone
        invariant forall id :: id in old(jobs) && id !in rest ==> (id in gone <==> doomed(old(jobs)[id]))
        decreases |rest|
      {
        var id := Pick(rest);
        rest := rest - {id};
        if doomed(jobs[id]) {
          jobs := jobs - {id};
          deleted := deleted + 1;
          gone := gone + {id};
        }
      }
      assert old(jobs).Keys - jobs.Keys == gone;
    }

    /** UPDATE of all the rows in some order. */
    method UpdateJobs(changed: Job -> Job)
      modifies this`jobs
      ensures jobs.Keys == old(jobs).Keys && forall id :: id in jobs ==> jobs[id] == changed(old(jobs)[id])
    {
      var rest := jobs.Keys;
      while rest != {}
        invariant rest <= old(jobs).Keys && jobs.Keys == old(jobs).Keys
        invariant forall id :: id in jobs ==> jobs[id] == if id in rest then old(jobs)[id] else changed(old(jobs)[id])
        decreases |rest|
      {
        var id := Pick(rest);
        rest := rest - {id};
        jobs := jobs[id := changed(jobs[id])];
      }
    }

    method DeletePendingJobs(jobType: string, jobKey: string) returns (deleted: nat)
      modifies this`jobs
      ensures State() == Tables.DeletePendingJobs(old(State()), jobType, jobKey)
      ensures deleted == |old(jobs).Keys - jobs.Keys|
      ensures forall id :: id in jobs ==> id in old(jobs) && jobs[id] == old(jobs)[id]
      ensures forall id :: id in old(jobs) ==>
        var j := old(jobs)[id];
        var doomed :=
          j.jobType == jobType && j.jobKey == Some(jobKey) && (j.status == JobQueued || j.status == JobRetry);
        id !in jobs <==> doomed
    {
      deleted := SweepJobs(OfKey(jobType, jobKey));
      PendingDeleted(old(State()), jobs, jobType, jobKey);
    }

    method ReleaseExpiredJobLeases(now: Instant)
      modifies this`jobs
      ensures State() == ReleaseExpired(old(State()), now)
      ensures jobs.Keys == old(jobs).Keys && forall id :: id in jobs ==>
        var j := old(jobs)[id];
        if (j.status == JobQueued || j.status == JobRetry) && j.lockedUntil != None && j.lockedUntil.value < now
        then jobs[id] == j.(lockedUntil := None, updatedAt := now) else jobs[id] == j
    {
      UpdateJobs((j: Job) => Unleased(j, now));
      LeasesReleased(old(State()), jobs, now);
    }

    method DeleteJobsBefore(cutoff: Instant, statuses: seq<JobStatus>)
      modifies this`jobs
      ensures State() == Tables.DeleteJobsBefore(old(State()), cutoff, statuses)
      ensures forall id :: id in jobs ==> id in old(jobs) && jobs[id] == old(jobs)[id]
      ensures forall id :: id in old(jobs) ==>
        (id !in jobs <==> old(jobs)[id].updatedAt < cutoff && old(jobs)[id].status in statuses)
    {
      var _ := SweepJobs(SettledBefore(cutoff, statuses));
      OldDeleted(old(State()), jobs, cutoff, statuses);
    }

    method MarkJob(id: int, mark: JobMark, now: Instant)
      modifies this
      ensures State() == Tables.MarkJob(old(State()), id, mark, now)
      ensures jobs.Keys == old(jobs).Keys && forall k :: k in jobs && k != id ==> jobs[k] == old(jobs)[k]
      ensures id in jobs ==>
        var was := old(jobs)[id];
        match mark
        case MarkDone => jobs[id] == was.(status := JobDone, updatedAt := now)
        case MarkFailed(reason) => jobs[id] == was.(status := JobFailed, lastError := reason, updatedAt := now)
        case MarkRetry(runAt, error) =>
          jobs[id] == was.(status := JobRetry, attempts := was.attempts + 1, runAt := runAt, lastError := error,
                           updatedAt := now)
    {
      if id in jobs {
        jobs := jobs[id := Marked(jobs[id], mark, now)];
      }
    }

    method EnqueueWebhookDelivery(
      subscriptionId: string, customerId: string, eventType: string, eventId: string, payloadJson: string, now: Instant)
      returns (id: int)
      modifies this
      ensures id == old(nextDelivery) && nextDelivery == id + 1
      ensures State() ==
        EnqueueDelivery(old(State()), NewDelivery(subscriptionId, customerId, eventType, eventId, payloadJson, now))
      ensures id in deliveries
      ensures forall k :: k in deliveries && k != id ==> k in old(deliveries) && deliveries[k] == old(deliveries)[k]
      ensures
        var d := deliveries[id];
        && d.subscriptionId == subscriptionId && d.customerId == customerId && d.eventType == eventType
        && d.eventId == eventId && d.payloadJson == payloadJson && d.status == Queued && d.attempts == 0
        && d.nextAttemptAt == now && d.lastAttemptAt == None && d.lastStatusCode == None && d.lastError == NoError
        && d.createdAt == now && d.updatedAt == now
    {
      id := nextDelivery;
      deliveries := deliveries[id := NewDelivery(subscriptionId, customerId, eventType, eventId, payloadJson, now)];
      nextDelivery := nextDelivery + 1;
    }

    method ListDueWebhookDeliveries(now: Instant, limit: int) returns (ids: seq<int>)
      ensures IsTop(DueKeys(State(), now), Clamp(1, limit, 500), ids)
      ensures ListsDue(deliveries, now, limit, ids)
    {
      ids := OrderByLimit(DueKeys(State(), now), Clamp(1, limit, 500));
      ListsDueIff(State(), now, limit, ids);
    }

    method GetWebhookDelivery(id: int) returns (d: Option<Delivery>)
      ensures d == if id in deliveries then Some(deliveries[id]) else None
    {
      d := if id in deliveries then Some(deliveries[id]) else None;
    }

    method GetWebhookSubscription(id: string) returns (s: Option<Subscription>)
      ensures s == if id in subs then Some(subs[id]) else None
    {
      s := if id in subs then Some(subs[id]) else None;
    }

    method MarkWebhookDelivery(id: int, mark: DeliveryMark, now: Instant)
      modifies this
      ensures State() == MarkDelivery(old(State()), id, mark, now)
      ensures deliveries.Keys == old(deliveries).Keys
      ensures forall k :: k in deliveries && k != id ==> deliveries[k] == old(deliveries)[k]
      ensures id in deliveries ==>
        var was, d := old(deliveries)[id], deliveries[id];
        && d.lastAttemptAt == Some(now) && d.updatedAt == now
        && match mark
           case MarkDelivered(code) => d == was.(status := Delivered, lastStatusCode := Some(code),
                                                 lastAttemptAt := d.lastAttemptAt, updatedAt := d.updatedAt)
           case MarkUndeliverable(error) => d == was.(status := Failed, lastError := error,
                                                      lastAttemptAt := d.lastAttemptAt, updatedAt := d.updatedAt)
           case MarkAgain(next, code, reason) =>
             d == was.(status := Retry, attempts := was.attempts + 1, nextAttemptAt := next, lastStatusCode := code,
                       lastError := SendError(reason), lastAttemptAt := d.lastAttemptAt, updatedAt := d.updatedAt)
    {
      if id in deliveries {
        deliveries := deliveries[id := Settled(deliveries[id], mark, now)];
      }
    }
  }
}
