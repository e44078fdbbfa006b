/** process_once run without interruption: the method, the function it computes, and its place in the protocol. */
module Worker {
  import opened Options
  import opened Tables
  import opened Webhooks
  import opened Database
  import opened Protocol
  import opened JobEffects

  /** The claimed jobs in claim order; outcomes(i) answers the i-th. */
  function ProcessAll(cfg: Config, db: Db, now: Instant, jobs: seq<Claimed>, outcomes: nat -> Outcome): Db {
    if jobs == [] then db
    else
      var n := |jobs| - 1;
      ProcessJob(cfg, ProcessAll(cfg, db, now, jobs[..n], outcomes), now, jobs[n], outcomes(n))
  }

  function ClaimJobs(db: Db, now: Instant, lockedUntil: Instant, ids: seq<int>): Db {
    LockJobs(ReleaseExpired(db, now), ids, lockedUntil, now)
  }

  function Tick(cfg: Config, db: Db, now: Instant, lockedUntil: Instant, ids: seq<int>, outcomes: nat -> Outcome): Db
    requires ClaimIsTop(ReleaseExpired(db, now), now, ids)
  {
    ProcessAll(cfg, ClaimJobs(db, now, lockedUntil, ids), now, ClaimedRows(ReleaseExpired(db, now), ids), outcomes)
  }

  method ProcessOnce(cfg: Config, db: ProofRailDb, now: Instant, lockedUntil: Instant, outcomes: nat -> Outcome,
        gcCutoff: Option<Instant>)
    returns (ghost ids: seq<int>)
    modifies db
    ensures ClaimIsTop(ReleaseExpired(old(db.State()), now), now, ids)
    ensures Claims(ReleaseExpired(old(db.State()), now).jobs, now, 100, ids)
    ensures
      var after := Tick(cfg, old(db.State()), now, lockedUntil, ids, outcomes);
      db.State() ==
        if gcCutoff.Some? then Tables.DeleteJobsBefore(after, gcCutoff.value, [JobDone, JobFailed]) else after
  {
    db.ReleaseExpiredJobLeases(now);
    var jobs: seq<Claimed>;
    ids, jobs := db.ClaimDueJobs(now, lockedUntil, CLAIM_LIMIT);
    ProcessJobs(cfg, db, now, jobs, outcomes);
    if gcCutoff.Some? {
      db.DeleteJobsBefore(gcCutoff.value, [JobDone, JobFailed]);
    }
  }

  /** The loop over claimed jobs. */
  method ProcessJobs(cfg: Config, db: ProofRailDb, now: Instant, jobs: seq<Claimed>, outcomes: nat -> Outcome)
    modifies db
    ensures db.State() == ProcessAll(cfg, old(db.State()), now, jobs, outcomes)
  {
    for i := 0 to |jobs|
      invariant db.State() == ProcessAll(cfg, old(db.State()), now, jobs[..i], outcomes)
    {
      assert jobs[..i + 1][..i] == jobs[..i];
      ProcessOne(cfg, db, now, jobs[i], outcomes(i));
    }
    assert jobs[..|jobs|] == jobs;
  }

  /** The body of the loop over claimed jobs. */
  method ProcessOne(cfg: Config, db: ProofRailDb, now: Instant, j: Claimed, o: Outcome)
    modifies db
    ensures db.State() == ProcessJob(cfg, old(db.State()), now, j, o)
    ensures JobIdsOk(old(db.State()), j) ==> JobTold(cfg, old(db.State()), db.State(), now, j, o)
  {
    if JobIdsOk(db.State(), j) {
      JobExact(cfg, db.State(), now, j, o);
    }
    if j.payload.BadJson? {
      db.MarkJob(j.id, MarkFailed(Some("bad_payload")), now);
      return;
    }
    if j.jobType == REFRESH {
      ProcessRefresh(db, now, j, o);
      return;
    }
    if j.jobType != WEBHOOK {
      db.MarkJob(j.id, MarkFailed(Some("unknown_job_type")), now);
      return;
    }
    if !j.payload.Object? || !j.payload.deliveryId.Whole? {
      db.MarkJob(j.id, MarkFailed(Some("bad_payload")), now);
      return;
    }
    ProcessDelivery(cfg, db, now, j, j.payload.deliveryId.n, o.send);
  }

  method ProcessRefresh(db: ProofRailDb, now: Instant, j: Claimed, o: Outcome)
    requires IsRefresh(j)
    modifies db
    ensures db.State() == RefreshJob(old(db.State()), now, j, o)
  {
    if !j.payload.Object? || !o.ingest.ok || j.payload.intervalS.NotANumber? {
      db.MarkJob(j.id, MarkRetry(o.clock + RETRY_AFTER_S, Some(o.ingest.error)), now);
      return;
    }
    var mark := Closing(o.faults);
    if j.payload.intervalS.Whole? {
      mark := ReEnqueue(db, RefreshKey(j), j.payload.intervalS.n, o.clock + j.payload.intervalS.n, now, o.faults);
    }
    db.MarkJob(j.id, mark, now);
  }

  /** The worker's own re-enqueue: an error in the delete is passed over, one in the enqueue makes the job a retry. */
  method ReEnqueue(db: ProofRailDb, key: string, intervalS: int, runAt: Instant, now: Instant, f: Faults)
    returns (mark: JobMark)
    modifies db
    ensures (db.State(), mark) == ReEnqueued(old(db.State()), key, intervalS, runAt, now, f)
  {
    if !f.delete {
      var _ := db.DeletePendingJobs(REFRESH, key);
    }
    if f.enqueue.Some? {
      return MarkRetry(f.clock + RETRY_AFTER_S, f.enqueue);
    }
    var _ := db.EnqueueJob(REFRESH, Some(key), RefreshPayload(key, None, Whole(intervalS)), runAt, now);
    mark := Closing(f);
  }

  method ProcessDelivery(cfg: Config, db: ProofRailDb, now: Instant, j: Claimed, id: int, res: SendResult)
    requires j.jobType == WEBHOOK && j.payload.Object? && j.payload.deliveryId == Whole(id)
    modifies db
    ensures db.State() == DeliveryJob(cfg, old(db.State()), now, j, res)
    ensures DeliveryTold(cfg, old(db.State()), db.State(), now, id, res)
    ensures DeliveryJobTold(old(db.State()), db.State(), now, id, j.id)
  {
    DeliveryJobExact(cfg, db.State(), now, j, id, res);
    var row := db.GetWebhookDelivery(id);
    if row.None? || !row.value.Pending() {
      db.MarkJob(j.id, MarkDone, now);
      return;
    }
    var d := row.value;
    if d.nextAttemptAt > now {
      db.MarkJob(j.id, MarkRetry(d.nextAttemptAt, None), now);
      return;
    }
    var sub := db.GetWebhookSubscription(d.subscriptionId);
    if sub.None? || !sub.value.active {
      db.MarkWebhookDelivery(id, MarkUndeliverable(SubscriptionMissing), now);
    } else if res.ok {
      db.MarkWebhookDelivery(id, MarkDelivered(res.statusCode.GetOr(0)), now);
    } else if d.attempts + 1 >= cfg.maxAttempts {
      db.MarkWebhookDelivery(id, MarkUndeliverable(SendError(res.error)), now);
    } else {
      var again := NextAttempt(now, d.attempts, cfg.retryBaseS);
      db.MarkWebhookDelivery(id, MarkAgain(again, res.statusCode, res.error), now);
    }
    db.MarkJob(j.id, MarkDone, now);
  }

  // ----- the uninterrupted tick is a run of the protocol -----

  lemma RunOne(cfg: Config, s: Sys, step: Step, more: seq<Step>)
    requires Next(cfg, s, step).Some?
    ensures Run(cfg, s, [step] + more) == Run(cfg, Next(cfg, s, step).value, more)
  {
  }

  /** One more step at the end of a run. */
  lemma RunThen(cfg: Config, s: Sys, steps: seq<Step>, t: Sys, step: Step, u: Sys)
    requires Run(cfg, s, steps) == Some(t) && Next(cfg, t, step) == Some(u)
    ensures Run(cfg, s, steps + [step]) == Some(u)
  {
    RunAppend(cfg, s, steps, [step]);
    RunOne(cfg, t, step, []);
  }

  lemma RunThenTwo(cfg: Config, s: Sys, steps: seq<Step>, t: Sys, a: Step, u: Sys, b: Step, v: Sys)
    requires Run(cfg, s, steps) == Some(t) && Next(cfg, t, a) == Some(u) && Next(cfg, u, b) == Some(v)
    ensures Run(cfg, s, steps + [a] + [b]) == Some(v)
  {
    RunThen(cfg, s, steps, t, a, u);
    RunThen(cfg, s, steps + [a], u, b, v);
  }

  /** Everything a job does before its own row is marked. */
  lemma JobReaches(cfg: Config, s: Sys, c: Claimed, rest: seq<Claimed>, now: Instant, o: Outcome)
    returns (steps: seq<Step>, t: Sys)
    requires s.phase == Batch(now, [c] + rest)
    ensures Run(cfg, s, steps) == Some(t) && t.lost == s.lost
    ensures t.phase.Settling? && t.phase.now == now && t.phase.todo == [c] + rest
    ensures Tables.MarkJob(t.db, c.id, t.phase.mark, now) == ProcessJob(cfg, s.db, now, c, o)
  {
    if IsRefresh(c) {
      steps, t := RefreshReaches(cfg, s, c, rest, now, o);
    } else {
      t := Next(cfg, s, Look).value;
      RunThen(cfg, s, [], s, Look, t);
      steps := [] + [Look];
      if t.phase.Loaded? {
        steps, t := DeliveryReaches(cfg, s, steps, t, o.send);
      }
    }
  }

  lemma RefreshReaches(cfg: Config, s: Sys, c: Claimed, rest: seq<Claimed>, now: Instant, o: Outcome)
    returns (steps: seq<Step>, t: Sys)
    requires s.phase == Batch(now, [c] + rest) && IsRefresh(c)
    ensures Run(cfg, s, steps) == Some(t) && t.lost == s.lost
    ensures t.phase.Settling? && t.phase.now == now && t.phase.todo == [c] + rest
    ensures Tables.MarkJob(t.db, c.id, t.phase.mark, now) == RefreshJob(s.db, now, c, o)
  {
    t := Next(cfg, s, Ingest(o.ingest, o.clock)).value;
    RunThen(cfg, s, [], s, Ingest(o.ingest, o.clock), t);
    steps := [] + [Ingest(o.ingest, o.clock)];
    if t.phase.Replacing? {
      steps, t := ReplaceReaches(cfg, s, steps, t, o.faults);
    } else if t.phase.mark.MarkDone? {
      steps, t := CloseReaches(cfg, s, steps, t, o.faults);
    }
  }

  lemma ReplaceReaches(cfg: Config, s: Sys, before: seq<Step>, t: Sys, f: Faults) returns (steps: seq<Step>, v: Sys)
    requires Run(cfg, s, before) == Some(t)
    requires t.phase.Replacing? && t.phase.todo != [] && IsRefresh(t.phase.todo[0])
    ensures Run(cfg, s, steps) == Some(v) && v.lost == t.lost
    ensures
      var p := t.phase;
      var (db, mark) := ReEnqueued(t.db, p.key, p.intervalS, p.runAt, p.now, f);
      v.db == db && v.phase == Settling(p.now, p.todo, mark)
  {
    var u := Next(cfg, t, Clear(!f.delete)).value;
    RunThen(cfg, s, before, t, Clear(!f.delete), u);
    steps, v := RefillReaches(cfg, s, before + [Clear(!f.delete)], u, f);
  }

  lemma RefillReaches(cfg: Config, s: Sys, before: seq<Step>, u: Sys, f: Faults) returns (steps: seq<Step>, v: Sys)
    requires Run(cfg, s, before) == Some(u)
    requires u.phase.Refilling? && u.phase.todo != [] && IsRefresh(u.phase.todo[0])
    ensures Run(cfg, s, steps) == Some(v) && v.lost == u.lost
    ensures
      var p := u.phase;
      && v.db == (if f.enqueue.Some? then u.db else Refilled(u.db, p.key, p.intervalS, p.runAt, p.now))
      && v.phase == Settling(p.now, p.todo,
           if f.enqueue.Some? then MarkRetry(f.clock + RETRY_AFTER_S, f.enqueue) else Closing(f))
  {
    var step := if f.enqueue.Some? then Overturn(f.clock, f.enqueue.value) else Refill;
    v := Next(cfg, u, step).value;
    RunThen(cfg, s, before, u, step, v);
    steps := before + [step];
    if step.Refill? {
      steps, v := CloseReaches(cfg, s, steps, v, f);
    }
  }

  /** The mark of success, which may raise as well. */
  lemma CloseReaches(cfg: Config, s: Sys, before: seq<Step>, t: Sys, f: Faults) returns (steps: seq<Step>, v: Sys)
    requires Run(cfg, s, before) == Some(t)
    requires t.phase.Settling? && t.phase.mark.MarkDone? && t.phase.todo != [] && IsRefresh(t.phase.todo[0])
    ensures Run(cfg, s, steps) == Some(v) && v.lost == t.lost && v.db == t.db
    ensures v.phase == Settling(t.phase.now, t.phase.todo, Closing(f))
  {
    steps, v := before, t;
    if f.mark.Some? {
      v := Next(cfg, t, Overturn(f.clock, f.mark.value)).value;
      RunThen(cfg, s, before, t, Overturn(f.clock, f.mark.value), v);
      steps := before + [Overturn(f.clock, f.mark.value)];
    }
  }

  lemma DeliveryReaches(cfg: Config, s: Sys, before: seq<Step>, loaded: Sys, res: SendResult)
    returns (steps: seq<Step>, t: Sys)
    requires Run(cfg, s, before) == Some(loaded) && loaded.phase.Loaded?
    ensures Run(cfg, s, steps) == Some(t) && t.lost == loaded.lost
    ensures t.phase == Settling(loaded.phase.now, loaded.phase.todo, MarkDone)
    ensures
      var p := loaded.phase;
      t.db == MarkDelivery(loaded.db, p.id, DeliveryEffect(cfg, loaded.db, p.now, p.d, res), p.now)
  {
    var u := Next(cfg, loaded, CheckSubscription).value;
    if u.phase.Orphaned? {
      t := Next(cfg, u, SettleOrphan).value;
      RunThenTwo(cfg, s, before, loaded, CheckSubscription, u, SettleOrphan, t);
      steps := before + [CheckSubscription] + [SettleOrphan];
    } else {
      RunThen(cfg, s, before, loaded, CheckSubscription, u);
      steps, t := SendReaches(cfg, s, before + [CheckSubscription], u, res);
    }
  }

  lemma SendReaches(cfg: Config, s: Sys, before: seq<Step>, cleared: Sys, res: SendResult)
    returns (steps: seq<Step>, t: Sys)
    requires Run(cfg, s, before) == Some(cleared) && cleared.phase.Cleared?
    ensures Run(cfg, s, steps) == Some(t) && t.lost == cleared.lost
    ensures t.phase == Settling(cleared.phase.now, cleared.phase.todo, MarkDone)
    ensures
      var p := cleared.phase;
      t.db == MarkDelivery(cleared.db, p.id, SendMark(cfg, p.now, p.d, res), p.now)
  {
    var u := Next(cfg, cleared, Send(res)).value;
    t := Next(cfg, u, SettleSend).value;
    RunThenTwo(cfg, s, before, cleared, Send(res), u, SettleSend, t);
    steps := before + [Send(res)] + [SettleSend];
  }

  lemma JobIsRun(cfg: Config, s: Sys, c: Claimed, rest: seq<Claimed>, now: Instant, o: Outcome)
    returns (steps: seq<Step>)
    requires s.phase == Batch(now, [c] + rest)
    ensures Run(cfg, s, steps).Some?
    ensures
      var t := Run(cfg, s, steps).value;
      t.db == ProcessJob(cfg, s.db, now, c, o) && t.phase == Batch(now, rest) && t.lost == s.lost
  {
    var t;
    steps, t := JobReaches(cfg, s, c, rest, now, o);
    RunThen(cfg, s, steps, t, SettleJob, Next(cfg, t, SettleJob).value);
    steps := steps + [SettleJob];
  }

  lemma {:induction false} BatchIsRun(cfg: Config, s: Sys, jobs: seq<Claimed>, rest: seq<Claimed>, now: Instant,
        outcomes: nat -> Outcome)
    returns (steps: seq<Step>)
    requires s.phase == Batch(now, jobs + rest)
    ensures Run(cfg, s, steps).Some?
    ensures
      var t := Run(cfg, s, steps).value;
      t.db == ProcessAll(cfg, s.db, now, jobs, outcomes) && t.phase == Batch(now, rest) && t.lost == s.lost
    decreases |jobs|
  {
    if jobs == [] {
      assert jobs + rest == rest;
      steps := [];
    } else {
      var front, last := jobs[..|jobs| - 1], jobs[|jobs| - 1];
      assert jobs + rest == front + ([last] + rest);
      steps := BatchIsRun(cfg, s, front, [last] + rest, now, outcomes);
      var t := Run(cfg, s, steps).value;
      var more := JobIsRun(cfg, t, last, rest, now, outcomes(|jobs| - 1));
      RunAppend(cfg, s, steps, more);
      steps := steps + more;
    }
  }

  /** RESULT: so every theorem about runs covers what process_once does to an idle system. */
  lemma TickIsRun(cfg: Config, s: Sys, now: Instant, lockedUntil: Instant, ids: seq<int>, outcomes: nat -> Outcome)
    returns (steps: seq<Step>)
    requires s.phase.Idle? && ClaimIsTop(ReleaseExpired(s.db, now), now, ids)
    ensures Run(cfg, s, steps).Some?
    ensures
      var t := Run(cfg, s, steps).value;
      t.db == Tick(cfg, s.db, now, lockedUntil, ids, outcomes) && t.phase.Idle? && t.lost == s.lost
  {
    var t := Next(cfg, s, Release(now)).value;
    var u := Next(cfg, t, Claim(now, lockedUntil, ids)).value;
    RunThenTwo(cfg, s, [], s, Release(now), t, Claim(now, lockedUntil, ids), u);
    steps := [] + [Release(now)] + [Claim(now, lockedUntil, ids)];
    var v;
    steps, v := BatchFinishes(cfg, s, steps, u, outcomes);
  }

  /** The batch a claim left, to the end of the tick. */
  lemma BatchFinishes(cfg: Config, s: Sys, before: seq<Step>, u: Sys, outcomes: nat -> Outcome)
    returns (steps: seq<Step>, v: Sys)
    requires Run(cfg, s, before) == Some(u) && u.phase.Batch?
    ensures Run(cfg, s, steps) == Some(v)
    ensures v.db == ProcessAll(cfg, u.db, u.phase.now, u.phase.todo, outcomes) && v.phase.Idle? && v.lost == u.lost
  {
    var jobs := u.phase.todo;
    assert jobs + [] == jobs;
    var more := BatchIsRun(cfg, u, jobs, [], u.phase.now, outcomes);
    var w := Run(cfg, u, more).value;
    RunAppend(cfg, s, before, more);
    v := Next(cfg, w, Finish).value;
    RunThen(cfg, s, before + more, w, Finish, v);
    steps := before + more + [Finish];
  }
}
