/**
 Lease exclusivity for any number of workers. A worker is not represented: claims, marks and releases may come from
 any of them in any order, each with any past reading of one clock that never goes back.
 */
module Leases {
  import opened Options
  import opened Selection
  import opened Tables

  /** One lease handed out: a job id and the instant until which it was promised. */
  datatype Lease = Lease(id: int, until: Instant)

  datatype World = World(db: Db, clock: Instant, leases: seq<Lease>)

  datatype Op =
    | Wait(seconds: nat)
    | Claim(now: Instant, lockedUntil: Instant, limit: int, ids: seq<int>)
    | Release(now: Instant)
    | Mark(id: int, mark: JobMark, now: Instant)
    | Enqueue(jobType: string, jobKey: Option<string>, payload: Payload, runAt: Instant, now: Instant)
    | DeletePending(jobType: string, key: string)
    | Collect(cutoff: Instant, statuses: seq<JobStatus>)

  function Granted(ids: seq<int>, until: Instant): (ls: seq<Lease>)
    ensures |ls| == |ids| && forall i :: 0 <= i < |ids| ==> ls[i] == Lease(ids[i], until)
  {
    seq(|ids|, i requires 0 <= i < |ids| => Lease(ids[i], until))
  }

  /** Each statement may run only with a clock reading that has already happened. */
  predicate Allowed(w: World, op: Op) {
    match op
    case Claim(now, _, limit, ids) => now <= w.clock && IsTop(ClaimableKeys(w.db, now), Clamp(1, limit, 500), ids)
    case Release(now) => now <= w.clock
    case _ => true
  }

  function Apply(w: World, op: Op): World {
    match op
    case Wait(seconds) => w.(clock := w.clock + seconds)
    case Claim(now, until, _, ids) =>
      w.(db := LockJobs(w.db, ids, until, now), leases := w.leases + Granted(ids, until))
    case Release(now) => w.(db := ReleaseExpired(w.db, now))
    case Mark(id, mark, now) => w.(db := Tables.MarkJob(w.db, id, mark, now))
    case Enqueue(jobType, key, payload, runAt, now) =>
      w.(db := Tables.EnqueueJob(w.db, jobType, key, payload, runAt, now))
    case DeletePending(jobType, key) => w.(db := Tables.DeletePendingJobs(w.db, jobType, key))
    case Collect(cutoff, statuses) => w.(db := Tables.DeleteJobsBefore(w.db, cutoff, statuses))
  }

  predicate Valid(w: World, ops: seq<Op>)
    decreases |ops|
  {
    ops == [] || (Allowed(w, ops[0]) && Valid(Apply(w, ops[0]), ops[1..]))
  }

  function Play(w: World, ops: seq<Op>): World
    decreases |ops|
  {
    if ops == [] then w else Play(Apply(w, ops[0]), ops[1..])
  }

  /** A lease still running on an existing job is exactly what the row says; ids are never reused. */
  ghost predicate Inv(w: World) {
    && (forall id :: id in w.db.jobs ==> id < w.db.nextJob)
    && (forall l :: l in w.leases ==> l.id < w.db.nextJob)
    && (forall l :: l in w.leases && l.id in w.db.jobs && l.until > w.clock ==>
          w.db.jobs[l.id].lockedUntil == Some(l.until))
  }

  lemma ApplyKeeps(w: World, op: Op)
    requires Inv(w) && Allowed(w, op)
    ensures Inv(Apply(w, op))
  {
    var v := Apply(w, op);
    if op.Claim? {
      forall l | l in v.leases
        ensures l.id < v.db.nextJob
        ensures l.id in v.db.jobs && l.until > v.clock ==> v.db.jobs[l.id].lockedUntil == Some(l.until)
      {
        if l in w.leases && l.id in op.ids {
          assert w.db.jobs[l.id].Claimable(op.now);
        }
      }
    }
  }

  /** When a claim returns a job, every lease handed out on it before has run out. */
  ghost predicate Exclusive(w: World, op: Op) {
    op.Claim? ==> forall l :: l in w.leases && l.id in op.ids ==> l.until <= w.clock
  }

  lemma ClaimIsExclusive(w: World, op: Op)
    requires Inv(w) && Allowed(w, op)
    ensures Exclusive(w, op)
  {
  }

  /** At no instant do two leases on one job both still run: those on a later claim found the earlier ones over. */
  ghost predicate OneRunningLease(w: World) {
    forall i, j :: 0 <= i < j < |w.leases| && w.leases[i].id == w.leases[j].id ==> w.leases[i].until <= w.clock
  }

  lemma {:induction false} RunKeeps(w: World, ops: seq<Op>)
    requires Inv(w) && OneRunningLease(w) && Valid(w, ops)
    ensures Inv(Play(w, ops)) && OneRunningLease(Play(w, ops))
    decreases |ops|
  {
    if ops != [] {
      ApplyKeeps(w, ops[0]);
      ClaimIsExclusive(w, ops[0]);
      LeasesStaySingle(w, ops[0]);
      RunKeeps(Apply(w, ops[0]), ops[1..]);
    }
  }

  lemma LeasesStaySingle(w: World, op: Op)
    requires OneRunningLease(w) && Allowed(w, op) && Exclusive(w, op)
    ensures OneRunningLease(Apply(w, op))
  {
    var v := Apply(w, op);
    if op.Claim? {
      forall i, j | 0 <= i < j < |v.leases| && v.leases[i].id == v.leases[j].id
        ensures v.leases[i].until <= v.clock
      {
        var n := |w.leases|;
        if j >= n {
          assert v.leases[j].id == op.ids[j - n];
          if i < n {
            assert v.leases[i] in w.leases;
          }
        }
      }
    }
  }

  /** RESULT: in every history, whoever claims: each claim finds all earlier leases on its jobs expired. */
  lemma LeaseExclusivity(start: Instant, ops: seq<Op>, claim: Op)
    requires Valid(World(EMPTY_DB, start, []), ops) && claim.Claim?
    requires Allowed(Play(World(EMPTY_DB, start, []), ops), claim)
    ensures
      var w := Play(World(EMPTY_DB, start, []), ops);
      && (forall l :: l in w.leases && l.id in claim.ids ==> l.until <= w.clock)
      && OneRunningLease(w)
  {
    RunKeeps(World(EMPTY_DB, start, []), ops);
    ClaimIsExclusive(Play(World(EMPTY_DB, start, []), ops), claim);
  }
}
