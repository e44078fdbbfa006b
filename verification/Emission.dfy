/** What the producers of webhook jobs leave in the tables, row by row, and their place in the protocol. */
module Emission {
  import opened Options
  import opened Tables
  import opened Protocol
  import opened Decimal
  import DeliveryAccounting
  import RefreshSchedule
  import W = Worker

  function DeliveryPayload(id: int): Payload {
    Object(None, None, Missing, Whole(id))
  }

  /** Keep one pending job per delivery: delete_pending_jobs, then enqueue_job. */
  function QueueDelivery(db: Db, id: int, runAt: Instant, now: Instant): Db {
    Tables.EnqueueJob(
      Tables.DeletePendingJobs(db, WEBHOOK, IntText(id)), WEBHOOK, Some(IntText(id)), DeliveryPayload(id), runAt, now)
  }

  function QueueAll(db: Db, ids: seq<int>, now: Instant): Db {
    if ids == [] then db else QueueDelivery(QueueAll(db, ids[..|ids| - 1], now), ids[|ids| - 1], now, now)
  }

  predicate Wants(s: Subscription, eventType: string) {
    s.active && (eventType in s.events || "*" in s.events)
  }

  datatype Event = Event(customerId: string, eventType: string, eventId: string, payloadJson: string)

  /** A subscription as listed, with the three clock readings taken if it is notified. */
  datatype Listed = Listed(id: string, sub: Subscription, insertedAt: Instant, runAt: Instant, queuedAt: Instant)

  function DeliveryOf(l: Listed, e: Event): Delivery {
    NewDelivery(l.id, e.customerId, e.eventType, e.eventId, e.payloadJson, l.insertedAt)
  }

  function Emit(db: Db, subs: seq<Listed>, e: Event): Db {
    if subs == [] then db
    else
      var rest, l := Emit(db, subs[..|subs| - 1], e), subs[|subs| - 1];
      if !Wants(l.sub, e.eventType) then rest
      else QueueDelivery(EnqueueDelivery(rest, DeliveryOf(l, e)), rest.nextDelivery, l.runAt, l.queuedAt)
  }

  /** Ids lie below the AUTOINCREMENT counters. */
  predicate IdsOk(db: Db) {
    && (forall id :: id in db.jobs ==> id < db.nextJob)
    && (forall id :: id in db.deliveries ==> id < db.nextDelivery)
  }

  /** A queued job for a delivery, with the instants it was given. */
  datatype Ticket = Ticket(id: int, runAt: Instant, now: Instant)

  function JobOf(t: Ticket): Job {
    Job(WEBHOOK, Some(IntText(t.id)), DeliveryPayload(t.id), JobQueued, 0, t.runAt, None, None, t.now, t.now)
  }

  predicate DistinctIds(tickets: seq<Ticket>) {
    forall i, j :: 0 <= i < j < |tickets| ==> tickets[i].id != tickets[j].id
  }

  /** A pending job for one of the deliveries. */
  predicate Displaced(j: Job, tickets: seq<Ticket>) {
    exists i :: 0 <= i < |tickets| && Matches(j, WEBHOOK, IntText(tickets[i].id))
  }

  /** The tickets became the new jobs, in order; the pending jobs they displace are gone, every other job is as it
      was. */
  ghost predicate Requeued(a: Db, jobs: map<int, Job>, nextJob: int, tickets: seq<Ticket>) {
    && nextJob == a.nextJob + |tickets|
    && (forall id :: id in jobs <==> a.nextJob <= id < nextJob || (id in a.jobs && !Displaced(a.jobs[id], tickets)))
    && (forall id :: id in jobs ==>
          jobs[id] == (if a.nextJob <= id < nextJob then JobOf(tickets[id - a.nextJob]) else a.jobs[id]))
  }

  lemma TicketOf(tickets: seq<Ticket>, i: nat, k: nat)
    requires DistinctIds(tickets) && i < |tickets| && k < |tickets|
    ensures Matches(JobOf(tickets[k]), WEBHOOK, IntText(tickets[i].id)) <==> k == i
  {
    if IntText(tickets[k].id) == IntText(tickets[i].id) {
      IntTextInjective(tickets[k].id, tickets[i].id);
    }
  }

  /** So each delivery has exactly one pending job: its own new one. */
  lemma OnePendingEach(a: Db, b: Db, tickets: seq<Ticket>, i: nat, id: int)
    requires IdsOk(a) && Requeued(a, b.jobs, b.nextJob, tickets) && DistinctIds(tickets)
    requires i < |tickets| && id in b.jobs
    ensures Matches(b.jobs[id], WEBHOOK, IntText(tickets[i].id)) <==> id == a.nextJob + i
  {
    if a.nextJob <= id {
      TicketOf(tickets, i, id - a.nextJob);
    }
  }

  lemma DisplacedAppend(j: Job, tickets: seq<Ticket>, t: Ticket)
    ensures Displaced(j, tickets + [t]) <==> Displaced(j, tickets) || Matches(j, WEBHOOK, IntText(t.id))
  {
    var more := tickets + [t];
    if Displaced(j, more) {
      var i :| 0 <= i < |more| && Matches(j, WEBHOOK, IntText(more[i].id));
      assert i < |tickets| ==> more[i] == tickets[i];
    }
    if Displaced(j, tickets) {
      var i :| 0 <= i < |tickets| && Matches(j, WEBHOOK, IntText(tickets[i].id));
      assert (tickets + [t])[i] == tickets[i];
    }
    assert (tickets + [t])[|tickets|] == t;
  }

  lemma QueueOne(a: Db, b: Db, tickets: seq<Ticket>, t: Ticket)
    requires IdsOk(a) && Requeued(a, b.jobs, b.nextJob, tickets) && DistinctIds(tickets + [t])
    ensures
      var c := QueueDelivery(b, t.id, t.runAt, t.now);
      Requeued(a, c.jobs, c.nextJob, tickets + [t])
  {
    var c, more := QueueDelivery(b, t.id, t.runAt, t.now), tickets + [t];
    forall id
      ensures id in c.jobs <==> a.nextJob <= id < c.nextJob || (id in a.jobs && !Displaced(a.jobs[id], more))
      ensures id in c.jobs ==>
        c.jobs[id] == (if a.nextJob <= id < c.nextJob then JobOf(more[id - a.nextJob]) else a.jobs[id])
    {
      if a.nextJob <= id < b.nextJob {
        TicketStays(tickets, t, id - a.nextJob);
      } else if id in a.jobs {
        DisplacedAppend(a.jobs[id], tickets, t);
      }
    }
  }

  lemma TicketStays(tickets: seq<Ticket>, t: Ticket, i: nat)
    requires DistinctIds(tickets + [t]) && i < |tickets|
    ensures !Matches(JobOf(tickets[i]), WEBHOOK, IntText(t.id)) && (tickets + [t])[i] == tickets[i]
  {
    assert (tickets + [t])[i].id != (tickets + [t])[|tickets|].id;
    if IntText(tickets[i].id) == IntText(t.id) {
      IntTextInjective(tickets[i].id, t.id);
    }
  }

  function TicketsFor(ids: seq<int>, now: Instant): (ts: seq<Ticket>)
    ensures |ts| == |ids| && forall i :: 0 <= i < |ids| ==> ts[i] == Ticket(ids[i], now, now)
  {
    seq(|ids|, i requires 0 <= i < |ids| => Ticket(ids[i], now, now))
  }

  /** RESULT: re-queueing the due deliveries gives each exactly one pending job, new and due at once, and touches no
      delivery, no subscription and no other job. */
  lemma {:induction false} QueueAllExact(db: Db, ids: seq<int>, now: Instant)
    requires IdsOk(db) && Distinct(ids)
    ensures
      var after := QueueAll(db, ids, now);
      && Requeued(db, after.jobs, after.nextJob, TicketsFor(ids, now))
      && after.deliveries == db.deliveries && after.nextDelivery == db.nextDelivery && after.subs == db.subs
    decreases |ids|
  {
    if ids != [] {
      var front, last := ids[..|ids| - 1], ids[|ids| - 1];
      QueueAllExact(db, front, now);
      assert TicketsFor(ids, now) == TicketsFor(front, now) + [Ticket(last, now, now)];
      QueueOne(db, QueueAll(db, front, now), TicketsFor(front, now), Ticket(last, now, now));
    }
  }

  // ----- emission -----

  /** Indices of the subscriptions that want the event, in order. */
  function Wanting(subs: seq<Listed>, eventType: string): (w: seq<nat>)
    ensures forall i :: 0 <= i < |w| ==> w[i] < |subs| && Wants(subs[w[i]].sub, eventType)
    ensures forall i, j :: 0 <= i < j < |w| ==> w[i] < w[j]
    ensures forall k :: 0 <= k < |subs| && Wants(subs[k].sub, eventType) ==> k in w
  {
    if subs == [] then []
    else
      var n := |subs| - 1;
      var front := Wanting(subs[..n], eventType);
      assert forall k :: 0 <= k < n ==> subs[..n][k] == subs[k];
      if Wants(subs[n].sub, eventType) then front + [n] else front
  }

  /** One ticket for each wanting subscription, under the id its delivery gets. */
  function EmitTickets(subs: seq<Listed>, eventType: string, next: int): (ts: seq<Ticket>)
    ensures
      var w := Wanting(subs, eventType);
      |ts| == |w| && forall i :: 0 <= i < |w| ==> ts[i] == Ticket(next + i, subs[w[i]].runAt, subs[w[i]].queuedAt)
  {
    var w := Wanting(subs, eventType);
    seq(|w|, i requires 0 <= i < |w| => Ticket(next + i, subs[w[i]].runAt, subs[w[i]].queuedAt))
  }

  /** One new delivery for each wanting subscription, in order, every other delivery as it was. */
  ghost predicate Posted(a: Db, deliveries: map<int, Delivery>, nextDelivery: int, subs: seq<Listed>, e: Event) {
    var w := Wanting(subs, e.eventType);
    && nextDelivery == a.nextDelivery + |w|
    && (forall id :: id in deliveries <==> a.nextDelivery <= id < nextDelivery || id in a.deliveries)
    && (forall id :: id in a.deliveries && id < a.nextDelivery ==> deliveries[id] == a.deliveries[id])
    && (forall id :: a.nextDelivery <= id < nextDelivery ==>
          deliveries[id] == DeliveryOf(subs[w[id - a.nextDelivery]], e))
  }

  lemma WantingNext(subs: seq<Listed>, eventType: string)
    requires subs != []
    ensures
      var n := |subs| - 1;
      Wanting(subs, eventType) == Wanting(subs[..n], eventType) + (if Wants(subs[n].sub, eventType) then [n] else [])
  {
  }

  lemma PostedNext(a: Db, rest: Db, subs: seq<Listed>, e: Event)
    requires subs != [] && IdsOk(a) && Posted(a, rest.deliveries, rest.nextDelivery, subs[..|subs| - 1], e)
    ensures
      var l := subs[|subs| - 1];
      var b := if Wants(l.sub, e.eventType) then EnqueueDelivery(rest, DeliveryOf(l, e)) else rest;
      Posted(a, b.deliveries, b.nextDelivery, subs, e)
  {
    WantingNext(subs, e.eventType);
  }

  lemma TicketsNext(subs: seq<Listed>, eventType: string, next: int)
    requires subs != []
    ensures
      var n := |subs| - 1;
      var front, l := EmitTickets(subs[..n], eventType, next), subs[n];
      EmitTickets(subs, eventType, next) == front
          + (if Wants(l.sub, eventType) then [Ticket(next + |front|, l.runAt, l.queuedAt)] else [])
  {
    WantingNext(subs, eventType);
  }

  lemma TicketsDistinct(subs: seq<Listed>, eventType: string, next: int)
    ensures DistinctIds(EmitTickets(subs, eventType, next))
  {
    var ts := EmitTickets(subs, eventType, next);
    forall i | 0 <= i < |ts| ensures ts[i].id == next + i {
    }
  }

  /** RESULT: an event leaves exactly one delivery and one pending job under its id for each active subscription that
      wants it, none for the others, and changes no other delivery and no job of another delivery. */
  lemma {:induction false} EmitExact(db: Db, subs: seq<Listed>, e: Event)
    requires IdsOk(db)
    ensures
      var after := Emit(db, subs, e);
      && Posted(db, after.deliveries, after.nextDelivery, subs, e)
      && Requeued(db, after.jobs, after.nextJob, EmitTickets(subs, e.eventType, db.nextDelivery))
      && after.subs == db.subs
    decreases |subs|
  {
    if subs != [] {
      var front, l := subs[..|subs| - 1], subs[|subs| - 1];
      EmitExact(db, front, e);
      EmitNext(db, subs, e);
    }
  }

  /** What one more subscription does. */
  lemma EmitNext(a: Db, subs: seq<Listed>, e: Event)
    requires IdsOk(a) && subs != []
    requires
      var rest := Emit(a, subs[..|subs| - 1], e);
      && Posted(a, rest.deliveries, rest.nextDelivery, subs[..|subs| - 1], e)
      && Requeued(a, rest.jobs, rest.nextJob, EmitTickets(subs[..|subs| - 1], e.eventType, a.nextDelivery))
    ensures
      var after := Emit(a, subs, e);
      && Posted(a, after.deliveries, after.nextDelivery, subs, e)
      && Requeued(a, after.jobs, after.nextJob, EmitTickets(subs, e.eventType, a.nextDelivery))
  {
    var front := subs[..|subs| - 1];
    var rest := Emit(a, front, e);
    PostedNext(a, rest, subs, e);
    JobsNext(a, rest, EmitTickets(front, e.eventType, a.nextDelivery), subs, e);
  }

  lemma JobsNext(a: Db, rest: Db, tickets: seq<Ticket>, subs: seq<Listed>, e: Event)
    requires IdsOk(a) && subs != [] && tickets == EmitTickets(subs[..|subs| - 1], e.eventType, a.nextDelivery)
    requires Requeued(a, rest.jobs, rest.nextJob, tickets) && rest.nextDelivery == a.nextDelivery + |tickets|
    ensures
      var l := subs[|subs| - 1];
      var b := if Wants(l.sub, e.eventType)
               then QueueDelivery(EnqueueDelivery(rest, DeliveryOf(l, e)), rest.nextDelivery, l.runAt, l.queuedAt)
               else rest;
      Requeued(a, b.jobs, b.nextJob, EmitTickets(subs, e.eventType, a.nextDelivery))
  {
    var l := subs[|subs| - 1];
    var t, more := Ticket(rest.nextDelivery, l.runAt, l.queuedAt), EmitTickets(subs, e.eventType, a.nextDelivery);
    if Wants(l.sub, e.eventType) {
      assert more == tickets + [t] && DistinctIds(tickets + [t]) by {
        TicketsNext(subs, e.eventType, a.nextDelivery);
        TicketsDistinct(subs, e.eventType, a.nextDelivery);
      }
      QueueOne(a, EnqueueDelivery(rest, DeliveryOf(l, e)), tickets, t);
    } else {
      assert more == tickets by {
        TicketsNext(subs, e.eventType, a.nextDelivery);
      }
    }
  }

  // ----- the same, told by the columns -----

  /** A queued or retry job for the delivery. */
  predicate PendingFor(j: Job, id: int) {
    j.jobType == "webhook_delivery" && j.jobKey == Some(IntText(id)) && (j.status.JobQueued? || j.status.JobRetry?)
  }

  /** The jobs table afterwards: one new job for each ticket, in order, in place of the pending ones of its delivery. */
  ghost predicate NewJobs(before: Db, after: Db, tickets: seq<Ticket>) {
    && after.nextJob == before.nextJob + |tickets|
    && (forall i :: 0 <= i < |tickets| ==>
          && before.nextJob + i in after.jobs
          && var j := after.jobs[before.nextJob + i];
          && j.jobType == "webhook_delivery" && j.jobKey == Some(IntText(tickets[i].id))
          && j.payload == Object(None, None, Missing, Whole(tickets[i].id)) && j.status == JobQueued && j.attempts == 0
          && j.runAt == tickets[i].runAt && j.lockedUntil == None && j.createdAt == tickets[i].now)
    && (forall k :: k in after.jobs ==>
          before.nextJob <= k < after.nextJob || (k in before.jobs && after.jobs[k] == before.jobs[k]))
    && (forall k :: k in before.jobs ==>
          (k in after.jobs <==> forall i :: 0 <= i < |tickets| ==> !PendingFor(before.jobs[k], tickets[i].id)))
  }

  lemma NewJobsFrom(before: Db, after: Db, tickets: seq<Ticket>)
    requires IdsOk(before) && Requeued(before, after.jobs, after.nextJob, tickets)
    ensures NewJobs(before, after, tickets)
  {
    forall k | k in before.jobs
      ensures Displaced(before.jobs[k], tickets)
        <==> exists i :: 0 <= i < |tickets| && PendingFor(before.jobs[k], tickets[i].id)
    {
      assert forall i :: 0 <= i < |tickets| ==>
        (PendingFor(before.jobs[k], tickets[i].id) <==> Matches(before.jobs[k], WEBHOOK, IntText(tickets[i].id)));
    }
  }

  /** w lists the active subscriptions that want the event, by name or by the star. */
  predicate Chosen(subs: seq<Listed>, eventType: string, w: seq<nat>) {
    && (forall i, j :: 0 <= i < j < |w| ==> w[i] < w[j])
    && (forall i :: 0 <= i < |w| ==> w[i] < |subs|)
    && (forall k: nat :: k < |subs| ==>
          (k in w <==> subs[k].sub.active && (eventType in subs[k].sub.events || "*" in subs[k].sub.events)))
  }

  /** The deliveries table afterwards: one new row for each of them, in order. */
  ghost predicate NewDeliveries(before: Db, after: Db, subs: seq<Listed>, e: Event, w: seq<nat>) {
    && after.nextDelivery == before.nextDelivery + |w|
    && (forall i :: 0 <= i < |w| && w[i] < |subs| ==>
          && before.nextDelivery + i in after.deliveries
          && var d, l := after.deliveries[before.nextDelivery + i], subs[w[i]];
          && d.subscriptionId == l.id && d.customerId == e.customerId && d.eventType == e.eventType
          && d.eventId == e.eventId && d.payloadJson == e.payloadJson && d.status == Queued && d.attempts == 0
          && d.nextAttemptAt == l.insertedAt && d.createdAt == l.insertedAt)
    && (forall k :: k in after.deliveries ==>
          before.nextDelivery <= k < after.nextDelivery
          || (k in before.deliveries && after.deliveries[k] == before.deliveries[k]))
    && (forall k :: k in before.deliveries ==> k in after.deliveries)
  }

  /** The new jobs, in order, are those of the new deliveries. */
  predicate TicketsOf(tickets: seq<Ticket>, next: int, subs: seq<Listed>, w: seq<nat>) {
    && |tickets| == |w|
    && (forall i :: 0 <= i < |w| && w[i] < |subs| ==>
          tickets[i] == Ticket(next + i, subs[w[i]].runAt, subs[w[i]].queuedAt))
  }

  ghost predicate Notified(before: Db, after: Db, subs: seq<Listed>, e: Event, w: seq<nat>, tickets: seq<Ticket>) {
    && Chosen(subs, e.eventType, w) && TicketsOf(tickets, before.nextDelivery, subs, w)
    && NewDeliveries(before, after, subs, e, w) && NewJobs(before, after, tickets) && after.subs == before.subs
  }

  lemma WantingIsChosen(subs: seq<Listed>, eventType: string)
    ensures Chosen(subs, eventType, Wanting(subs, eventType))
  {
    var w := Wanting(subs, eventType);
    forall k: nat | k < |subs| ensures k in w <==> Wants(subs[k].sub, eventType) {
    }
  }

  lemma NewDeliveriesFrom(before: Db, after: Db, subs: seq<Listed>, e: Event)
    requires IdsOk(before) && Posted(before, after.deliveries, after.nextDelivery, subs, e)
    ensures NewDeliveries(before, after, subs, e, Wanting(subs, e.eventType))
  {
    var w := Wanting(subs, e.eventType);
    forall i | 0 <= i < |w|
      ensures before.nextDelivery + i in after.deliveries
      ensures after.deliveries[before.nextDelivery + i] == DeliveryOf(subs[w[i]], e)
    {
      var id := before.nextDelivery + i;
      assert before.nextDelivery <= id < after.nextDelivery && w[id - before.nextDelivery] == w[i];
    }
  }

  lemma EmitTicketsOf(subs: seq<Listed>, eventType: string, next: int)
    ensures TicketsOf(EmitTickets(subs, eventType, next), next, subs, Wanting(subs, eventType))
  {
  }

  /** RESULT: what an emission leaves, told by the columns alone. */
  lemma EmissionTold(before: Db, subs: seq<Listed>, e: Event) returns (w: seq<nat>, tickets: seq<Ticket>)
    requires IdsOk(before)
    ensures Notified(before, Emit(before, subs, e), subs, e, w, tickets)
  {
    var after := Emit(before, subs, e);
    w, tickets := Wanting(subs, e.eventType), EmitTickets(subs, e.eventType, before.nextDelivery);
    assert after.subs == before.subs && Chosen(subs, e.eventType, w) by {
      EmitExact(before, subs, e);
      WantingIsChosen(subs, e.eventType);
    }
    assert NewDeliveries(before, after, subs, e, w) && NewJobs(before, after, tickets) by {
      EmitExact(before, subs, e);
      NewDeliveriesFrom(before, after, subs, e);
      NewJobsFrom(before, after, tickets);
    }
    EmitTicketsOf(subs, e.eventType, before.nextDelivery);
  }

  // ----- both are runs of the protocol -----

  lemma QueueIsRun(cfg: Config, s: Sys, before: seq<Step>, t: Sys, id: int, runAt: Instant, now: Instant)
    returns (steps: seq<Step>)
    requires Run(cfg, s, before) == Some(t)
    ensures Run(cfg, s, steps) == Some(t.(db := QueueDelivery(t.db, id, runAt, now)))
  {
    var drop, add := DropDeliveryJobs(IntText(id)), QueueDeliveryJob(IntText(id), DeliveryPayload(id), runAt, now);
    var u := Next(cfg, t, drop).value;
    W.RunThenTwo(cfg, s, before, t, drop, u, add, Next(cfg, u, add).value);
    steps := before + [drop] + [add];
  }

  /** RESULT: so the theorems about runs cover admin_run_webhook_deliveries, */
  lemma {:induction false} QueueAllIsRun(cfg: Config, s: Sys, ids: seq<int>, now: Instant) returns (steps: seq<Step>)
    ensures Run(cfg, s, steps) == Some(s.(db := QueueAll(s.db, ids, now)))
    decreases |ids|
  {
    if ids == [] {
      steps := [];
    } else {
      var front := ids[..|ids| - 1];
      steps := QueueAllIsRun(cfg, s, front, now);
      steps := QueueIsRun(cfg, s, steps, s.(db := QueueAll(s.db, front, now)), ids[|ids| - 1], now, now);
    }
  }

  /** RESULT: and _emit_webhooks. */
  lemma {:induction false} EmitIsRun(cfg: Config, s: Sys, subs: seq<Listed>, e: Event) returns (steps: seq<Step>)
    ensures Run(cfg, s, steps) == Some(s.(db := Emit(s.db, subs, e)))
    decreases |subs|
  {
    if subs == [] {
      steps := [];
    } else {
      var front, l := subs[..|subs| - 1], subs[|subs| - 1];
      steps := EmitIsRun(cfg, s, front, e);
      if Wants(l.sub, e.eventType) {
        var t := s.(db := Emit(s.db, front, e));
        var insert := InsertDelivery(l.id, e.customerId, e.eventType, e.eventId, e.payloadJson, l.insertedAt);
        var u := Next(cfg, t, insert).value;
        W.RunThen(cfg, s, steps, t, insert, u);
        steps := QueueIsRun(cfg, s, steps + [insert], u, t.db.nextDelivery, l.runAt, l.queuedAt);
      }
    }
  }

  /** Every run keeps ids below their counters, so both descriptions apply in every reachable state. */
  lemma IdsAlwaysOk(cfg: Config, steps: seq<Step>)
    requires Run(cfg, START, steps).Some?
    ensures IdsOk(Run(cfg, START, steps).value.db)
  {
    DeliveryAccounting.Reachable(cfg, steps);
    RefreshSchedule.RunKeeps(cfg, START, steps);
  }
}
