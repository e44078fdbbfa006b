/** Exactly which calls the limiter admits: those no window of earlier calls overdraws. */
module RateLimitWindows {
  import opened Options
  import opened RateLimit
  import opened RateLimitRuns

  /** What a bucket gains between two instants, before it is cut to the capacity. */
  function Gain(p: Params, s: real, t: real): real {
    p.refillPerS * (t - s)
  }

  /** g is a running total of it. */
  ghost predicate Totals(p: Params, g: real -> real) {
    forall s, t :: g(t) - g(s) == Gain(p, s, t)
  }

  /** The bucket was full before its last charge, or held what it held before and the gain since. */
  predicate FilledUp(p: Params, g: real -> real, before: Bucket, now: real, have: real) {
    have == p.capacity || have == before.tokens + (g(now) - g(before.updatedAt))
  }

  /** One charge: what the bucket had, what it keeps, and whether it covered the cost. */
  lemma ChargeExact(p: Params, b: Bucket, now: real, cost: real, g: real -> real)
    requires b.updatedAt <= now && Totals(p, g)
    ensures
      var b', ok := Charged(p, b, now, cost), Affordable(p, b, now, cost);
      var have := b'.tokens + Paid(ok, cost);
      FilledUp(p, g, b, now, have) && (ok <==> have >= cost)
  {
    assert g(now) - g(b.updatedAt) == Gain(p, b.updatedAt, now);
    assert (now - b.updatedAt) * p.refillPerS == Gain(p, b.updatedAt, now);
  }

  lemma FirstChargeExact(p: Params, createdAt: real, now: real, cost: real)
    requires Sane(p)
    ensures
      var b := Bucket(p.capacity, createdAt);
      var b', ok := Charged(p, b, now, cost), Affordable(p, b, now, cost);
      b'.tokens + Paid(ok, cost) == p.capacity && (ok <==> p.capacity >= cost)
  {
    MulNonNegative(Max(0.0, now - createdAt), p.refillPerS);
  }

  predicate Roomy(p: Params) {
    p.maxBuckets.Some? ==> p.maxBuckets.value >= 1
  }

  /** What call n finds and leaves in the bucket of its key. */
  lemma CallExact(p: Params, calls: seq<Call>, n: nat, g: real -> real)
    requires Sane(p) && Roomy(p) && Forward(calls) && n < |calls| && Totals(p, g)
    ensures
      var l, c, m := After(p, calls[..n]), calls[n], After(p, calls[..n + 1]);
      && c.key in m.buckets && m.buckets[c.key].updatedAt == c.now && AnswerAt(p, calls, n) != KeyError
      && var have := m.buckets[c.key].tokens + Paid(AnswerAt(p, calls, n) == Allowed, c.cost);
      && (AnswerAt(p, calls, n) == Allowed <==> have >= c.cost)
      && (if c.key in l.buckets then FilledUp(p, g, l.buckets[c.key], c.now, have) else have == p.capacity)
  {
    var l, c := After(p, calls[..n]), calls[n];
    assert CallOk(calls, n);
    TokensInRange(p, calls, n, c.now);
    AfterStep(p, calls, n);
    if c.key in l.buckets {
      assert BucketOk(p, l.buckets[c.key], c.now);
      ChargeExact(p, l.buckets[c.key], c.now, c.cost, g);
    } else {
      FirstChargeExact(p, c.createdAt, c.now, c.cost);
    }
  }

  /** m is a call of the key since which it has not been evicted. */
  predicate Opens(p: Params, calls: seq<Call>, key: string, m: nat, n: nat)
    requires n <= |calls|
  {
    m < n && calls[m].key == key && Stays(p, calls, key, m, n)
  }

  /** What is left is the capacity and the gain since call m, less the cost admitted since. */
  predicate LeftSince(p: Params, calls: seq<Call>, key: string, m: nat, n: nat, g: real -> real)
    requires m < n <= |calls| && key in After(p, calls[..n]).buckets
  {
    var b := After(p, calls[..n]).buckets[key];
    b.tokens == p.capacity + (g(b.updatedAt) - g(calls[m].now)) - Admitted(p, calls, key, m, n)
  }

  /** Some call found the bucket full, and since then it has only gained and paid. */
  lemma {:induction false} FullSince(p: Params, calls: seq<Call>, key: string, n: nat, g: real -> real) returns (m: nat)
    requires Sane(p) && Roomy(p) && Forward(calls) && n <= |calls| && Totals(p, g)
    requires key in After(p, calls[..n]).buckets
    ensures Opens(p, calls, key, m, n) && LeftSince(p, calls, key, m, n, g)
    decreases n
  {
    var k := n - 1;
    CallBound(p, calls, key, k);
    CallExact(p, calls, k, g);
    var l, b := After(p, calls[..k]), After(p, calls[..n]).buckets[key];
    if calls[k].key == key && b.tokens + PaidAt(p, calls, key, k) == p.capacity {
      m := k;
      assert Admitted(p, calls, key, k, k) == 0.0;
    } else {
      m := FullSince(p, calls, key, k, g);
    }
  }

  /** The cost admitted for the key since call m, and that of call j, exceed the capacity and the gain in between. */
  predicate Overdrawn(p: Params, calls: seq<Call>, m: nat, j: nat)
    requires j < |calls|
  {
    && m <= j && calls[m].key == calls[j].key && Stays(p, calls, calls[j].key, m, j)
    && Admitted(p, calls, calls[j].key, m, j) + calls[j].cost > Allowance(p, calls[m].now, calls[j].now)
  }

  lemma AllowanceIs(p: Params, s: real, t: real, g: real -> real)
    requires Totals(p, g)
    ensures Allowance(p, s, t) == p.capacity + (g(t) - g(s))
  {
    assert g(t) - g(s) == Gain(p, s, t);
  }

  lemma DeniedOverdraws(p: Params, calls: seq<Call>, j: nat, g: real -> real) returns (m: nat)
    requires Sane(p) && Roomy(p) && Forward(calls) && j < |calls| && Totals(p, g)
    requires AnswerAt(p, calls, j) == Denied
    ensures Overdrawn(p, calls, m, j)
  {
    var key, c, l := calls[j].key, calls[j], After(p, calls[..j]);
    CallExact(p, calls, j, g);
    var have := After(p, calls[..j + 1]).buckets[key].tokens;
    if have == p.capacity {
      m := j;
      AllowanceIs(p, c.now, c.now, g);
    } else {
      m := FullSince(p, calls, key, j, g);
      AllowanceIs(p, calls[m].now, c.now, g);
    }
  }

  lemma AllowedWithin(p: Params, calls: seq<Call>, m: nat, j: nat, g: real -> real)
    requires Sane(p) && Roomy(p) && Forward(calls) && j < |calls| && Totals(p, g)
    requires AnswerAt(p, calls, j) == Allowed
    ensures !Overdrawn(p, calls, m, j)
  {
    if Overdrawn(p, calls, m, j) {
      CallExact(p, calls, j, g);
      WindowBound(p, calls, calls[j].key, m, j + 1);
    }
  }

  lemma LinearTotals(p: Params, g: real -> real)
    requires forall u :: g(u) == p.refillPerS * u
    ensures Totals(p, g)
  {
    forall s, t ensures g(t) - g(s) == Gain(p, s, t) {
      Distributes(p.refillPerS, s, t);
    }
  }

  lemma Distributes(r: real, s: real, t: real)
    ensures r * t - r * s == r * (t - s)
  {
  }

  /**
   RESULT: in any trace with a clock that does not go back and no negative cost, a call is admitted exactly when no
   earlier call of its key since the last eviction, itself included, opens a window in which the cost admitted and its
   own exceed capacity + refill_per_s * the time passed. There is no other reason to deny one.
   */
  lemma AllowedIff(p: Params, calls: seq<Call>, j: nat)
    requires Sane(p) && Roomy(p) && Forward(calls) && j < |calls|
    ensures AnswerAt(p, calls, j) == Allowed <==> forall m: nat :: !Overdrawn(p, calls, m, j)
    ensures AnswerAt(p, calls, j) != KeyError
  {
    var g := (u: real) => p.refillPerS * u;
    LinearTotals(p, g);
    CallExact(p, calls, j, g);
    if AnswerAt(p, calls, j) == Allowed {
      forall m: nat ensures !Overdrawn(p, calls, m, j) {
        AllowedWithin(p, calls, m, j, g);
      }
    } else {
      var m := DeniedOverdraws(p, calls, j, g);
    }
  }

  /** RESULT: a key's first call, or its first after an eviction, is admitted exactly when the capacity covers it. */
  lemma FirstCallIff(p: Params, calls: seq<Call>, j: nat)
    requires Sane(p) && Roomy(p) && Forward(calls) && j < |calls| && calls[j].key !in After(p, calls[..j]).buckets
    ensures AnswerAt(p, calls, j) == Allowed <==> calls[j].cost <= p.capacity
  {
    var g := (u: real) => p.refillPerS * u;
    LinearTotals(p, g);
    CallExact(p, calls, j, g);
  }

  /** The key is not used by calls i to j - 1. */
  predicate Idle(calls: seq<Call>, key: string, i: nat, j: nat)
    requires j <= |calls|
  {
    forall n :: i <= n < j ==> calls[n].key != key
  }

  lemma {:induction false} IdleAdmitsNothing(p: Params, calls: seq<Call>, key: string, m: nat, i: nat, j: nat)
    requires m <= i <= j <= |calls| && Idle(calls, key, i, j)
    ensures Admitted(p, calls, key, m, j) == Admitted(p, calls, key, m, i)
    decreases j
  {
    if i < j {
      IdleAdmitsNothing(p, calls, key, m, i, j - 1);
    }
  }

  lemma IdleWindow(p: Params, calls: seq<Call>, m: nat, i: nat, j: nat, g: real -> real)
    requires Sane(p) && Forward(calls) && m <= i < j < |calls| && calls[m].key == calls[j].key && Totals(p, g)
    requires Idle(calls, calls[j].key, i + 1, j) && Stays(p, calls, calls[j].key, m, j)
    requires calls[j].cost <= Gain(p, calls[i].now, calls[j].now)
    ensures !Overdrawn(p, calls, m, j)
  {
    var key := calls[j].key;
    IdleAdmitsNothing(p, calls, key, m, i + 1, j);
    StaysPrefix(p, calls, key, m, i + 1, j);
    WindowBound(p, calls, key, m, i + 1);
    AllowanceIs(p, calls[m].now, calls[j].now, g);
    AllowanceIs(p, calls[m].now, calls[i].now, g);
    assert g(calls[j].now) - g(calls[i].now) == Gain(p, calls[i].now, calls[j].now);
  }

  lemma OwnWindow(p: Params, calls: seq<Call>, j: nat, g: real -> real)
    requires j < |calls| && calls[j].cost <= p.capacity && Totals(p, g)
    ensures !Overdrawn(p, calls, j, j)
  {
    AllowanceIs(p, calls[j].now, calls[j].now, g);
  }

  /** RESULT: a bucket refills: after an idle time long enough to gain the cost, any cost up to the capacity is
      admitted. */
  lemma IdleRefills(p: Params, calls: seq<Call>, i: nat, j: nat)
    requires Sane(p) && Roomy(p) && Forward(calls) && i < j < |calls|
    requires Idle(calls, calls[j].key, i + 1, j)
    requires calls[j].cost <= p.capacity && calls[j].cost <= p.refillPerS * (calls[j].now - calls[i].now)
    ensures AnswerAt(p, calls, j) == Allowed
  {
    var g := (u: real) => p.refillPerS * u;
    LinearTotals(p, g);
    forall m: nat ensures !Overdrawn(p, calls, m, j) {
      if Overdrawn(p, calls, m, j) {
        if m <= i {
          IdleWindow(p, calls, m, i, j, g);
        } else {
          assert m == j;
          OwnWindow(p, calls, j, g);
        }
      }
    }
    AllowedIff(p, calls, j);
  }

  lemma {:induction false} StaysPrefix(p: Params, calls: seq<Call>, key: string, m: nat, i: nat, j: nat)
    requires i <= j <= |calls| && Stays(p, calls, key, m, j)
    ensures Stays(p, calls, key, m, i)
    decreases j
  {
    if i < j {
      if m < j {
        StaysPrefix(p, calls, key, m, i, j - 1);
      }
    }
  }
}
