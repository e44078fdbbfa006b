/** Token buckets behind an LRU map: arithmetic over reals, every clock reading an input. */
module RateLimit {
  import opened Options

  /** tokens and updated_at_s of one bucket. */
  datatype Bucket = Bucket(tokens: real, updatedAt: real)

  datatype Params = Params(capacity: real, refillPerS: real, maxBuckets: Option<int>)

  function Max(a: real, b: real): real {
    if a >= b then a else b
  }

  function Min(a: real, b: real): real {
    if a <= b then a else b
  }

  function Refilled(p: Params, b: Bucket, now: real): real {
    Min(p.capacity, b.tokens + Max(0.0, now - b.updatedAt) * p.refillPerS)
  }

  predicate Affordable(p: Params, b: Bucket, now: real, cost: real) {
    Refilled(p, b, now) >= cost
  }

  function Charged(p: Params, b: Bucket, now: real, cost: real): Bucket {
    Bucket(Refilled(p, b, now) - (if Affordable(p, b, now, cost) then cost else 0.0), now)
  }

  class TokenBucket {
    const capacity: real
    const refillPerS: real
    var tokens: real
    var updatedAtS: real

    constructor (capacity: real, refillPerS: real, tokens: real, updatedAtS: real)
      ensures this.capacity == capacity && this.refillPerS == refillPerS && View() == Bucket(tokens, updatedAtS)
    {
      this.capacity, this.refillPerS, this.tokens, this.updatedAtS := capacity, refillPerS, tokens, updatedAtS;
    }

    function View(): Bucket
      reads this
    {
      Bucket(tokens, updatedAtS)
    }

    method Allow(now: real, cost: real) returns (ok: bool)
      modifies this
      ensures
        var p := Params(capacity, refillPerS, None);
        ok == Affordable(p, old(View()), now, cost) && View() == Charged(p, old(View()), now, cost)
      ensures
        var gained := if now > old(updatedAtS) then (now - old(updatedAtS)) * refillPerS else 0.0;
        var have := if old(tokens) + gained > capacity then capacity else old(tokens) + gained;
        ok == (cost <= have) && tokens == (if ok then have - cost else have) && updatedAtS == now
    {
      var elapsed := Max(0.0, now - updatedAtS);
      assert elapsed * refillPerS == if now > updatedAtS then (now - updatedAtS) * refillPerS else 0.0;
      tokens := Min(capacity, tokens + elapsed * refillPerS);
      updatedAtS := now;
      if tokens >= cost {
        tokens := tokens - cost;
        return true;
      }
      return false;
    }
  }

  // ----- the limiter -----

  /** order lists the keys of the OrderedDict from least to most recently moved to the end. */
  datatype Limiter = Limiter(order: seq<string>, buckets: map<string, Bucket>)

  const EMPTY := Limiter([], map[])

  /** One call, with the clock read when a bucket is created and the one read when it is charged. */
  datatype Call = Call(key: string, cost: real, createdAt: real, now: real)

  datatype Answer = Allowed | Denied | KeyError

  datatype Decision = Decision(limiter: Limiter, answer: Answer)

  function Without(s: seq<string>, k: string): (r: seq<string>)
    ensures forall x :: x in r <==> x in s && x != k
  {
    if s == [] then [] else (if s[0] == k then [] else [s[0]]) + Without(s[1..], k)
  }

  /** s lists the keys, each once. */
  predicate Orders(s: seq<string>, keys: set<string>) {
    if s == [] then keys == {} else s[0] in keys && Orders(s[1..], keys - {s[0]})
  }

  lemma {:induction false} OrdersMembers(s: seq<string>, keys: set<string>)
    requires Orders(s, keys)
    ensures forall k :: k in s <==> k in keys
  {
    if s != [] {
      OrdersMembers(s[1..], keys - {s[0]});
      assert s == [s[0]] + s[1..];
    }
  }

  lemma {:induction false} OrdersDistinct(s: seq<string>, keys: set<string>)
    requires Orders(s, keys)
    ensures Distinct(s)
  {
    if s != [] {
      OrdersMembers(s[1..], keys - {s[0]});
      OrdersDistinct(s[1..], keys - {s[0]});
    }
  }

  lemma {:induction false} OrdersAppend(s: seq<string>, keys: set<string>, k: string)
    requires Orders(s, keys) && k !in keys
    ensures Orders(s + [k], keys + {k})
  {
    if s != [] {
      OrdersAppend(s[1..], keys - {s[0]}, k);
      assert (s + [k])[1..] == s[1..] + [k];
      assert keys + {k} - {s[0]} == keys - {s[0]} + {k};
    } else {
      assert (s + [k])[1..] == [] && keys + {k} - {k} == {};
    }
  }

  lemma {:induction false} OrdersWithout(s: seq<string>, keys: set<string>, k: string)
    requires Orders(s, keys)
    ensures Orders(Without(s, k), keys - {k})
  {
    if s != [] {
      OrdersWithout(s[1..], keys - {s[0]}, k);
      if s[0] == k {
        assert keys - {s[0]} - {k} == keys - {k};
        assert Without(s, k) == Without(s[1..], k);
      } else {
        assert Without(s, k)[1..] == Without(s[1..], k);
        assert keys - {k} - {s[0]} == keys - {s[0]} - {k};
      }
    }
  }

  /** The last n elements. */
  function Suffix(s: seq<string>, n: nat): (r: seq<string>)
    ensures |r| == if |s| < n then |s| else n
  {
    if |s| <= n then s else s[|s| - n..]
  }

  function Touched(p: Params, b: Bucket, l: Limiter, order: seq<string>, c: Call): Decision {
    Decision(
      Limiter(order, l.buckets[c.key := Charged(p, b, c.now, c.cost)]),
      if Affordable(p, b, c.now, c.cost) then Allowed else Denied)
  }

  /** How many keys the eviction loop leaves before a new one is added. */
  function Room(maxBuckets: Option<int>, size: nat): nat {
    if maxBuckets.None? || size < maxBuckets.value then size
    else if maxBuckets.value < 1 then 0 else maxBuckets.value - 1
  }

  /** The room most recently used keys and their buckets. */
  function Evicted(l: Limiter, room: nat): Limiter {
    var order := Suffix(l.order, room);
    Limiter(order, map k | k in l.buckets && k in order :: l.buckets[k])
  }

  lemma EvictedAll<T>(l: Limiter, buckets: map<string, T>)
    requires Orders(l.order, buckets.Keys) && l.buckets.Keys == buckets.Keys
    ensures Evicted(l, |l.order|) == l
  {
    OrdersMembers(l.order, buckets.Keys);
    assert Evicted(l, |l.order|).buckets == l.buckets;
  }

  lemma EvictedOne<T>(l: Limiter, buckets: map<string, T>)
    requires Orders(l.order, buckets.Keys) && l.buckets.Keys == buckets.Keys && l.order != []
    ensures Evicted(l, |l.order| - 1) == Limiter(l.order[1..], l.buckets - {l.order[0]})
  {
    OrdersMembers(l.order, buckets.Keys);
    OrdersMembers(l.order[1..], buckets.Keys - {l.order[0]});
    assert Evicted(l, |l.order| - 1).buckets == l.buckets - {l.order[0]};
  }

  lemma EvictedTwice(l: Limiter, a: nat, b: nat)
    requires b <= a <= |l.order|
    ensures Evicted(Evicted(l, a), b) == Evicted(l, b)
  {
    var once, twice := Evicted(l, a), Evicted(Evicted(l, a), b);
    assert twice.order == Evicted(l, b).order;
    assert forall k :: k in twice.order ==> k in once.order;
    assert twice.buckets == Evicted(l, b).buckets;
  }

  /** With max_buckets below one the eviction loop runs into an empty dict and popitem raises. */
  function Decide(p: Params, l: Limiter, c: Call): Decision {
    if c.key in l.buckets then Touched(p, l.buckets[c.key], l, Without(l.order, c.key) + [c.key], c)
    else
      var room := Evicted(l, Room(p.maxBuckets, |l.order|));
      if p.maxBuckets.Some? && p.maxBuckets.value < 1 then Decision(room, KeyError)
      else Touched(p, Bucket(p.capacity, c.createdAt), room, room.order + [c.key], c)
  }

  class RateLimiter {
    const capacity: real
    const refillPerS: real
    const maxBuckets: Option<int>
    var order: seq<string>
    var buckets: map<string, TokenBucket>

    ghost predicate Valid()
      reads this, buckets.Values
    {
      && Orders(order, buckets.Keys)
      && (forall k :: k in buckets ==> buckets[k].capacity == capacity && buckets[k].refillPerS == refillPerS)
      && (forall j, k :: j in buckets && k in buckets && j != k ==> buckets[j] != buckets[k])
    }

    function View(): Limiter
      reads this, buckets.Values
    {
      Limiter(order, map k | k in buckets :: buckets[k].View())
    }

    constructor (capacity: real, refillPerS: real, maxBuckets: Option<int>)
      ensures Valid() && View() == EMPTY
      ensures this.capacity == capacity && this.refillPerS == refillPerS && this.maxBuckets == maxBuckets
    {
      this.capacity, this.refillPerS, this.maxBuckets, order, buckets := capacity, refillPerS, maxBuckets, [], map[];
    }

    /** popitem(last=False) */
    method PopOldest()
      requires Valid() && order != []
      modifies this`order, this`buckets
      ensures Valid() && forall k :: k in buckets ==> k in old(buckets) && buckets[k] == old(buckets)[k]
      ensures View() == Evicted(old(View()), |old(order)| - 1)
    {
      EvictedOne(View(), buckets);
      buckets := buckets - {order[0]};
      order := order[1..];
      assert View().buckets == old(View()).buckets - {old(order)[0]};
    }

    /** Pop until fewer than limit remain; raised reports popitem on an empty dict. */
    method PopDownTo(limit: int) returns (raised: bool)
      requires Valid()
      modifies this`order, this`buckets
      ensures Valid() && forall k :: k in buckets ==> k in old(buckets) && buckets[k] == old(buckets)[k]
      ensures raised == (limit < 1)
      ensures View() == Evicted(old(View()), Room(Some(limit), |old(order)|))
    {
      EvictedAll(View(), buckets);
      ghost var l := View();
      raised := false;
      while |order| >= limit
        invariant Valid() && forall k :: k in buckets ==> k in old(buckets) && buckets[k] == old(buckets)[k]
        invariant |order| <= |l.order| && View() == Evicted(l, |order|)
        invariant |order| < |l.order| ==> |order| + 1 >= limit
        decreases |order|
      {
        if order == [] {
          return true;
        }
        EvictedTwice(l, |order|, |order| - 1);
        PopOldest();
      }
    }

    method MakeRoom() returns (raised: bool)
      requires Valid()
      modifies this`order, this`buckets
      ensures Valid() && forall k :: k in buckets ==> k in old(buckets) && buckets[k] == old(buckets)[k]
      ensures raised == (maxBuckets.Some? && maxBuckets.value < 1)
      ensures View() == Evicted(old(View()), Room(maxBuckets, |old(order)|))
    {
      if maxBuckets.Some? {
        raised := PopDownTo(maxBuckets.value);
      } else {
        EvictedAll(View(), buckets);
        raised := false;
      }
    }

    /** bucket.allow on the bucket stored for the key. */
    method UseBucket(c: Call) returns (a: Answer)
      requires Valid() && c.key in buckets
      modifies buckets[c.key]
      ensures Valid()
      ensures
        var p := Params(capacity, refillPerS, maxBuckets);
        Decision(View(), a) == Touched(p, old(View()).buckets[c.key], old(View()), order, c)
    {
      ghost var l, b := View(), buckets[c.key].View();
      var ok := buckets[c.key].Allow(c.now, c.cost);
      a := if ok then Allowed else Denied;
      OneBucketChanged(l, c.key, Charged(Params(capacity, refillPerS, maxBuckets), b, c.now, c.cost));
    }

    /** The view when only one bucket differs from the limiter l. */
    lemma OneBucketChanged(l: Limiter, key: string, b: Bucket)
      requires key in buckets && buckets.Keys == l.buckets.Keys && order == l.order
      requires forall k :: k in buckets ==> buckets[k].View() == if k == key then b else l.buckets[k]
      ensures View() == Limiter(l.order, l.buckets[key := b])
    {
    }

    method AddBucket(c: Call)
      requires Valid() && c.key !in buckets
      modifies this`order, this`buckets
      ensures Valid() && c.key in buckets && fresh(buckets[c.key]) && buckets.Keys == old(buckets.Keys) + {c.key}
      ensures forall k :: k in old(buckets) ==> buckets[k] == old(buckets)[k]
      ensures View() == Limiter(old(order) + [c.key], old(View()).buckets[c.key := Bucket(capacity, c.createdAt)])
    {
      var bucket := new TokenBucket(capacity, refillPerS, capacity, c.createdAt);
      buckets := buckets[c.key := bucket];
      order := order + [c.key];
      OrdersAppend(old(order), old(buckets.Keys), c.key);
      assert buckets.Keys == old(buckets.Keys) + {c.key};
    }

    method UseNewBucket(c: Call) returns (a: Answer)
      requires Valid() && c.key !in buckets
      modifies this`order, this`buckets
      ensures Valid() && forall k :: k in buckets ==>
        fresh(buckets[k]) || (k in old(buckets) && buckets[k] == old(buckets)[k])
      ensures
        var p := Params(capacity, refillPerS, maxBuckets);
        Decision(View(), a) == Touched(p, Bucket(capacity, c.createdAt), old(View()), old(order) + [c.key], c)
    {
      ghost var l := View();
      AddBucket(c);
      a := UseBucket(c);
      ghost var b := Bucket(capacity, c.createdAt);
      ghost var used := Charged(Params(capacity, refillPerS, maxBuckets), b, c.now, c.cost);
      assert l.buckets[c.key := b][c.key := used] == l.buckets[c.key := used];
    }

    method Allow(c: Call) returns (a: Answer)
      requires Valid()
      modifies this, buckets.Values
      ensures Valid() && forall k :: k in buckets ==>
        fresh(buckets[k]) || (k in old(buckets) && buckets[k] == old(buckets)[k])
      ensures Decision(View(), a) == Decide(Params(capacity, refillPerS, maxBuckets), old(View()), c)
    {
      ghost var l := View();
      if c.key in buckets {
        OrdersWithout(order, buckets.Keys, c.key);
        OrdersAppend(Without(order, c.key), buckets.Keys - {c.key}, c.key);
        assert buckets.Keys - {c.key} + {c.key} == buckets.Keys;
        order := Without(order, c.key) + [c.key];
        assert View().buckets == l.buckets;
        a := UseBucket(c);
        return;
      }
      var raised := MakeRoom();
      OrdersMembers(order, buckets.Keys);
      if raised {
        return KeyError;
      }
      a := UseNewBucket(c);
    }
  }
}
