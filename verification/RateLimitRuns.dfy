/** What whole call traces of the limiter guarantee. */
module RateLimitRuns {
  import opened Options
  import opened RateLimit

  function KeysOf(calls: seq<Call>): (ks: seq<string>)
    ensures |ks| == |calls| && forall i :: 0 <= i < |ks| ==> ks[i] == calls[i].key
  {
    seq(|calls|, i requires 0 <= i < |calls| => calls[i].key)
  }

  /** The limiter after a trace, from the empty one. */
  function After(p: Params, calls: seq<Call>): Limiter {
    if calls == [] then EMPTY else Decide(p, After(p, calls[..|calls| - 1]), calls[|calls| - 1]).limiter
  }

  /** What call number i of the trace is answered. */
  function AnswerAt(p: Params, calls: seq<Call>, i: nat): Answer
    requires i < |calls|
  {
    Decide(p, After(p, calls[..i]), calls[i]).answer
  }

  // ----- last-use order -----

  function LruOrder(ks: seq<string>): seq<string> {
    if ks == [] then [] else Without(LruOrder(ks[..|ks| - 1]), ks[|ks| - 1]) + [ks[|ks| - 1]]
  }

  /** Index of the last use of k, -1 if it was never used. */
  function LastUse(ks: seq<string>, k: string): (n: int)
    ensures -1 <= n < |ks|
    ensures n >= 0 ==> ks[n] == k
  {
    if ks == [] then -1 else if ks[|ks| - 1] == k then |ks| - 1 else LastUse(ks[..|ks| - 1], k)
  }

  lemma {:induction false} UsedHasLastUse(ks: seq<string>, k: string)
    ensures LastUse(ks, k) >= 0 <==> k in ks
  {
    if ks != [] {
      UsedHasLastUse(ks[..|ks| - 1], k);
      assert ks == ks[..|ks| - 1] + [ks[|ks| - 1]];
    }
  }

  /** s is increasing in last use. */
  predicate ByLastUse(ks: seq<string>, s: seq<string>) {
    s == [] || ((forall x :: x in s[1..] ==> LastUse(ks, s[0]) < LastUse(ks, x)) && ByLastUse(ks, s[1..]))
  }

  lemma {:induction false} ByLastUseNext(ks: seq<string>, s: seq<string>, k: string)
    requires ByLastUse(ks, s)
    ensures ByLastUse(ks + [k], Without(s, k) + [k])
  {
    assert (ks + [k])[..|ks|] == ks;
    if s != [] {
      ByLastUseNext(ks, s[1..], k);
      if s[0] != k {
        assert (Without(s, k) + [k])[1..] == Without(s[1..], k) + [k];
      } else {
        assert Without(s, k) == Without(s[1..], k);
      }
    }
  }

  /** The order of the unbounded limiter lists every key used, once, from least to most recently used. */
  lemma {:induction false} LruOrderIsLastUseOrder(ks: seq<string>)
    ensures Orders(LruOrder(ks), SetOf(ks)) && ByLastUse(ks, LruOrder(ks))
  {
    if ks != [] {
      var front, k := ks[..|ks| - 1], ks[|ks| - 1];
      LruOrderIsLastUseOrder(front);
      assert ks == front + [k];
      ByLastUseNext(front, LruOrder(front), k);
      OrdersWithout(LruOrder(front), SetOf(front), k);
      OrdersAppend(Without(LruOrder(front), k), SetOf(front) - {k}, k);
      assert SetOf(ks) == SetOf(front) - {k} + {k};
    }
  }

  // ----- the bounded limiter keeps the most recently used keys -----

  lemma {:induction false} WithoutAppend(s: seq<string>, t: seq<string>, k: string)
    ensures Without(s + t, k) == Without(s, k) + Without(t, k)
  {
    if s == [] {
      assert s + t == t;
    } else {
      var h := if s[0] == k then [] else [s[0]];
      calc {
        Without(s + t, k);
        { assert (s + t)[1..] == s[1..] + t; }
        h + Without(s[1..] + t, k);
        { WithoutAppend(s[1..], t, k); }
        h + (Without(s[1..], k) + Without(t, k));
        Without(s, k) + Without(t, k);
      }
    }
  }

  lemma {:induction false} WithoutAbsent(s: seq<string>, k: string)
    requires k !in s
    ensures Without(s, k) == s
  {
    if s != [] {
      WithoutAbsent(s[1..], k);
      assert s == [s[0]] + s[1..];
    }
  }

  lemma SuffixOfAppend(a: seq<string>, b: seq<string>, n: nat)
    requires |b| == n || (a == [] && |b| <= n)
    ensures Suffix(a + b, n) == b
  {
  }

  /** The last n keys after k is touched, given the last n before. */
  function Retouched(kept: seq<string>, k: string, n: nat): seq<string>
    requires n >= 1
  {
    (if k in kept then Without(kept, k) else Suffix(kept, if |kept| < n then |kept| else n - 1)) + [k]
  }

  /** Touching a key and cutting to the last n commute, whether or not the key survived the cut. */
  lemma TouchSuffix(s: seq<string>, keys: set<string>, k: string, n: nat)
    requires Orders(s, keys) && n >= 1
    ensures Suffix(Without(s, k) + [k], n) == Retouched(Suffix(s, n), k, n)
  {
    var kept := Suffix(s, n);
    var cut := s[..|s| - |kept|];
    assert s == cut + kept;
    WithoutAppend(cut, kept, k);
    if k in kept {
      OrdersDistinct(s, keys);
      SplitDistinct(s, |cut|, k);
      WithoutSize(kept, k);
      TouchKept(cut, kept, k, n);
    } else {
      TouchCut(Without(cut, k), kept, k, n);
    }
  }

  lemma SplitDistinct(s: seq<string>, i: nat, k: string)
    requires Distinct(s) && i <= |s| && k in s[i..]
    ensures k !in s[..i] && Distinct(s[i..])
  {
    var j :| 0 <= j < |s[i..]| && s[i..][j] == k;
    assert s[i + j] == k;
  }

  lemma TouchKept(cut: seq<string>, kept: seq<string>, k: string, n: nat)
    requires k !in cut && |Without(kept, k)| + 1 == |kept| <= n && (cut != [] ==> |kept| == n)
    ensures Suffix(Without(cut, k) + Without(kept, k) + [k], n) == Without(kept, k) + [k]
  {
    WithoutAbsent(cut, k);
    SuffixOfAppend(cut, Without(kept, k) + [k], n);
    assert Without(cut, k) + Without(kept, k) + [k] == cut + (Without(kept, k) + [k]);
  }

  lemma TouchCut(cut: seq<string>, kept: seq<string>, k: string, n: nat)
    requires k !in kept && n >= 1 && |kept| <= n && (cut != [] ==> |kept| == n)
    ensures Suffix(cut + Without(kept, k) + [k], n) == Suffix(kept, if |kept| < n then |kept| else n - 1) + [k]
  {
    WithoutAbsent(kept, k);
    var head := if |kept| < n then 0 else 1;
    assert kept == kept[..head] + kept[head..];
    assert Suffix(kept, |kept| - head) == kept[head..];
    SuffixOfAppend(cut + kept[..head], kept[head..] + [k], n);
    assert cut + kept + [k] == (cut + kept[..head]) + (kept[head..] + [k]);
  }

  lemma {:induction false} WithoutSize(s: seq<string>, k: string)
    requires Distinct(s)
    ensures |Without(s, k)| == |s| - (if k in s then 1 else 0)
  {
    if s != [] {
      WithoutSize(s[1..], k);
      assert s == [s[0]] + s[1..];
    }
  }

  function Bounded(p: Params, s: seq<string>): seq<string>
    requires p.maxBuckets.Some? ==> p.maxBuckets.value >= 1
  {
    if p.maxBuckets.Some? then Suffix(s, p.maxBuckets.value) else s
  }

  lemma DecideOrder(p: Params, l: Limiter, c: Call, lru: seq<string>, used: set<string>)
    requires p.maxBuckets.Some? ==> p.maxBuckets.value >= 1
    requires Orders(l.order, l.buckets.Keys) && Orders(lru, used) && l.order == Bounded(p, lru)
    ensures Decide(p, l, c).limiter.order == Bounded(p, Without(lru, c.key) + [c.key])
  {
    OrdersMembers(l.order, l.buckets.Keys);
    if p.maxBuckets.Some? {
      var m := p.maxBuckets.value;
      TouchSuffix(lru, used, c.key, m);
      assert Decide(p, l, c).limiter.order == Retouched(l.order, c.key, m);
    } else if c.key !in l.buckets {
      WithoutAbsent(lru, c.key);
    }
  }

  /** The order of the map is always the last-use order, cut to the most recently used max_buckets keys. */
  lemma {:induction false} OrderOfRun(p: Params, calls: seq<Call>)
    requires p.maxBuckets.Some? ==> p.maxBuckets.value >= 1
    ensures
      var l := After(p, calls);
      Orders(l.order, l.buckets.Keys) && l.order == Bounded(p, LruOrder(KeysOf(calls)))
    decreases |calls|
  {
    if calls != [] {
      var front, c := calls[..|calls| - 1], calls[|calls| - 1];
      var ks := KeysOf(calls);
      assert ks[..|ks| - 1] == KeysOf(front);
      OrderOfRun(p, front);
      LruOrderIsLastUseOrder(KeysOf(front));
      DecideOrders(p, After(p, front), c);
      DecideOrder(p, After(p, front), c, LruOrder(KeysOf(front)), SetOf(KeysOf(front)));
    }
  }

  lemma DecideOrders(p: Params, l: Limiter, c: Call)
    requires Orders(l.order, l.buckets.Keys) && (p.maxBuckets.Some? ==> p.maxBuckets.value >= 1)
    ensures
      var next := Decide(p, l, c).limiter;
      Orders(next.order, next.buckets.Keys)
  {
    var next := Decide(p, l, c).limiter;
    if c.key in l.buckets {
      OrdersWithout(l.order, l.buckets.Keys, c.key);
      OrdersAppend(Without(l.order, c.key), l.buckets.Keys - {c.key}, c.key);
      assert next.buckets.Keys == l.buckets.Keys - {c.key} + {c.key};
    } else {
      var room := Evicted(l, Room(p.maxBuckets, |l.order|));
      OrdersSuffix(l.order, l.buckets.Keys, |room.order|);
      OrdersMembers(l.order, l.buckets.Keys);
      assert room.buckets.Keys == SetOf(room.order);
      OrdersAppend(room.order, room.buckets.Keys, c.key);
      assert next.buckets.Keys == room.buckets.Keys + {c.key};
    }
  }

  lemma {:induction false} OrdersSuffix(s: seq<string>, keys: set<string>, n: nat)
    requires Orders(s, keys) && n <= |s|
    ensures Orders(Suffix(s, n), SetOf(Suffix(s, n)))
  {
    if |s| == n {
      OrdersMembers(s, keys);
      assert SetOf(s) == keys;
    } else {
      OrdersSuffix(s[1..], keys - {s[0]}, n);
      assert Suffix(s, n) == Suffix(s[1..], n);
    }
  }

  // ----- the bounded limiter answers like the unbounded one -----

  /** Fewer than m distinct other keys were used since the last use of k. */
  predicate UsedRecently(used: seq<string>, k: string, m: int) {
    |SetOf(used[LastUse(used, k) + 1..])| < m
  }

  /** Fewer than m distinct other keys occur between consecutive uses of any key. */
  predicate SparseReuse(ks: seq<string>, m: int) {
    ks == [] ||
    (var used, k := ks[..|ks| - 1], ks[|ks| - 1];
     SparseReuse(used, m) && (k in used ==> UsedRecently(used, k, m)))
  }

  lemma {:induction false} LaterInOrder(ks: seq<string>, s: seq<string>, i: nat, j: nat)
    requires ByLastUse(ks, s) && i < j < |s|
    ensures LastUse(ks, s[i]) < LastUse(ks, s[j])
  {
    if i > 0 {
      LaterInOrder(ks, s[1..], i - 1, j - 1);
    } else {
      assert s[j] == s[1..][j - 1];
    }
  }

  lemma {:induction false} OrdersSize(s: seq<string>, keys: set<string>)
    requires Orders(s, keys)
    ensures |s| == |keys|
  {
    if s != [] {
      OrdersSize(s[1..], keys - {s[0]});
    }
  }

  /** A key after k in last-use order was used since the last use of k. */
  lemma UsedSince(ks: seq<string>, order: seq<string>, i: nat, j: nat)
    requires ByLastUse(ks, order) && i < j < |order| && order[j] in ks
    ensures order[j] in ks[LastUse(ks, order[i]) + 1..]
  {
    var x, from := order[j], LastUse(ks, order[i]) + 1;
    LaterInOrder(ks, order, i, j);
    UsedHasLastUse(ks, x);
    assert ks[from..][LastUse(ks, x) - from] == x;
  }

  lemma {:induction false} OrdersAt(s: seq<string>, keys: set<string>, i: nat)
    requires Orders(s, keys) && i < |s|
    ensures s[i] in keys
  {
    if i > 0 {
      OrdersAt(s[1..], keys - {s[0]}, i - 1);
    }
  }

  lemma TailKeyUsedSince(ks: seq<string>, p: nat, x: string)
    requires p < |LruOrder(ks)| && x in LruOrder(ks)[p + 1..]
    ensures x in ks[LastUse(ks, LruOrder(ks)[p]) + 1..]
  {
    var order := LruOrder(ks);
    var j :| 0 <= j < |order| - p - 1 && order[p + 1..][j] == x;
    LruOrderIsLastUseOrder(ks);
    OrdersAt(order, SetOf(ks), p + 1 + j);
    UsedSince(ks, order, p, p + 1 + j);
  }

  lemma TailUsedSince(ks: seq<string>, p: nat)
    requires p < |LruOrder(ks)|
    ensures SetOf(LruOrder(ks)[p + 1..]) <= SetOf(ks[LastUse(ks, LruOrder(ks)[p]) + 1..])
  {
    var tail, since := SetOf(LruOrder(ks)[p + 1..]), SetOf(ks[LastUse(ks, LruOrder(ks)[p]) + 1..]);
    forall x | x in tail
      ensures x in since
    {
      TailKeyUsedSince(ks, p, x);
    }
  }

  lemma SuffixSize(s: seq<string>, keys: set<string>, i: nat)
    requires Orders(s, keys) && i <= |s|
    ensures |SetOf(s[i..])| == |s| - i
  {
    assert s[i..] == Suffix(s, |s| - i);
    OrdersSuffix(s, keys, |s| - i);
    OrdersSize(s[i..], SetOf(s[i..]));
  }

  lemma FewUsedSince(ks: seq<string>, p: nat)
    requires p < |LruOrder(ks)|
    ensures |LruOrder(ks)| - p - 1 <= |SetOf(ks[LastUse(ks, LruOrder(ks)[p]) + 1..])|
  {
    TailUsedSince(ks, p);
    LruOrderIsLastUseOrder(ks);
    SuffixSize(LruOrder(ks), SetOf(ks), p + 1);
    SubsetSize(SetOf(LruOrder(ks)[p + 1..]), SetOf(ks[LastUse(ks, LruOrder(ks)[p]) + 1..]));
  }

  lemma PositionOf(ks: seq<string>, k: string) returns (p: nat)
    requires k in ks
    ensures p < |LruOrder(ks)| && LruOrder(ks)[p] == k
  {
    LruOrderIsLastUseOrder(ks);
    OrdersMembers(LruOrder(ks), SetOf(ks));
    assert k in SetOf(ks);
    p :| 0 <= p < |LruOrder(ks)| && LruOrder(ks)[p] == k;
  }

  lemma InSuffix(s: seq<string>, p: nat, n: nat)
    requires |s| - n <= p < |s|
    ensures s[p] in Suffix(s, n)
  {
    assert Suffix(s, n)[p - (|s| - |Suffix(s, n)|)] == s[p];
  }

  lemma RecentKeyKept(ks: seq<string>, k: string, m: int)
    requires k in ks && m >= 1 && UsedRecently(ks, k, m)
    ensures k in Suffix(LruOrder(ks), m)
  {
    var p := PositionOf(ks, k);
    FewUsedSince(ks, p);
    InSuffix(LruOrder(ks), p, m);
  }

  function Unbounded(p: Params): Params {
    p.(maxBuckets := None)
  }

  ghost predicate Agree(u: Limiter, b: Limiter) {
    forall k :: k in b.buckets ==> k in u.buckets && b.buckets[k] == u.buckets[k]
  }

  /** The two limiters charge equal buckets alike. */
  lemma AgreeTouched(p: Params, from: Bucket, u: Limiter, b: Limiter, uo: seq<string>, bo: seq<string>, c: Call)
    requires Agree(u, b)
    ensures Agree(Touched(Unbounded(p), from, u, uo, c).limiter, Touched(p, from, b, bo, c).limiter)
    ensures Touched(Unbounded(p), from, u, uo, c).answer == Touched(p, from, b, bo, c).answer
  {
  }

  /** One call, when the key, if the unbounded limiter knows it, is still known to the bounded one. */
  lemma AgreeStep(p: Params, u: Limiter, b: Limiter, c: Call)
    requires p.maxBuckets.Some? && p.maxBuckets.value >= 1 && Agree(u, b)
    requires Orders(u.order, u.buckets.Keys) && (c.key in u.buckets ==> c.key in b.buckets)
    ensures Agree(Decide(Unbounded(p), u, c).limiter, Decide(p, b, c).limiter)
    ensures Decide(Unbounded(p), u, c).answer == Decide(p, b, c).answer
  {
    if c.key in b.buckets {
      var uo, bo := Without(u.order, c.key) + [c.key], Without(b.order, c.key) + [c.key];
      AgreeTouched(p, b.buckets[c.key], u, b, uo, bo, c);
    } else {
      EvictedAll(u, u.buckets);
      var room := Evicted(b, Room(p.maxBuckets, |b.order|));
      assert Agree(u, room);
      AgreeTouched(p, Bucket(p.capacity, c.createdAt), u, room, u.order + [c.key], room.order + [c.key], c);
    }
  }

  lemma KnownUnbounded(p: Params, calls: seq<Call>, k: string)
    requires p.maxBuckets.None?
    ensures k in After(p, calls).buckets <==> k in KeysOf(calls)
  {
    OrderOfRun(p, calls);
    OrdersMembers(After(p, calls).order, After(p, calls).buckets.Keys);
    LruOrderIsLastUseOrder(KeysOf(calls));
    OrdersMembers(LruOrder(KeysOf(calls)), SetOf(KeysOf(calls)));
    assert k in SetOf(KeysOf(calls)) <==> k in KeysOf(calls);
  }

  lemma KnownBounded(p: Params, calls: seq<Call>, k: string)
    requires p.maxBuckets.Some? && p.maxBuckets.value >= 1
    ensures k in After(p, calls).buckets <==> k in Suffix(LruOrder(KeysOf(calls)), p.maxBuckets.value)
  {
    OrderOfRun(p, calls);
    OrdersMembers(After(p, calls).order, After(p, calls).buckets.Keys);
  }

  /** Sparse reuse: a key the unbounded limiter knows when it is used again, the bounded one knows too. */
  lemma StillKnown(p: Params, front: seq<Call>, k: string)
    requires p.maxBuckets.Some? && p.maxBuckets.value >= 1
    requires k in KeysOf(front) ==> UsedRecently(KeysOf(front), k, p.maxBuckets.value)
    ensures k in After(Unbounded(p), front).buckets ==> k in After(p, front).buckets
  {
    KnownUnbounded(Unbounded(p), front, k);
    KnownBounded(p, front, k);
    if k in KeysOf(front) {
      RecentKeyKept(KeysOf(front), k, p.maxBuckets.value);
    }
  }

  lemma {:induction false} RunsAgree(p: Params, calls: seq<Call>)
    requires p.maxBuckets.Some? && p.maxBuckets.value >= 1 && SparseReuse(KeysOf(calls), p.maxBuckets.value)
    ensures Agree(After(Unbounded(p), calls), After(p, calls))
    ensures calls != [] ==> AnswerAt(p, calls, |calls| - 1) == AnswerAt(Unbounded(p), calls, |calls| - 1)
    decreases |calls|
  {
    if calls != [] {
      var front, c := calls[..|calls| - 1], calls[|calls| - 1];
      assert KeysOf(calls)[..|calls| - 1] == KeysOf(front);
      RunsAgree(p, front);
      StillKnown(p, front, c.key);
      OrderOfRun(Unbounded(p), front);
      AgreeStep(p, After(Unbounded(p), front), After(p, front), c);
    }
  }

  lemma {:induction false} SparsePrefix(ks: seq<string>, n: nat, m: int)
    requires n <= |ks| && SparseReuse(ks, m)
    ensures SparseReuse(ks[..n], m)
  {
    if n < |ks| {
      SparsePrefix(ks[..|ks| - 1], n, m);
      assert ks[..|ks| - 1][..n] == ks[..n];
    } else {
      assert ks[..n] == ks;
    }
  }

  lemma AnswersAgree(p: Params, calls: seq<Call>, i: nat)
    requires p.maxBuckets.Some? && p.maxBuckets.value >= 1 && SparseReuse(KeysOf(calls), p.maxBuckets.value)
    requires i < |calls|
    ensures AnswerAt(p, calls, i) == AnswerAt(Unbounded(p), calls, i)
  {
    var upTo := calls[..i + 1];
    SparsePrefix(KeysOf(calls), i + 1, p.maxBuckets.value);
    assert KeysOf(upTo) == KeysOf(calls)[..i + 1];
    RunsAgree(p, upTo);
    assert upTo[..i] == calls[..i];
  }

  /**
   RESULT: on every trace with sparse reuse the limiter bounded by m >= 1 buckets gives every call the answer the
   unbounded one gives; on every trace it holds at most m buckets, in last-use order.
   */
  lemma BoundedRefinesUnbounded(p: Params, calls: seq<Call>)
    requires p.maxBuckets.Some? && p.maxBuckets.value >= 1
    ensures
      var l := After(p, calls);
      |l.buckets| <= p.maxBuckets.value && l.order == Suffix(LruOrder(KeysOf(calls)), p.maxBuckets.value)
    ensures
      SparseReuse(KeysOf(calls), p.maxBuckets.value) ==>
        forall i :: 0 <= i < |calls| ==> AnswerAt(p, calls, i) == AnswerAt(Unbounded(p), calls, i)
  {
    var l := After(p, calls);
    OrderOfRun(p, calls);
    OrdersSize(l.order, l.buckets.Keys);
    if SparseReuse(KeysOf(calls), p.maxBuckets.value) {
      forall i | 0 <= i < |calls|
        ensures AnswerAt(p, calls, i) == AnswerAt(Unbounded(p), calls, i)
      {
        AnswersAgree(p, calls, i);
      }
    }
  }

  // ----- the sliding-window bound -----

  /** Cost admitted for the key by calls number i up to, not including, j. */
  function Admitted(p: Params, calls: seq<Call>, key: string, i: nat, j: nat): real
    requires j <= |calls|
  {
    if j <= i then 0.0
    else Admitted(p, calls, key, i, j - 1) + PaidAt(p, calls, key, j - 1)
  }

  /** The key is in the map after each of the calls i to j - 1. */
  predicate Stays(p: Params, calls: seq<Call>, key: string, i: nat, j: nat)
    requires j <= |calls|
  {
    j <= i || (key in After(p, calls[..j]).buckets && Stays(p, calls, key, i, j - 1))
  }

  predicate CallOk(calls: seq<Call>, n: nat)
    requires n < |calls|
  {
    calls[n].cost >= 0.0 && (n > 0 ==> calls[n - 1].now <= calls[n].now)
  }

  /** The clock never goes back and no cost is negative. */
  predicate Forward(calls: seq<Call>) {
    forall n :: 0 <= n < |calls| ==> CallOk(calls, n)
  }

  predicate Sane(p: Params) {
    p.capacity >= 0.0 && p.refillPerS >= 0.0
  }

  predicate BucketOk(p: Params, b: Bucket, now: real) {
    0.0 <= b.tokens <= p.capacity && b.updatedAt <= now
  }

  predicate BucketsOk(p: Params, l: Limiter, now: real) {
    forall k :: k in l.buckets ==> BucketOk(p, l.buckets[k], now)
  }

  lemma MulNonNegative(x: real, y: real)
    requires x >= 0.0 && y >= 0.0
    ensures x * y >= 0.0
  {
  }

  function Paid(admitted: bool, cost: real): real {
    if admitted then cost else 0.0
  }

  /** Tokens left plus cost paid are covered by the tokens before plus the refill in between. */
  predicate Covered(p: Params, before: Bucket, after: Bucket, paid: real) {
    after.tokens + paid <= before.tokens + p.refillPerS * (after.updatedAt - before.updatedAt)
  }

  lemma ChargeBound(p: Params, b: Bucket, now: real, cost: real)
    requires Sane(p) && BucketOk(p, b, now) && cost >= 0.0
    ensures
      var b', paid := Charged(p, b, now, cost), Paid(Affordable(p, b, now, cost), cost);
      BucketOk(p, b', now) && b'.updatedAt == now && b'.tokens + paid <= p.capacity && Covered(p, b, b', paid)
  {
    MulNonNegative(now - b.updatedAt, p.refillPerS);
  }

  /** A new bucket starts full, whatever the two clock readings of its first call. */
  lemma FirstCharge(p: Params, createdAt: real, now: real, cost: real)
    requires Sane(p) && cost >= 0.0
    ensures
      var b := Bucket(p.capacity, createdAt);
      var b', paid := Charged(p, b, now, cost), Paid(Affordable(p, b, now, cost), cost);
      BucketOk(p, b', now) && b'.updatedAt == now && b'.tokens + paid <= p.capacity
  {
    MulNonNegative(Max(0.0, now - createdAt), p.refillPerS);
  }

  /** What one call does to its own bucket and to the others. */
  lemma DecideBound(p: Params, l: Limiter, c: Call)
    requires Sane(p) && BucketsOk(p, l, c.now) && c.cost >= 0.0
    ensures
      var d := Decide(p, l, c);
      && BucketsOk(p, d.limiter, c.now)
      && (forall k :: k in d.limiter.buckets && k != c.key ==> k in l.buckets && d.limiter.buckets[k] == l.buckets[k])
    ensures
      var d := Decide(p, l, c);
      c.key in d.limiter.buckets ==>
        var b', paid := d.limiter.buckets[c.key], Paid(d.answer == Allowed, c.cost);
        && b'.updatedAt == c.now && b'.tokens + paid <= p.capacity
        && (c.key in l.buckets ==> Covered(p, l.buckets[c.key], b', paid))
  {
    if c.key in l.buckets {
      ChargeBound(p, l.buckets[c.key], c.now, c.cost);
    } else {
      FirstCharge(p, c.createdAt, c.now, c.cost);
    }
  }

  lemma AfterStep(p: Params, calls: seq<Call>, n: nat)
    requires n < |calls|
    ensures After(p, calls[..n + 1]) == Decide(p, After(p, calls[..n]), calls[n]).limiter
  {
    assert calls[..n + 1][..n] == calls[..n];
  }

  /** In every trace with a nondecreasing clock all tokens lie between zero and the capacity. */
  lemma {:induction false} TokensInRange(p: Params, calls: seq<Call>, n: nat, now: real)
    requires Sane(p) && Forward(calls) && n <= |calls| && (n > 0 ==> calls[n - 1].now <= now)
    ensures BucketsOk(p, After(p, calls[..n]), now)
  {
    if n > 0 {
      var c := calls[n - 1];
      assert CallOk(calls, n - 1);
      TokensInRange(p, calls, n - 1, c.now);
      AfterStep(p, calls, n - 1);
      DecideBound(p, After(p, calls[..n - 1]), c);
    }
  }

  /** Cost paid by call n for the key. */
  function PaidAt(p: Params, calls: seq<Call>, key: string, n: nat): real
    requires n < |calls|
  {
    Paid(calls[n].key == key && AnswerAt(p, calls, n) == Allowed, calls[n].cost)
  }

  /** What call n does to the bucket of the key. */
  lemma CallBound(p: Params, calls: seq<Call>, key: string, n: nat)
    requires Sane(p) && Forward(calls) && n < |calls| && key in After(p, calls[..n + 1]).buckets
    ensures
      var l, b', paid := After(p, calls[..n]), After(p, calls[..n + 1]).buckets[key], PaidAt(p, calls, key, n);
      && BucketOk(p, b', calls[n].now)
      && (if calls[n].key == key
          then b'.updatedAt == calls[n].now && b'.tokens + paid <= p.capacity
              && (key in l.buckets ==> Covered(p, l.buckets[key], b', paid))
          else key in l.buckets && b' == l.buckets[key] && paid == 0.0)
  {
    assert CallOk(calls, n);
    TokensInRange(p, calls, n, calls[n].now);
    AfterStep(p, calls, n);
    DecideBound(p, After(p, calls[..n]), calls[n]);
  }

  /** Covered, with the refill measured as the growth of a potential g. */
  predicate CoveredBy(g: real -> real, before: Bucket, after: Bucket, paid: real) {
    after.tokens + paid <= before.tokens + (g(after.updatedAt) - g(before.updatedAt))
  }

  ghost predicate Measures(p: Params, g: real -> real) {
    forall before, after, paid :: Covered(p, before, after, paid) ==> CoveredBy(g, before, after, paid)
  }

  lemma BudgetSpent(p: Params, calls: seq<Call>, key: string, i: nat, j: nat, g: real -> real) returns (u: real)
    requires Sane(p) && Forward(calls) && i < j <= |calls| && Measures(p, g)
    requires calls[i].key == key && Stays(p, calls, key, i, j)
    ensures u <= calls[j - 1].now && Admitted(p, calls, key, i, j) <= p.capacity + (g(u) - g(calls[i].now))
  {
    Budget(p, calls, key, i, j, g);
    u := After(p, calls[..j]).buckets[key].updatedAt;
  }

  lemma RefillMonotone(rate: real, s: real, u: real, t: real)
    requires rate >= 0.0 && u <= t
    ensures rate * u - rate * s <= rate * (t - s)
  {
    MulNonNegative(rate, t - u);
  }

  /** Tokens left plus cost admitted since call i never exceed the capacity plus the refill since. */
  lemma {:induction false} Budget(p: Params, calls: seq<Call>, key: string, i: nat, j: nat, g: real -> real)
    requires Sane(p) && Forward(calls) && i < j <= |calls| && Measures(p, g)
    requires calls[i].key == key && Stays(p, calls, key, i, j)
    ensures
      && key in After(p, calls[..j]).buckets
      && var b := After(p, calls[..j]).buckets[key];
      && BucketOk(p, b, calls[j - 1].now)
      && Admitted(p, calls, key, i, j) + b.tokens <= p.capacity + (g(b.updatedAt) - g(calls[i].now))
    decreases j
  {
    var n := j - 1;
    CallBound(p, calls, key, n);
    if n > i {
      Budget(p, calls, key, i, n, g);
      var b, b' := After(p, calls[..n]).buckets[key], After(p, calls[..j]).buckets[key];
      assert calls[n].key == key ==> CoveredBy(g, b, b', PaidAt(p, calls, key, n));
    }
  }

  /** The most a bucket can give out between calls at times s and t. */
  function Allowance(p: Params, s: real, t: real): real {
    p.capacity + p.refillPerS * (t - s)
  }

  lemma AllowanceCovers(p: Params, s: real, t: real, g: real -> real)
    requires Sane(p) && forall u :: g(u) == p.refillPerS * u
    ensures Measures(p, g)
    ensures forall u :: u <= t ==> p.capacity + (g(u) - g(s)) <= Allowance(p, s, t)
  {
    forall u | u <= t
      ensures p.capacity + (g(u) - g(s)) <= Allowance(p, s, t)
    {
      RefillMonotone(p.refillPerS, s, u, t);
    }
  }

  /**
   RESULT: the cost admitted for a key from one of its calls at time s to a call at time t is at most
   capacity + refill_per_s * (t - s), in any trace and any window in which the key is not evicted.
   */
  lemma WindowBound(p: Params, calls: seq<Call>, key: string, i: nat, j: nat)
    requires Sane(p) && Forward(calls) && i < j <= |calls|
    requires calls[i].key == key && Stays(p, calls, key, i, j)
    ensures Admitted(p, calls, key, i, j) <= Allowance(p, calls[i].now, calls[j - 1].now)
  {
    var g := (u: real) => p.refillPerS * u;
    AllowanceCovers(p, calls[i].now, calls[j - 1].now, g);
    var u := BudgetSpent(p, calls, key, i, j, g);
  }
}
