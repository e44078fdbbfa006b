/** `SELECT ... ORDER BY key LIMIT n` over integer row ids: any order among equal keys is allowed. */
module Selection {
  import opened Options

  /** ids is a repetition-free listing of rows of due in key order. */
  predicate Listing(due: map<int, int>, ids: seq<int>) {
    && Distinct(ids)
    && (forall i :: 0 <= i < |ids| ==> ids[i] in due)
    && (forall i, j :: 0 <= i < j < |ids| ==> due[ids[i]] <= due[ids[j]])
  }

  predicate IsTop(due: map<int, int>, n: nat, ids: seq<int>) {
    && Listing(due, ids)
    && |ids| == (if |due| < n then |due| else n)
    && (forall id, other :: id in ids && other in due && other !in ids ==> due[id] <= due[other])
  }

  /** A selection whose limit is not reached misses no row. */
  lemma TopIsAll(due: map<int, int>, n: nat, ids: seq<int>)
    requires IsTop(due, n, ids) && |due| <= n
    ensures forall id :: id in due ==> id in ids
  {
    DistinctSize(ids);
    assert |due.Keys| == |due|;
    SubsetSize(SetOf(ids), due.Keys);
  }

  /** No more than n rows, and a row is left out only by a full selection of rows with no greater key. */
  ghost predicate Misses(due: map<int, int>, n: nat, ids: seq<int>, id: int)
    requires id in due && forall i :: 0 <= i < |ids| ==> ids[i] in due
  {
    |ids| == n && forall i :: 0 <= i < |ids| ==> due[ids[i]] <= due[id]
  }

  lemma TopMisses(due: map<int, int>, n: nat, ids: seq<int>, id: int)
    requires IsTop(due, n, ids) && id in due && id !in ids
    ensures Misses(due, n, ids, id)
  {
    if |due| <= n {
      TopIsAll(due, n, ids);
    }
    forall i | 0 <= i < |ids| ensures due[ids[i]] <= due[id] {
      var first := ids[i];
      assert first in ids && id in due && id !in ids;
    }
  }

  lemma MissingIsTop(due: map<int, int>, n: nat, ids: seq<int>)
    requires Listing(due, ids) && |ids| <= n
    requires forall id :: id in due && id !in ids ==> Misses(due, n, ids, id)
    ensures IsTop(due, n, ids)
  {
    DistinctSize(ids);
    SubsetSize(SetOf(ids), due.Keys);
    assert |due.Keys| == |due|;
    if |ids| < n {
      assert forall id :: id in due ==> id in SetOf(ids);
      assert SetOf(ids) == due.Keys;
    }
    forall id, other | id in ids && other in due && other !in ids ensures due[id] <= due[other] {
      assert Misses(due, n, ids, other);
      var i :| 0 <= i < |ids| && ids[i] == id;
    }
  }

  lemma PrefixIsTop(due: map<int, int>, n: nat, all: seq<int>)
    requires Listing(due, all) && SetOf(all) == due.Keys
    ensures IsTop(due, n, if |all| < n then all else all[..n])
  {
    DistinctSize(all);
    var ids := if |all| < n then all else all[..n];
    forall id, other | id in ids && other in due && other !in ids
      ensures due[id] <= due[other]
    {
      var i :| 0 <= i < |ids| && ids[i] == id;
      assert other in SetOf(all);
      var j :| 0 <= j < |all| && all[j] == other;
    }
  }

  /** The engine's sort, by insertion; rows arrive in no particular order. */
  method OrderByLimit(due: map<int, int>, n: nat) returns (ids: seq<int>)
    ensures IsTop(due, n, ids)
  {
    var all: seq<int> := [];
    var rest := due.Keys;
    while rest != {}
      invariant rest <= due.Keys
      invariant Listing(due, all) && SetOf(all) == due.Keys - rest
      decreases |rest|
    {
      var id := Pick(rest);
      assert id !in SetOf(all);
      all := InsertRow(due, all, id);
      rest := rest - {id};
    }
    PrefixIsTop(due, n, all);
    ids := if |all| < n then all else all[..n];
  }

  /** Inserting a row behind those that do not exceed its key keeps the listing. */
  lemma InsertedAt(due: map<int, int>, s: seq<int>, p: nat, id: int)
    requires Listing(due, s) && id in due && id !in s && p <= |s|
    requires forall i :: 0 <= i < p ==> due[s[i]] <= due[id]
    requires p < |s| ==> due[id] <= due[s[p]]
    ensures Listing(due, s[..p] + [id] + s[p..]) && SetOf(s[..p] + [id] + s[p..]) == SetOf(s) + {id}
  {
    var r := s[..p] + [id] + s[p..];
    InsertedMembers(s, p, id);
    forall i, j | 0 <= i < j < |r| ensures r[i] != r[j] && due[r[i]] <= due[r[j]] {
      var a, b := if i < p then i else i - 1, if j < p then j else j - 1;
      if i == p {
        assert r[j] == s[b] && s[b] in s;
      } else if j == p {
        assert r[i] == s[a] && s[a] in s;
      } else {
        assert r[i] == s[a] && r[j] == s[b];
      }
    }
  }

  lemma InsertedMembers(s: seq<int>, p: nat, id: int)
    requires p <= |s|
    ensures SetOf(s[..p] + [id] + s[p..]) == SetOf(s) + {id}
  {
    assert s == s[..p] + s[p..];
    assert forall y :: y in s[..p] + [id] + s[p..] <==> y == id || y in s;
  }

  method InsertRow(due: map<int, int>, s: seq<int>, id: int) returns (r: seq<int>)
    requires Listing(due, s) && id in due && id !in s
    ensures Listing(due, r) && SetOf(r) == SetOf(s) + {id}
  {
    var p := 0;
    while p < |s| && due[s[p]] <= due[id]
      invariant 0 <= p <= |s|
      invariant forall i :: 0 <= i < p ==> due[s[i]] <= due[id]
    {
      p := p + 1;
    }
    InsertedAt(due, s, p, id);
    r := s[..p] + [id] + s[p..];
  }
}
