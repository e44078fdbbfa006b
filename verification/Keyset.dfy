/** Walks over keyset pages: each page starts strictly below the last row of the one before. */
module Keyset {
  import opened Options
  import opened Text
  import opened Cases

  /** The pages of a walk so far, the table changing in between. It may stop anywhere; a page that is not full ends
      it. */
  ghost predicate Walk(tables: seq<Table>, f: Filter, n: nat, at: Option<Cursor>, pages: seq<seq<Case>>)
    decreases |pages|
  {
    && n > 0 && |tables| == |pages|
    && (pages == [] ||
        (&& IsPage(Rows(tables[0], f, at), n, pages[0])
         && if |pages[0]| < n then |pages| == 1
            else Walk(tables[1..], f, n, Some(Last(pages[0])), pages[1..])))
  }

  predicate Ended(n: nat, pages: seq<seq<Case>>) {
    pages != [] && |pages[|pages| - 1]| < n
  }

  function Flatten(pages: seq<seq<Case>>): seq<Case> {
    if pages == [] then [] else pages[0] + Flatten(pages[1..])
  }

  predicate AllKeyed(tables: seq<Table>) {
    forall i :: 0 <= i < |tables| ==> Keyed(tables[i])
  }

  /** Cases stay, and their updated_at never goes back. */
  ghost predicate Evolves(before: Table, after: Table) {
    forall id :: id in before ==> id in after && !Less(after[id].updatedAt, before[id].updatedAt)
  }

  /** The cursor a reply hands on, as a position. */
  function Last(rows: seq<Case>): Cursor
    requires rows != []
  {
    CursorAt(rows[|rows| - 1])
  }

  lemma FirstPage(tables: seq<Table>, f: Filter, n: nat, at: Option<Cursor>, rows: seq<Case>, pages: seq<seq<Case>>)
    requires n > 0 && tables != [] && IsPage(Rows(tables[0], f, at), n, rows)
    requires if |rows| < n then pages == [] && |tables| == 1 else Walk(tables[1..], f, n, Some(Last(rows)), pages)
    ensures Walk(tables, f, n, at, [rows] + pages) && Flatten([rows] + pages) == rows + Flatten(pages)
    ensures Ended(n, [rows] + pages) <==> if pages == [] then |rows| < n else Ended(n, pages)
  {
    assert ([rows] + pages)[1..] == pages;
  }

  predicate AllBeyond(at: Option<Cursor>, rows: seq<Case>) {
    forall i :: 0 <= i < |rows| ==> Beyond(at, rows[i])
  }

  lemma BeyondLast(at: Option<Cursor>, rows: seq<Case>, more: seq<Case>)
    requires rows != [] && AllBeyond(at, rows) && AllBeyond(Some(Last(rows)), more)
    ensures AllBeyond(at, rows + more)
  {
    forall i | 0 <= i < |more| ensures Beyond(at, more[i]) {
      if at.Some? {
        BelowTransitive(CursorAt(more[i]), Last(rows), at.value);
      }
    }
  }

  lemma PageBeyond(t: Table, f: Filter, at: Option<Cursor>, n: nat, rows: seq<Case>)
    requires IsPage(Rows(t, f, at), n, rows)
    ensures AllBeyond(at, rows)
  {
    forall i | 0 <= i < |rows| ensures Beyond(at, rows[i]) {
      assert rows[i] in SetOf(rows);
    }
  }

  lemma {:induction false} WalkBeyond(tables: seq<Table>, f: Filter, n: nat, at: Option<Cursor>, pages: seq<seq<Case>>)
    requires Walk(tables, f, n, at, pages)
    ensures AllBeyond(at, Flatten(pages))
    decreases |pages|
  {
    if pages != [] {
      var rows := pages[0];
      PageBeyond(tables[0], f, at, n, rows);
      if |rows| == n {
        WalkBeyond(tables[1..], f, n, Some(Last(rows)), pages[1..]);
        BeyondLast(at, rows, Flatten(pages[1..]));
      } else {
        OnePage(pages);
      }
    }
  }

  lemma OnePage(pages: seq<seq<Case>>)
    requires |pages| == 1
    ensures Flatten(pages) == pages[0]
  {
    assert pages[1..] == [];
  }

  predicate DistinctIds(rows: seq<Case>) {
    forall i, j :: 0 <= i < j < |rows| ==> rows[i].caseId != rows[j].caseId
  }

  /** Every row comes from some table of the history, at least as late as first. */
  ghost predicate Later(first: Table, rows: seq<Case>) {
    forall i :: 0 <= i < |rows| ==>
      rows[i].caseId in first ==> !Less(rows[i].updatedAt, first[rows[i].caseId].updatedAt)
  }

  lemma PageLater(first: Table, t: Table, f: Filter, at: Option<Cursor>, n: nat, rows: seq<Case>)
    requires Keyed(t) && Evolves(first, t) && IsPage(Rows(t, f, at), n, rows)
    ensures Later(first, rows)
  {
    forall i | 0 <= i < |rows| && rows[i].caseId in first
      ensures !Less(rows[i].updatedAt, first[rows[i].caseId].updatedAt)
    {
      assert rows[i] in SetOf(rows);
    }
  }

  lemma {:induction false} WalkLater(first: Table, tables: seq<Table>, f: Filter, n: nat, at: Option<Cursor>,
        pages: seq<seq<Case>>)
    requires Walk(tables, f, n, at, pages) && AllKeyed(tables)
    requires forall i :: 0 <= i < |tables| ==> Evolves(first, tables[i])
    ensures Later(first, Flatten(pages))
    decreases |pages|
  {
    if pages != [] {
      var rows := pages[0];
      PageLater(first, tables[0], f, at, n, rows);
      if |rows| == n {
        WalkLater(first, tables[1..], f, n, Some(Last(rows)), pages[1..]);
      } else {
        OnePage(pages);
      }
    }
  }

  /** A row of the page and one the rest of the walk returns are different cases. */
  lemma NotAgain(t: Table, rows: seq<Case>, more: seq<Case>, i: nat, j: nat)
    requires rows != [] && Descending(rows) && i < |rows| && j < |more|
    requires rows[i].caseId in t && t[rows[i].caseId] == rows[i] && Later(t, more)
    requires AllBeyond(Some(Last(rows)), more)
    ensures rows[i].caseId != more[j].caseId
  {
    var a, b, last := rows[i], more[j], rows[|rows| - 1];
    if a.caseId == b.caseId {
      assert Below(CursorAt(b), CursorAt(last));
      assert a == last || Below(CursorAt(last), CursorAt(a));
      LessTotal(a.updatedAt, b.updatedAt);
      if a.updatedAt == b.updatedAt {
        BelowIrreflexive(CursorAt(a));
        if a != last {
          BelowTransitive(CursorAt(b), CursorAt(last), CursorAt(a));
        }
      } else {
        assert Below(CursorAt(a), CursorAt(b));
        BelowTransitive(CursorAt(a), CursorAt(b), CursorAt(last));
        BelowIrreflexive(CursorAt(a));
        if a != last {
          BelowTransitive(CursorAt(last), CursorAt(a), CursorAt(last));
          BelowIrreflexive(CursorAt(last));
        }
      }
    }
  }

  lemma PageDistinct(t: Table, f: Filter, at: Option<Cursor>, n: nat, rows: seq<Case>)
    requires Keyed(t) && IsPage(Rows(t, f, at), n, rows)
    ensures DistinctIds(rows) && forall i :: 0 <= i < |rows| ==> rows[i].caseId in t && t[rows[i].caseId] == rows[i]
  {
    assert forall i :: 0 <= i < |rows| ==> rows[i] in SetOf(rows);
    forall i, j | 0 <= i < j < |rows| ensures rows[i].caseId != rows[j].caseId {
      BelowIrreflexive(CursorAt(rows[i]));
    }
  }

  ghost predicate Evolving(tables: seq<Table>) {
    forall i, j :: 0 <= i <= j < |tables| ==> Evolves(tables[i], tables[j])
  }

  lemma LaterTables(tables: seq<Table>)
    requires tables != [] && Evolving(tables)
    ensures Evolving(tables[1..]) && forall i :: 0 <= i < |tables[1..]| ==> Evolves(tables[0], tables[1..][i])
  {
    forall i, j | 0 <= i <= j < |tables[1..]| ensures Evolves(tables[1..][i], tables[1..][j]) {
      assert Evolves(tables[i + 1], tables[j + 1]);
    }
    forall i | 0 <= i < |tables[1..]| ensures Evolves(tables[0], tables[1..][i]) {
      assert Evolves(tables[0], tables[i + 1]);
    }
  }

  /** No case of a page is a case of the pages after it. */
  predicate Apart(rows: seq<Case>, more: seq<Case>) {
    forall i, j :: 0 <= i < |rows| && 0 <= j < |more| ==> rows[i].caseId != more[j].caseId
  }

  lemma NoneAgain(tables: seq<Table>, f: Filter, n: nat, at: Option<Cursor>, pages: seq<seq<Case>>)
    requires Walk(tables, f, n, at, pages) && AllKeyed(tables) && Evolving(tables)
    requires pages != [] && |pages[0]| == n
    ensures Apart(pages[0], Flatten(pages[1..]))
  {
    var rows, more := pages[0], Flatten(pages[1..]);
    PageDistinct(tables[0], f, at, n, rows);
    LaterTables(tables);
    WalkBeyond(tables[1..], f, n, Some(Last(rows)), pages[1..]);
    WalkLater(tables[0], tables[1..], f, n, Some(Last(rows)), pages[1..]);
    forall i, j | 0 <= i < |rows| && 0 <= j < |more| ensures rows[i].caseId != more[j].caseId {
      NotAgain(tables[0], rows, more, i, j);
    }
  }

  lemma JoinDistinct(rows: seq<Case>, more: seq<Case>)
    requires DistinctIds(rows) && DistinctIds(more) && Apart(rows, more)
    ensures DistinctIds(rows + more)
  {
  }

  lemma {:induction false} NoneTwice(tables: seq<Table>, f: Filter, n: nat, at: Option<Cursor>, pages: seq<seq<Case>>)
    requires Walk(tables, f, n, at, pages) && AllKeyed(tables) && Evolving(tables)
    ensures DistinctIds(Flatten(pages))
    decreases |pages|
  {
    if pages != [] {
      var rows := pages[0];
      PageDistinct(tables[0], f, at, n, rows);
      if |rows| == n {
        LaterTables(tables);
        NoneTwice(tables[1..], f, n, Some(Last(rows)), pages[1..]);
        NoneAgain(tables, f, n, at, pages);
        JoinDistinct(rows, Flatten(pages[1..]));
      } else {
        OnePage(pages);
      }
    }
  }

  predicate Untouched(tables: seq<Table>, c: Case) {
    forall i :: 0 <= i < |tables| ==> c.caseId in tables[i] && tables[i][c.caseId] == c
  }

  /** A matching row a page leaves out: the page is full, and the row lies beyond its last. */
  lemma MissedIsBeyond(t: Table, f: Filter, at: Option<Cursor>, n: nat, rows: seq<Case>, c: Case)
    requires IsPage(Rows(t, f, at), n, rows) && n > 0
    requires c.caseId in t && t[c.caseId] == c && Wanted(f, c) && Beyond(at, c) && c !in SetOf(rows)
    ensures |rows| == n && Beyond(Some(Last(rows)), c)
  {
    var all := Rows(t, f, at);
    assert c in all;
    if |rows| < n {
      DistinctOfDescending(rows);
      DistinctSize(rows);
      SubsetSize(SetOf(rows), all);
    }
    assert AllBelow(all - SetOf(rows), rows[|rows| - 1]);
  }

  lemma DistinctOfDescending(rows: seq<Case>)
    requires Descending(rows)
    ensures Distinct(rows)
  {
    forall i, j | 0 <= i < j < |rows| ensures rows[i] != rows[j] {
      BelowIrreflexive(CursorAt(rows[i]));
    }
  }

  lemma {:induction false} UntouchedSeen(tables: seq<Table>, f: Filter, n: nat, at: Option<Cursor>,
        pages: seq<seq<Case>>, c: Case)
    requires Walk(tables, f, n, at, pages) && Ended(n, pages)
    requires Untouched(tables, c) && Wanted(f, c) && Beyond(at, c)
    ensures c in Flatten(pages)
    decreases |pages|
  {
    var rows := pages[0];
    if c !in rows {
      assert tables[0][c.caseId] == c;
      MissedIsBeyond(tables[0], f, at, n, rows, c);
      UntouchedSeen(tables[1..], f, n, Some(Last(rows)), pages[1..], c);
    }
  }

  // ----- a table that does not change -----

  predicate Fixed(t: Table, tables: seq<Table>) {
    forall i :: 0 <= i < |tables| ==> tables[i] == t
  }

  /** What a full page leaves is what lies beyond its last row. */
  lemma RestOfPage(t: Table, f: Filter, at: Option<Cursor>, n: nat, rows: seq<Case>)
    requires IsPage(Rows(t, f, at), n, rows) && rows != []
    ensures Rows(t, f, Some(Last(rows))) == Rows(t, f, at) - SetOf(rows)
    ensures |Rows(t, f, at)| == |rows| + |Rows(t, f, Some(Last(rows)))|
  {
    var all, rest, last := Rows(t, f, at), Rows(t, f, Some(Last(rows))), rows[|rows| - 1];
    assert last in SetOf(rows);
    forall c | c in rest ensures c in all - SetOf(rows) {
      if at.Some? {
        BelowTransitive(CursorAt(c), Last(rows), at.value);
      }
      if c in SetOf(rows) {
        var i :| 0 <= i < |rows| && rows[i] == c;
        BelowIrreflexive(CursorAt(c));
        if i < |rows| - 1 {
          BelowTransitive(CursorAt(c), Last(rows), CursorAt(c));
        }
      }
    }
    forall c | c in all - SetOf(rows) ensures c in rest {
      assert AllBelow(all - SetOf(rows), rows[|rows| - 1]);
    }
    DistinctOfDescending(rows);
    DistinctSize(rows);
  }

  lemma DescendingOn(rows: seq<Case>, more: seq<Case>)
    requires rows != [] && Descending(rows) && Descending(more) && AllBeyond(Some(Last(rows)), more)
    ensures Descending(rows + more)
  {
    forall i, j | 0 <= i < |rows| && 0 <= j < |more| ensures Below(CursorAt(more[j]), CursorAt(rows[i])) {
      if i < |rows| - 1 {
        BelowTransitive(CursorAt(more[j]), Last(rows), CursorAt(rows[i]));
      }
    }
  }

  lemma WholePage(all: set<Case>, n: nat, rows: seq<Case>)
    requires IsPage(all, n, rows) && |rows| < n
    ensures SetOf(rows) == all
  {
    DistinctOfDescending(rows);
    DistinctSize(rows);
    SubsetSize(SetOf(rows), all);
  }

  /** rows lists all, in descending order. */
  predicate Listing(rows: seq<Case>, all: set<Case>) {
    Descending(rows) && SetOf(rows) == all && |rows| == |all|
  }

  /** What one page and the pages after it return together. */
  lemma PageOn(all: set<Case>, rows: seq<Case>, more: seq<Case>)
    requires rows != [] && Descending(rows) && SetOf(rows) <= all && RowsAbove(rows, all - SetOf(rows))
    requires |all| == |rows| + |all - SetOf(rows)|
    requires AllBeyond(Some(Last(rows)), more) && IsPage(all - SetOf(rows), |more|, more)
    ensures IsPage(all, |rows + more|, rows + more)
  {
    DescendingOn(rows, more);
    assert SetOf(rows + more) == SetOf(rows) + SetOf(more);
    assert all - SetOf(rows + more) == all - SetOf(rows) - SetOf(more);
  }

  /** k pages of n rows, all but the last of them full. */
  predicate PageCount(k: nat, n: nat, rows: nat) {
    (k - 1) * n <= rows < k * n
  }

  lemma OnePageMore(k: nat, n: nat, rows: nat)
    requires PageCount(k, n, rows)
    ensures PageCount(k + 1, n, rows + n)
  {
    assert k * n == (k - 1) * n + n && (k + 1) * n == k * n + n;
  }

  lemma PageSize(all: set<Case>, n: nat, rows: seq<Case>)
    requires IsPage(all, n, rows)
    ensures IsPage(all, |rows|, rows)
  {
  }

  /** k full pages of n rows fit. */
  predicate FullPages(k: int, n: nat, rows: nat) {
    k * n <= rows
  }

  lemma OneFullPageMore(k: int, n: nat, rows: nat)
    requires FullPages(k, n, rows)
    ensures FullPages(k + 1, n, rows + n)
  {
  }

  lemma FullPageOn(t: Table, f: Filter, at: Option<Cursor>, n: nat, rows: seq<Case>, k: int)
    requires IsPage(Rows(t, f, at), n, rows) && |rows| == n > 0
    requires FullPages(k, n, |Rows(t, f, Some(Last(rows)))|)
    ensures FullPages(k + 1, n, |Rows(t, f, at)|)
  {
    RestOfPage(t, f, at, n, rows);
    OneFullPageMore(k, n, |Rows(t, f, Some(Last(rows)))|);
  }

  lemma ListingOn(all: set<Case>, rows: seq<Case>, more: seq<Case>)
    requires rows != [] && Descending(rows) && SetOf(rows) <= all
    requires AllBeyond(Some(Last(rows)), more) && Listing(more, all - SetOf(rows)) && |all| == |rows| + |more|
    ensures Listing(rows + more, all)
  {
    DescendingOn(rows, more);
    assert SetOf(rows + more) == SetOf(rows) + SetOf(more);
  }

  /** Whatever a walk has returned so far is the top of the listing. */
  lemma {:induction false} FixedPrefix(t: Table, tables: seq<Table>, f: Filter, n: nat, at: Option<Cursor>,
        pages: seq<seq<Case>>)
    requires Walk(tables, f, n, at, pages) && Fixed(t, tables)
    ensures IsPage(Rows(t, f, at), |Flatten(pages)|, Flatten(pages))
    decreases |pages|
  {
    if pages != [] {
      var rows := pages[0];
      if |rows| == n {
        FixedPrefix(t, tables[1..], f, n, Some(Last(rows)), pages[1..]);
        RestOfPage(t, f, at, n, rows);
        WalkBeyond(tables[1..], f, n, Some(Last(rows)), pages[1..]);
        PageOn(Rows(t, f, at), rows, Flatten(pages[1..]));
      } else {
        OnePage(pages);
        PageSize(Rows(t, f, at), n, rows);
      }
    }
  }

  lemma {:induction false} FixedTerminates(t: Table, tables: seq<Table>, f: Filter, n: nat, at: Option<Cursor>,
        pages: seq<seq<Case>>)
    requires Walk(tables, f, n, at, pages) && Fixed(t, tables)
    ensures Ended(n, pages) || FullPages(|pages|, n, |Rows(t, f, at)|)
    decreases |pages|
  {
    if pages != [] && |pages[0]| == n {
      FixedTerminates(t, tables[1..], f, n, Some(Last(pages[0])), pages[1..]);
      if !Ended(n, pages[1..]) {
        FullPageOn(t, f, at, n, pages[0], |pages[1..]|);
      }
    }
  }

  lemma {:induction false} FixedEnds(t: Table, tables: seq<Table>, f: Filter, n: nat, at: Option<Cursor>,
        pages: seq<seq<Case>>)
    requires Walk(tables, f, n, at, pages) && Ended(n, pages) && Fixed(t, tables)
    ensures Listing(Flatten(pages), Rows(t, f, at)) && PageCount(|pages|, n, |Rows(t, f, at)|)
    decreases |pages|
  {
    var rows := pages[0];
    if |rows| == n {
      var next := Some(Last(rows));
      FixedEnds(t, tables[1..], f, n, next, pages[1..]);
      RestOfPage(t, f, at, n, rows);
      WalkBeyond(tables[1..], f, n, next, pages[1..]);
      ListingOn(Rows(t, f, at), rows, Flatten(pages[1..]));
      OnePageMore(|pages[1..]|, n, |Rows(t, f, next)|);
    } else {
      OnePage(pages);
      WholePage(Rows(t, f, at), n, rows);
    }
  }
}
