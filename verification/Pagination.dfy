/** Following cursors to the end: nothing twice, nothing missed, and over a fixed table the exact listing. */
module Pagination {
  import opened Options
  import opened Text
  import opened Cases
  import Keyset

  /** The texts utc_now_iso and the case identifiers produce: nonempty, and no bar in the timestamp. */
  predicate CleanRow(c: Case) {
    c.updatedAt != "" && '|' !in c.updatedAt && c.caseId != ""
  }

  predicate Clean(t: Table) {
    Keyed(t) && forall id :: id in t ==> CleanRow(t[id])
  }

  lemma {:induction false} BarAfter(u: string, c: string)
    requires '|' !in u
    ensures IndexOfBar(u + "|" + c) == |u|
  {
    if u == "" {
      assert u + "|" + c == "|" + c;
    } else {
      BarAfter(u[1..], c);
      assert (u + "|" + c)[1..] == u[1..] + "|" + c;
      assert u[0] in u && forall x :: x in u[1..] ==> x in u;
    }
  }

  /** RESULT: the cursor text names its row again exactly when the timestamp has no bar (and both halves are
      nonempty). */
  lemma CursorRoundTrip(c: Case)
    ensures ParseCursor(Some(CursorText(c))) == Ok(Some(CursorAt(c))) <==> CleanRow(c)
  {
    var s := CursorText(c);
    var k := IndexOfBar(s);
    assert s[|c.updatedAt|] == '|';
    if '|' !in c.updatedAt {
      BarAfter(c.updatedAt, c.caseId);
      assert s[..k] == c.updatedAt && s[k + 1..] == c.caseId;
    } else {
      assert '|' !in s[..k];
    }
  }

  /** A client's walk so far: each reply asked with the cursor of the one before, the table changing in between. It may
      stop anywhere; after a reply without a cursor it is over. */
  ghost predicate Walk(tables: seq<Table>, f: Filter, limit: int, cursor: Option<string>, replies: seq<Reply>)
    decreases |replies|
  {
    && |tables| == |replies|
    && (replies == [] ||
        (&& Replies(tables[0], f, limit, cursor, replies[0]) && replies[0].Page?
         && if replies[0].next.None? then |replies| == 1
            else Walk(tables[1..], f, limit, replies[0].next, replies[1..])))
  }

  predicate Finished(replies: seq<Reply>) {
    replies != [] && replies[|replies| - 1].Page? && replies[|replies| - 1].next.None?
  }

  function AllRows(replies: seq<Reply>): seq<Case>
    decreases |replies|
  {
    if replies == [] || replies[0].BadCursor? then [] else replies[0].rows + AllRows(replies[1..])
  }

  predicate AllClean(tables: seq<Table>) {
    forall i :: 0 <= i < |tables| ==> Clean(tables[i])
  }

  /** upsert_case under a clock that has not gone back evolves the table. */
  lemma UpsertEvolves(t: Table, c: Case)
    requires Clean(t) && CleanRow(c) && forall id :: id in t ==> !Less(c.updatedAt, t[id].updatedAt)
    ensures Clean(Upserted(t, c)) && Keyset.Evolves(t, Upserted(t, c))
  {
    forall id | id in t ensures !Less(Upserted(t, c)[id].updatedAt, t[id].updatedAt) {
      LessIrreflexive(t[id].updatedAt);
    }
  }

  /** The first reply of a walk, by positions. */
  lemma FirstReply(tables: seq<Table>, f: Filter, limit: int, cursor: Option<string>, replies: seq<Reply>,
        at: Option<Cursor>)
    requires Walk(tables, f, limit, cursor, replies) && AllClean(tables) && ParseCursor(cursor) == Ok(at)
    requires replies != []
    ensures replies[0].Page? && IsPage(Rows(tables[0], f, at), Limit(limit), replies[0].rows)
    ensures replies[0].next.None? ==> |replies[0].rows| < Limit(limit) && |replies| == 1
    ensures replies[0].next.Some? ==>
      && |replies[0].rows| == Limit(limit) && Walk(tables[1..], f, limit, replies[0].next, replies[1..])
      && ParseCursor(replies[0].next) == Ok(Some(Keyset.Last(replies[0].rows)))
    ensures AllRows(replies) == replies[0].rows + AllRows(replies[1..])
  {
    if replies[0].next.Some? {
      NextPosition(tables[0], f, limit, at, replies[0]);
    }
  }

  /** The cursor texts name positions: a walk by texts is a walk by positions. */
  lemma {:induction false} WalkIsKeyset(tables: seq<Table>, f: Filter, limit: int, cursor: Option<string>,
        replies: seq<Reply>, at: Option<Cursor>)
    returns (pages: seq<seq<Case>>)
    requires Walk(tables, f, limit, cursor, replies) && AllClean(tables) && ParseCursor(cursor) == Ok(at)
    ensures Keyset.Walk(tables, f, Limit(limit), at, pages) && |pages| == |replies|
    ensures Keyset.Flatten(pages) == AllRows(replies) && (Keyset.Ended(Limit(limit), pages) <==> Finished(replies))
    decreases |replies|
  {
    pages := [];
    if replies != [] {
      FirstReply(tables, f, limit, cursor, replies, at);
      var rows := replies[0].rows;
      if replies[0].next.Some? {
        pages := WalkIsKeyset(tables[1..], f, limit, replies[0].next, replies[1..], Some(Keyset.Last(rows)));
      }
      FinishedFirst(replies);
      Keyset.FirstPage(tables, f, Limit(limit), at, rows, pages);
      pages := [rows] + pages;
    }
  }

  lemma FinishedFirst(replies: seq<Reply>)
    requires replies != []
    ensures Finished(replies) <==>
      if replies[1..] == [] then replies[0].Page? && replies[0].next.None? else Finished(replies[1..])
  {
  }

  lemma NextPosition(t: Table, f: Filter, limit: int, at: Option<Cursor>, r: Reply)
    requires Clean(t) && r.Page? && IsPage(Rows(t, f, at), Limit(limit), r.rows) && r.rows != []
    requires r.next == Some(CursorText(r.rows[|r.rows| - 1]))
    ensures ParseCursor(r.next) == Ok(Some(Keyset.Last(r.rows)))
  {
    var last := r.rows[|r.rows| - 1];
    assert last in SetOf(r.rows);
    CursorRoundTrip(last);
  }

  lemma CleanIsKeyed(tables: seq<Table>)
    requires AllClean(tables)
    ensures Keyset.AllKeyed(tables)
  {
  }

  /** RESULT: whatever upserts run between the pages, as long as no updated_at goes back no case is returned twice,
      wherever the client stops. */
  lemma NoCaseTwice(tables: seq<Table>, f: Filter, limit: int, cursor: Option<string>, replies: seq<Reply>,
        at: Option<Cursor>)
    requires Walk(tables, f, limit, cursor, replies) && AllClean(tables) && Keyset.Evolving(tables)
    requires ParseCursor(cursor) == Ok(at)
    ensures Keyset.DistinctIds(AllRows(replies))
  {
    var pages := WalkIsKeyset(tables, f, limit, cursor, replies, at);
    CleanIsKeyed(tables);
    Keyset.NoneTwice(tables, f, Limit(limit), at, pages);
  }

  /** RESULT: a matching case that no upsert touches during a finished walk is returned. */
  lemma UntouchedCaseSeen(tables: seq<Table>, f: Filter, limit: int, cursor: Option<string>, replies: seq<Reply>,
        at: Option<Cursor>, c: Case)
    requires Walk(tables, f, limit, cursor, replies) && Finished(replies) && AllClean(tables)
    requires ParseCursor(cursor) == Ok(at)
    requires Keyset.Untouched(tables, c) && Wanted(f, c) && Beyond(at, c)
    ensures c in AllRows(replies)
  {
    var pages := WalkIsKeyset(tables, f, limit, cursor, replies, at);
    Keyset.UntouchedSeen(tables, f, Limit(limit), at, pages, c);
  }

  predicate FixedClean(t: Table, tables: seq<Table>) {
    Clean(t) && Keyset.Fixed(t, tables)
  }

  /** RESULT: over a fixed table, whatever a walk has returned so far is the top of the filtered listing in descending
      (updated_at, case_id) order, each case once. */
  lemma FixedPrefix(t: Table, tables: seq<Table>, f: Filter, limit: int, cursor: Option<string>, replies: seq<Reply>,
        at: Option<Cursor>)
    requires Walk(tables, f, limit, cursor, replies) && FixedClean(t, tables) && ParseCursor(cursor) == Ok(at)
    ensures IsPage(Rows(t, f, at), |AllRows(replies)|, AllRows(replies))
  {
    var pages := WalkIsKeyset(tables, f, limit, cursor, replies, at);
    Keyset.FixedPrefix(t, tables, f, Limit(limit), at, pages);
  }

  /** RESULT: over a fixed table a walk terminates: k replies that all hand on a cursor returned k full pages, so a
      client is never given more cursors than full pages fit into the matching rows. */
  lemma WalkTerminates(t: Table, tables: seq<Table>, f: Filter, limit: int, cursor: Option<string>,
        replies: seq<Reply>, at: Option<Cursor>)
    requires Walk(tables, f, limit, cursor, replies) && FixedClean(t, tables) && ParseCursor(cursor) == Ok(at)
    ensures !Finished(replies) ==> |replies| * Limit(limit) <= |Rows(t, f, at)|
  {
    var pages := WalkIsKeyset(tables, f, limit, cursor, replies, at);
    Keyset.FixedTerminates(t, tables, f, Limit(limit), at, pages);
  }

  /** RESULT: and when it has ended it has returned exactly the filtered listing, in one page more than the full
      ones. */
  lemma FixedListing(t: Table, tables: seq<Table>, f: Filter, limit: int, cursor: Option<string>, replies: seq<Reply>,
        at: Option<Cursor>)
    requires Walk(tables, f, limit, cursor, replies) && Finished(replies) && FixedClean(t, tables)
    requires ParseCursor(cursor) == Ok(at)
    ensures Keyset.Listing(AllRows(replies), Rows(t, f, at))
    ensures Keyset.PageCount(|replies|, Limit(limit), |Rows(t, f, at)|)
  {
    var pages := WalkIsKeyset(tables, f, limit, cursor, replies, at);
    Keyset.FixedEnds(t, tables, f, Limit(limit), at, pages);
  }
}
