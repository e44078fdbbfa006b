/** The case table and its keyset pagination. */
module Cases {
  import opened Options
  import opened Text

  datatype Case = Case(caseId: string, createdAt: string, updatedAt: string, customerId: string, screeningId: string,
                       evidencePackId: string, status: string, assignee: Option<string>)

  type Table = map<string, Case>

  /** A NULL or empty filter value filters nothing. */
  datatype Filter = Filter(customerId: string, status: Option<string>, assignee: Option<string>)

  datatype Cursor = Cursor(updatedAt: string, caseId: string)

  datatype Reply = Page(rows: seq<Case>, next: Option<string>) | BadCursor

  predicate Truthy(v: Option<string>) {
    v.Some? && v.value != ""
  }

  /** case_id is the primary key. */
  predicate Keyed(t: Table) {
    forall id :: id in t ==> t[id].caseId == id
  }

  /** INSERT ... ON CONFLICT(case_id) DO UPDATE */
  function Upserted(t: Table, c: Case): Table {
    if c.caseId !in t then t[c.caseId := c]
    else
      var was := t[c.caseId];
      t[c.caseId := was.(updatedAt := c.updatedAt, status := c.status, evidencePackId := c.evidencePackId,
                         assignee := if c.assignee.Some? then c.assignee else was.assignee)]
  }

  predicate Wanted(f: Filter, c: Case) {
    && c.customerId == f.customerId
    && (Truthy(f.status) ==> c.status == f.status.value)
    && (Truthy(f.assignee) ==> c.assignee == f.assignee)
  }

  function CursorAt(c: Case): Cursor {
    Cursor(c.updatedAt, c.caseId)
  }

  /** (updated_at, case_id) lies strictly below the cursor: later in the descending listing. */
  predicate Below(c: Cursor, p: Cursor) {
    Less(c.updatedAt, p.updatedAt) || (c.updatedAt == p.updatedAt && Less(c.caseId, p.caseId))
  }

  predicate Beyond(cursor: Option<Cursor>, c: Case) {
    cursor.Some? ==> Below(CursorAt(c), cursor.value)
  }

  function Rows(t: Table, f: Filter, cursor: Option<Cursor>): set<Case> {
    set id | id in t && Wanted(f, t[id]) && Beyond(cursor, t[id]) :: t[id]
  }

  predicate Descending(rows: seq<Case>) {
    forall i, j :: 0 <= i < j < |rows| ==> Below(CursorAt(rows[j]), CursorAt(rows[i]))
  }

  predicate AllBelow(rest: set<Case>, c: Case) {
    forall d :: d in rest ==> Below(CursorAt(d), CursorAt(c))
  }

  predicate RowsAbove(rows: seq<Case>, rest: set<Case>) {
    forall i :: 0 <= i < |rows| ==> AllBelow(rest, rows[i])
  }

  /** ORDER BY updated_at DESC, case_id DESC LIMIT n */
  predicate IsPage(all: set<Case>, n: nat, rows: seq<Case>) {
    && Descending(rows) && SetOf(rows) <= all
    && |rows| == (if |all| < n then |all| else n)
    && RowsAbove(rows, all - SetOf(rows))
  }

  function Limit(limit: int): nat {
    if limit < 1 then 1 else if limit > 200 then 200 else limit
  }

  function IndexOfBar(s: string): (k: nat)
    ensures k <= |s| && (forall i :: 0 <= i < k ==> s[i] != '|') && (k < |s| ==> s[k] == '|')
  {
    if s == "" || s[0] == '|' then 0 else 1 + IndexOfBar(s[1..])
  }

  function CursorText(c: Case): string {
    c.updatedAt + "|" + c.caseId
  }

  /** The cursor parameter: absent or empty means none, one without a bar is an error, one with an empty half is
      ignored. */
  function ParseCursor(text: Option<string>): Result<Option<Cursor>, ()> {
    if !Truthy(text) then Ok(None)
    else
      var k := IndexOfBar(text.value);
      if k == |text.value| then Err(())
      else
        var c := Cursor(text.value[..k], text.value[k + 1..]);
        Ok(if c.updatedAt != "" && c.caseId != "" then Some(c) else None)
  }

  /** The position a cursor text names: its two halves around the first bar, none if it is absent or a half is empty. */
  ghost predicate Reads(text: Option<string>, at: Option<Cursor>) {
    if text == None || text == Some("") then at == None
    else exists u, c ::
      && text.value == u + "|" + c && '|' !in u
      && at == if u == "" || c == "" then None else Some(Cursor(u, c))
  }

  lemma ParsedIs(text: Option<string>)
    ensures ParseCursor(text).Err? <==> text.Some? && text.value != "" && '|' !in text.value
    ensures ParseCursor(text).Ok? ==> Reads(text, ParseCursor(text).value)
  {
    if Truthy(text) {
      var s := text.value;
      var k := IndexOfBar(s);
      if k < |s| {
        var u, c := s[..k], s[k + 1..];
        assert s == u + "|" + c && '|' !in u;
      }
    }
  }

  ghost predicate Replies(t: Table, f: Filter, limit: int, cursor: Option<string>, r: Reply) {
    match ParseCursor(cursor)
    case Err(_) => r == BadCursor
    case Ok(c) =>
      && r.Page? && IsPage(Rows(t, f, c), Limit(limit), r.rows)
      && r.next == if |r.rows| >= Limit(limit) then Some(CursorText(r.rows[|r.rows| - 1])) else None
  }

  lemma BelowIrreflexive(a: Cursor)
    ensures !Below(a, a)
  {
    LessIrreflexive(a.updatedAt);
    LessIrreflexive(a.caseId);
  }

  lemma BelowTransitive(a: Cursor, b: Cursor, c: Cursor)
    requires Below(a, b) && Below(b, c)
    ensures Below(a, c)
  {
    if Less(a.updatedAt, b.updatedAt) && Less(b.updatedAt, c.updatedAt) {
      LessTransitive(a.updatedAt, b.updatedAt, c.updatedAt);
    } else if a.updatedAt == b.updatedAt == c.updatedAt {
      LessTransitive(a.caseId, b.caseId, c.caseId);
    }
  }

  lemma BelowTotal(a: Cursor, b: Cursor)
    ensures Below(a, b) || a == b || Below(b, a)
  {
    LessTotal(a.updatedAt, b.updatedAt);
    LessTotal(a.caseId, b.caseId);
  }

  // ----- what a page is, told by the columns -----

  /** The filter keeps the row: of the customer, and of the status and assignee if those are given. */
  predicate Keeps(f: Filter, c: Case) {
    && c.customerId == f.customerId
    && (f.status != None && f.status != Some("") ==> Some(c.status) == f.status)
    && (f.assignee != None && f.assignee != Some("") ==> c.assignee == f.assignee)
  }

  /** c comes after the row (updatedAt, caseId) in the listing, newest first and greater ids first. */
  predicate ComesAfter(c: Case, updatedAt: string, caseId: string) {
    Less(c.updatedAt, updatedAt) || (c.updatedAt == updatedAt && Less(c.caseId, caseId))
  }

  predicate Eligible(f: Filter, cursor: Option<Cursor>, c: Case) {
    Keeps(f, c) && (cursor.Some? ==> ComesAfter(c, cursor.value.updatedAt, cursor.value.caseId))
  }

  /** The rows of the page are kept and lie beyond the cursor, each once and in order; a row that qualifies is left out
      only by a page of max(1, min(limit, 200)) rows before it. */
  ghost predicate ShowsPage(t: Table, f: Filter, limit: int, cursor: Option<Cursor>, rows: seq<Case>) {
    && |rows| <= (if limit < 1 then 1 else if limit > 200 then 200 else limit)
    && (forall i :: 0 <= i < |rows| ==>
          rows[i].caseId in t && t[rows[i].caseId] == rows[i] && Eligible(f, cursor, rows[i]))
    && (forall i, j :: 0 <= i < j < |rows| ==> ComesAfter(rows[j], rows[i].updatedAt, rows[i].caseId))
    && (forall id :: id in t && Eligible(f, cursor, t[id]) && t[id] !in rows ==>
          && |rows| == (if limit < 1 then 1 else if limit > 200 then 200 else limit)
          && forall i :: 0 <= i < |rows| ==> ComesAfter(t[id], rows[i].updatedAt, rows[i].caseId))
  }

  lemma MissedByFullPage(all: set<Case>, n: nat, rows: seq<Case>, c: Case)
    requires IsPage(all, n, rows) && c in all && c !in rows
    ensures |rows| == n && forall i :: 0 <= i < |rows| ==> Below(CursorAt(c), CursorAt(rows[i]))
  {
    assert c in all - SetOf(rows);
    forall i | 0 <= i < |rows| ensures Below(CursorAt(c), CursorAt(rows[i])) {
      assert AllBelow(all - SetOf(rows), rows[i]);
    }
    forall i, j | 0 <= i < j < |rows| ensures rows[i] != rows[j] {
      BelowIrreflexive(CursorAt(rows[i]));
    }
    if |all| < n {
      DistinctSize(rows);
      SubsetSize(SetOf(rows), all);
    }
  }

  lemma PageIs(t: Table, f: Filter, limit: int, cursor: Option<Cursor>, rows: seq<Case>)
    requires Keyed(t) && IsPage(Rows(t, f, cursor), Limit(limit), rows)
    ensures ShowsPage(t, f, limit, cursor, rows)
  {
    var all := Rows(t, f, cursor);
    forall i | 0 <= i < |rows|
      ensures rows[i].caseId in t && t[rows[i].caseId] == rows[i] && Eligible(f, cursor, rows[i])
    {
      assert rows[i] in SetOf(rows) && rows[i] in all;
    }
    forall id | id in t && Eligible(f, cursor, t[id]) && t[id] !in rows
      ensures |rows| == Limit(limit)
      ensures forall i :: 0 <= i < |rows| ==> ComesAfter(t[id], rows[i].updatedAt, rows[i].caseId)
    {
      MissedByFullPage(all, Limit(limit), rows, t[id]);
    }
  }

  class CaseTable {
    var cases: Table

    constructor ()
      ensures cases == map[]
    {
      cases := map[];
    }

    method UpsertCase(c: Case)
      requires Keyed(cases)
      modifies this
      ensures cases == Upserted(old(cases), c) && Keyed(cases)
      ensures cases.Keys == old(cases).Keys + {c.caseId}
      ensures forall id :: id in old(cases) && id != c.caseId ==> cases[id] == old(cases)[id]
      ensures c.caseId !in old(cases) ==> cases[c.caseId] == c
      ensures c.caseId in old(cases) ==>
        var was, row := old(cases)[c.caseId], cases[c.caseId];
        && row.caseId == was.caseId && row.createdAt == was.createdAt && row.customerId == was.customerId
        && row.screeningId == was.screeningId && row.updatedAt == c.updatedAt && row.status == c.status
        && row.evidencePackId == c.evidencePackId
        && row.assignee == (if c.assignee == None then was.assignee else c.assignee)
    {
      if c.caseId !in cases {
        cases := cases[c.caseId := c];
      } else {
        var was := cases[c.caseId];
        var assignee := if c.assignee.Some? then c.assignee else was.assignee;
        cases := cases[c.caseId := was.(updatedAt := c.updatedAt, status := c.status,
                                        evidencePackId := c.evidencePackId, assignee := assignee)];
      }
    }

    /** list_cases, with both cursor halves nonempty or the cursor absent. */
    method ListCases(f: Filter, limit: int, cursor: Option<Cursor>) returns (rows: seq<Case>)
      requires Keyed(cases)
      ensures IsPage(Rows(cases, f, cursor), Limit(limit), rows)
      ensures ShowsPage(cases, f, limit, cursor, rows)
    {
      rows := OrderByLimit(Rows(cases, f, cursor), Limit(limit));
      PageIs(cases, f, limit, cursor, rows);
    }

    method V2ListCases(f: Filter, limit: int, cursor: Option<string>) returns (r: Reply)
      requires Keyed(cases)
      ensures Replies(cases, f, limit, cursor, r)
      ensures r.BadCursor? <==> cursor.Some? && cursor.value != "" && '|' !in cursor.value
      ensures r.Page? ==>
        && (exists at :: Reads(cursor, at) && ShowsPage(cases, f, limit, at, r.rows))
        && (if |r.rows| == (if limit < 1 then 1 else if limit > 200 then 200 else limit)
            then r.next == Some(r.rows[|r.rows| - 1].updatedAt + "|" + r.rows[|r.rows| - 1].caseId)
            else r.next == None)
    {
      ParsedIs(cursor);
      var c := ParseCursor(cursor);
      if c.Err? {
        return BadCursor;
      }
      var rows := ListCases(f, limit, c.value);
      var next := None;
      if |rows| >= Limit(limit) {
        next := Some(CursorText(rows[|rows| - 1]));
      }
      r := Page(rows, next);
      assert Reads(cursor, c.value) && ShowsPage(cases, f, limit, c.value, rows);
    }
  }

  predicate UniqueIds(all: set<Case>) {
    forall a, b :: a in all && b in all && a.caseId == b.caseId ==> a == b
  }

  /** The engine's sort: the greatest remaining row, until the limit. */
  method OrderByLimit(all: set<Case>, n: nat) returns (rows: seq<Case>)
    requires UniqueIds(all)
    ensures IsPage(all, n, rows)
  {
    rows := [];
    var rest := all;
    while |rows| < n && rest != {}
      invariant rest <= all && SetOf(rows) == all - rest && |rows| + |rest| == |all| && |rows| <= n
      invariant Descending(rows) && RowsAbove(rows, rest)
      decreases |rest|
    {
      var top := Greatest(rest);
      NextRow(rows, rest, top);
      rows := rows + [top];
      rest := rest - {top};
    }
    assert all - SetOf(rows) == rest;
  }

  lemma NextRow(rows: seq<Case>, rest: set<Case>, top: Case)
    requires Descending(rows) && RowsAbove(rows, rest)
    requires top in rest && AllBelow(rest - {top}, top)
    ensures Descending(rows + [top]) && RowsAbove(rows + [top], rest - {top})
    ensures SetOf(rows + [top]) == SetOf(rows) + {top}
  {
  }

  method Greatest(rest: set<Case>) returns (top: Case)
    requires rest != {} && UniqueIds(rest)
    ensures top in rest && AllBelow(rest - {top}, top)
  {
    top := Pick(rest);
    var todo := rest - {top};
    while todo != {}
      invariant todo <= rest && top in rest && top !in todo
      invariant AllBelow(rest - todo - {top}, top)
      decreases |todo|
    {
      var c := Pick(todo);
      BelowTotal(CursorAt(c), CursorAt(top));
      if Below(CursorAt(top), CursorAt(c)) {
        forall d | d in rest - todo - {top} ensures Below(CursorAt(d), CursorAt(c)) {
          BelowTransitive(CursorAt(d), CursorAt(top), CursorAt(c));
        }
        top := c;
      }
      todo := todo - {c};
    }
  }
}
