/** The tamper-evident case history: a hash chain over canonical JSON, and the signed bundle that carries it. */
module CaseChain {
  import opened Options
  import opened JsonText
  import opened CanonicalJson
  import opened HashChain
  import opened Text
  import JsonLayout

  function JsonOf(v: Option<string>): Json {
    if v.Some? then Str(v.value) else Null
  }

  function Payload(e: Event): seq<Field> {
    [Field("ts", JsonOf(e.ts)), Field("actor", JsonOf(e.actor)),
     Field("event_type", JsonOf(e.eventType)), Field("note", JsonOf(e.note))]
  }

  function LinkFields(prev: string, e: Event): seq<Field> {
    [Field("prev_hash", Str(prev)), Field("event", Obj(Payload(e)))]
  }

  /** What is hashed for one event. */
  function LinkText(prev: string, e: Event): string {
    Canonical(Obj(LinkFields(prev, e)))
  }

  /** _hash_hex over the link dict, with SHA-256 a parameter. */
  function LinkHasher(sha256: string -> string): Hasher {
    Hasher((prev, e) => LinkText(prev, e), sha256)
  }

  method BuildCaseEventChain(sha256: string -> string, events: seq<Event>) returns (chained: seq<Link>, head: string)
    ensures chained == Chain(LinkHasher(sha256), events) && head == Head(LinkHasher(sha256), events)
  {
    chained, head := BuildChain(LinkHasher(sha256), events);
  }

  lemma PayloadDistinct(e: Event)
    ensures WellFormed(Obj(Payload(e)))
  {
    assert |"ts"| == 2 && |"actor"| == 5 && |"event_type"| == 10 && |"note"| == 4;
  }

  lemma PayloadMeaning(e: Event)
    ensures var m := MeaningFields(Payload(e));
      && "ts" in m && m["ts"] == Meaning(JsonOf(e.ts)) && "actor" in m && m["actor"] == Meaning(JsonOf(e.actor))
      && "event_type" in m && m["event_type"] == Meaning(JsonOf(e.eventType))
      && "note" in m && m["note"] == Meaning(JsonOf(e.note))
  {
    PayloadDistinct(e);
    var p := Payload(e);
    FieldAt(p, p[0]);
    FieldAt(p, p[1]);
    FieldAt(p, p[2]);
    FieldAt(p, p[3]);
  }

  lemma PayloadInjective(e: Event, e': Event)
    requires MeaningFields(Payload(e)) == MeaningFields(Payload(e'))
    ensures e == e'
  {
    PayloadMeaning(e);
    PayloadMeaning(e');
  }

  lemma LinkMeaning(prev: string, e: Event)
    ensures WellFormed(Obj(LinkFields(prev, e)))
    ensures var m := MeaningFields(LinkFields(prev, e));
      "prev_hash" in m && m["prev_hash"] == DStr(prev) && "event" in m && m["event"] == DObj(MeaningFields(Payload(e)))
  {
    assert |"prev_hash"| == 9 && |"event"| == 5;
    PayloadDistinct(e);
    var p := LinkFields(prev, e);
    FieldAt(p, p[0]);
    FieldAt(p, p[1]);
  }

  /** What is hashed determines the previous hash and the event. */
  lemma LinkTextInjective(prev: string, e: Event, prev': string, e': Event)
    requires LinkText(prev, e) == LinkText(prev', e')
    ensures prev == prev' && e == e'
  {
    LinkMeaning(prev, e);
    LinkMeaning(prev', e');
    SameTextIffEqual(Obj(LinkFields(prev, e)), Obj(LinkFields(prev', e')));
    PayloadInjective(e, e');
  }

  // ----- the hashed text, written out -----

  /** The event's entries in key order. */
  function SortedPayload(e: Event): seq<Field> {
    [Field("actor", JsonOf(e.actor)), Field("event_type", JsonOf(e.eventType)),
     Field("note", JsonOf(e.note)), Field("ts", JsonOf(e.ts))]
  }

  function SortedLink(prev: string, e: Event): Json {
    Obj([Field("event", Obj(SortedPayload(e))), Field("prev_hash", Str(prev))])
  }

  lemma Follows(f: Field, rest: seq<Field>)
    requires rest != [] ==> Less(f.key, rest[0].key) && AscendingKeys(rest)
    ensures AscendingKeys([f] + rest)
  {
    assert ([f] + rest)[1..] == rest;
    if rest != [] {
      AboveTransitive(f.key, rest[0].key, rest[1..]);
      assert rest == [rest[0]] + rest[1..];
    }
  }

  lemma SortedPayloadAscends(e: Event)
    ensures AscendingKeys(SortedPayload(e)) && IsCanonical(Obj(SortedPayload(e)))
  {
    var p := SortedPayload(e);
    assert "actor"[0] < "event_type"[0] < "note"[0] < "ts"[0];
    Follows(p[3], []);
    Follows(p[2], [p[3]]);
    Follows(p[1], [p[2], p[3]]);
    Follows(p[0], [p[1], p[2], p[3]]);
    assert [p[3]] + [] == [p[3]] && [p[2]] + [p[3]] == [p[2], p[3]];
    assert [p[1]] + [p[2], p[3]] == [p[1], p[2], p[3]] && [p[0]] + [p[1], p[2], p[3]] == p;
  }

  lemma SortedLinkIsCanonical(prev: string, e: Event)
    ensures IsCanonical(SortedLink(prev, e))
  {
    SortedPayloadAscends(e);
    var fields := SortedLink(prev, e).fields;
    assert "event"[0] < "prev_hash"[0];
    Follows(fields[1], []);
    Follows(fields[0], [fields[1]]);
    assert [fields[1]] + [] == [fields[1]] && [fields[0]] + [fields[1]] == fields;
  }

  lemma SamePayload(e: Event)
    ensures MeaningFields(SortedPayload(e)) == MeaningFields(Payload(e))
  {
    var a, b := SortedPayload(e), Payload(e);
    SortedPayloadAscends(e);
    AscendingDistinct(a);
    PayloadDistinct(e);
    assert a == [b[1], b[2], b[3], b[0]];
    MeaningWithin(a, b);
    MeaningWithin(b, a);
  }

  lemma SameLink(prev: string, e: Event)
    ensures Meaning(SortedLink(prev, e)) == Meaning(Obj(LinkFields(prev, e)))
  {
    SamePayload(e);
    assert |"prev_hash"| == 9 && |"event"| == 5;
    MeaningOfTwo(Field("event", Obj(SortedPayload(e))), Field("prev_hash", Str(prev)));
    MeaningOfTwo(Field("prev_hash", Str(prev)), Field("event", Obj(Payload(e))));
  }

  lemma MeaningOfTwo(f: Field, g: Field)
    requires f.key != g.key
    ensures MeaningFields([f, g]) == map[f.key := Meaning(f.value), g.key := Meaning(g.value)]
  {
    assert [f, g][1..] == [g] && [g][1..] == [];
    assert MeaningFields([g]) == map[g.key := Meaning(g.value)];
  }

  lemma RawOfTwo(f: Field, g: Field)
    ensures Raw(Obj([f, g])) == "{" + (RawField(f) + "," + RawField(g)) + "}"
  {
    JsonLayout.DictsWrittenOut([f], g);
    assert [f] + [g] == [f, g];
  }

  lemma RawOfFour(f: Field, g: Field, h: Field, k: Field)
    ensures Raw(Obj([f, g, h, k])) ==
      "{" + (RawField(f) + "," + RawField(g) + "," + RawField(h) + "," + RawField(k)) + "}"
  {
    JsonLayout.FieldsAppend([f], [g]);
    JsonLayout.FieldsAppend([f, g], [h]);
    JsonLayout.FieldsAppend([f, g, h], [k]);
    assert [f] + [g] == [f, g] && [f, g] + [h] == [f, g, h] && [f, g, h] + [k] == [f, g, h, k];
  }

  /** A text or null. */
  function Shown(v: Option<string>): string {
    if v.None? then "null" else "\"" + Escape(v.value) + "\""
  }

  function Entry(key: string, value: string): string {
    "\"" + key + "\":" + value
  }

  predicate IsPlain(key: string) {
    forall i :: 0 <= i < |key| ==> key[i] == '_' || 'a' <= key[i] <= 'z'
  }

  lemma {:induction false} PlainKey(key: string)
    requires IsPlain(key)
    ensures Escape(key) == key
  {
    if key != "" {
      PlainKey(key[1..]);
      assert EscapeChar(key[0]) == [key[0]];
      assert [key[0]] + key[1..] == key;
    }
  }

  lemma EntryOf(key: string, v: Json)
    requires IsPlain(key)
    ensures RawField(Field(key, v)) == Entry(key, Raw(v))
  {
    PlainKey(key);
    JsonLayout.FieldWrittenOut(Field(key, v));
  }

  lemma ShownIs(v: Option<string>)
    ensures Raw(JsonOf(v)) == Shown(v)
  {
  }

  function TwoEntries(k: string, v: string, l: string, w: string): string {
    "{" + (Entry(k, v) + "," + Entry(l, w)) + "}"
  }

  function FourEntries(k: seq<string>, v: seq<string>): string
    requires |k| == |v| == 4
  {
    "{" + (Entry(k[0], v[0]) + "," + Entry(k[1], v[1]) + "," + Entry(k[2], v[2]) + "," + Entry(k[3], v[3])) + "}"
  }

  lemma RawTwoEntries(k: string, v: Json, l: string, w: Json)
    requires IsPlain(k) && IsPlain(l)
    ensures Raw(Obj([Field(k, v), Field(l, w)])) == TwoEntries(k, Raw(v), l, Raw(w))
  {
    EntryOf(k, v);
    EntryOf(l, w);
    RawOfTwo(Field(k, v), Field(l, w));
  }

  lemma RawFourEntries(k: seq<string>, v: seq<Json>, shown: seq<string>)
    requires |k| == |v| == |shown| == 4
    requires forall i :: 0 <= i < 4 ==> IsPlain(k[i]) && Raw(v[i]) == shown[i]
    ensures
      var fields := [Field(k[0], v[0]), Field(k[1], v[1]), Field(k[2], v[2]), Field(k[3], v[3])];
      Raw(Obj(fields)) == FourEntries(k, shown)
  {
    EntryOf(k[0], v[0]);
    EntryOf(k[1], v[1]);
    EntryOf(k[2], v[2]);
    EntryOf(k[3], v[3]);
    RawOfFour(Field(k[0], v[0]), Field(k[1], v[1]), Field(k[2], v[2]), Field(k[3], v[3]));
  }

  const EVENT_KEYS := ["actor", "event_type", "note", "ts"]

  /** An event as it is hashed: its four entries in key order. */
  function EventText(e: Event): string {
    FourEntries(EVENT_KEYS, [Shown(e.actor), Shown(e.eventType), Shown(e.note), Shown(e.ts)])
  }

  lemma KeysPlain()
    ensures forall i :: 0 <= i < 4 ==> IsPlain(EVENT_KEYS[i])
    ensures IsPlain("event") && IsPlain("prev_hash")
  {
  }

  lemma EventTextIs(e: Event)
    ensures Raw(Obj(SortedPayload(e))) == EventText(e)
  {
    KeysPlain();
    ShownIs(e.actor);
    ShownIs(e.eventType);
    ShownIs(e.note);
    ShownIs(e.ts);
    RawFourEntries(EVENT_KEYS, [JsonOf(e.actor), JsonOf(e.eventType), JsonOf(e.note), JsonOf(e.ts)],
      [Shown(e.actor), Shown(e.eventType), Shown(e.note), Shown(e.ts)]);
  }

  lemma LinkTextSorted(prev: string, e: Event)
    ensures LinkText(prev, e) == Raw(SortedLink(prev, e))
  {
    var v := SortedLink(prev, e);
    SortedLinkIsCanonical(prev, e);
    CanonicalWellFormed(v);
    LinkMeaning(prev, e);
    SameLink(prev, e);
    SameTextIffEqual(v, Obj(LinkFields(prev, e)));
    JsonLayout.CanonicalIsRaw(v);
  }

  /** RESULT: the text hashed for a link: the event's four entries in key order, then the previous hash. */
  lemma LinkTextIs(prev: string, e: Event)
    ensures LinkText(prev, e) == TwoEntries("event", EventText(e), "prev_hash", Shown(Some(prev)))
  {
    LinkTextSorted(prev, e);
    KeysPlain();
    EventTextIs(e);
    ShownIs(Some(prev));
    RawTwoEntries("event", Obj(SortedPayload(e)), "prev_hash", Str(prev));
  }

  lemma LinksInjective(sha256: string -> string)
    ensures LinkHasher(sha256).Injective()
  {
    forall p, e, q, f | LinkText(p, e) == LinkText(q, f) ensures p == q && e == f {
      LinkTextInjective(p, e, q, f);
    }
  }

  /** RESULT: two case histories with one chain head are equal, or the comparison hands over two different hashed texts
      with one digest, or a hashed text whose digest is the all-zero genesis. */
  lemma CaseTamperEvidence(sha256: string -> string, a: seq<Event>, b: seq<Event>)
    requires Head(LinkHasher(sha256), a) == Head(LinkHasher(sha256), b)
    ensures match Compare(LinkHasher(sha256), a, b)
      case SameHistory => a == b
      case Collides(x, y) => x != y && sha256(x) == sha256(y)
      case HitsGenesis(x) => sha256(x) == GENESIS
  {
    LinksInjective(sha256);
    TamperEvidence(LinkHasher(sha256), a, b);
  }

  /** A row of the events table; the list is the table in insertion order. */
  datatype Row = Row(caseId: string, ts: string, actor: string, eventType: string, note: Option<string>)

  function RowsOf(rows: seq<Row>, caseId: string): seq<Row> {
    if rows == [] then []
    else
      var n := |rows| - 1;
      RowsOf(rows[..n], caseId) + if rows[n].caseId == caseId then [rows[n]] else []
  }

  /** ORDER BY ts ASC, keeping the insertion order of equal times. */
  function ByTime(rows: seq<Row>): seq<Row> {
    if rows == [] then [] else InsertByTime(rows[|rows| - 1], ByTime(rows[..|rows| - 1]))
  }

  function InsertByTime(r: Row, rows: seq<Row>): seq<Row> {
    if rows == [] || !Less(r.ts, rows[|rows| - 1].ts) then rows + [r]
    else InsertByTime(r, rows[..|rows| - 1]) + [rows[|rows| - 1]]
  }

  function Limit(limit: int): nat {
    if limit < 1 then 1 else if limit > 500 then 500 else limit
  }

  function EventsOf(rows: seq<Row>): seq<Event> {
    seq(|rows|, i requires 0 <= i < |rows| =>
      Event(Some(rows[i].ts), Some(rows[i].actor), Some(rows[i].eventType), Some(rows[i].note.GetOr(""))))
  }

  function Take(rows: seq<Row>, n: nat): seq<Row> {
    if |rows| > n then rows[..n] else rows
  }

  function ListCaseEvents(rows: seq<Row>, caseId: string, limit: int): seq<Event> {
    EventsOf(Take(ByTime(RowsOf(rows, caseId)), Limit(limit)))
  }

  lemma {:induction false} InsertMembers(r: Row, rows: seq<Row>)
    ensures forall x :: x in InsertByTime(r, rows) <==> x == r || x in rows
    ensures |InsertByTime(r, rows)| == |rows| + 1
  {
    if rows != [] && Less(r.ts, rows[|rows| - 1].ts) {
      InsertMembers(r, rows[..|rows| - 1]);
      assert rows == rows[..|rows| - 1] + [rows[|rows| - 1]];
    }
  }

  lemma {:induction false} ByTimeMembers(rows: seq<Row>)
    ensures forall x :: x in ByTime(rows) <==> x in rows
    ensures |ByTime(rows)| == |rows|
  {
    if rows != [] {
      var n := |rows| - 1;
      ByTimeMembers(rows[..n]);
      InsertMembers(rows[n], ByTime(rows[..n]));
      assert rows == rows[..n] + [rows[n]];
    }
  }

  lemma {:induction false} RowsOfMembers(rows: seq<Row>, caseId: string)
    ensures forall r :: r in RowsOf(rows, caseId) <==> r in rows && r.caseId == caseId
  {
    if rows != [] {
      var n := |rows| - 1;
      RowsOfMembers(rows[..n], caseId);
      assert rows == rows[..n] + [rows[n]];
    }
  }

  predicate InTime(rows: seq<Row>) {
    forall i, j :: 0 <= i < j < |rows| ==> !Less(rows[j].ts, rows[i].ts)
  }

  lemma {:induction false} InsertInTime(r: Row, rows: seq<Row>)
    requires InTime(rows)
    ensures InTime(InsertByTime(r, rows))
  {
    if rows != [] {
      var n := |rows| - 1;
      if Less(r.ts, rows[n].ts) {
        InsertInTime(r, rows[..n]);
        InsertMembers(r, rows[..n]);
        var front := InsertByTime(r, rows[..n]);
        forall i | 0 <= i < |front| ensures !Less(rows[n].ts, front[i].ts) {
          assert front[i] in front;
          LessAsymmetric(r.ts, rows[n].ts);
          if front[i] != r {
            var k :| 0 <= k < n && rows[..n][k] == front[i];
            assert rows[k] == front[i];
          }
        }
      } else {
        forall i | 0 <= i < |rows| ensures !Less(r.ts, rows[i].ts) {
          if Less(r.ts, rows[i].ts) && i < n {
            NotBefore(r.ts, rows[i].ts, rows[n].ts);
          }
        }
      }
    }
  }

  /** r before a, a no later than b: r before b. */
  lemma NotBefore(r: string, a: string, b: string)
    requires Less(r, a) && !Less(b, a)
    ensures Less(r, b)
  {
    LessTotal(a, b);
    if Less(a, b) {
      LessTransitive(r, a, b);
    }
  }

  lemma {:induction false} ByTimeInTime(rows: seq<Row>)
    ensures InTime(ByTime(rows))
  {
    if rows != [] {
      ByTimeInTime(rows[..|rows| - 1]);
      InsertInTime(rows[|rows| - 1], ByTime(rows[..|rows| - 1]));
    }
  }

  /** The listed events show these rows. */
  predicate Shows(events: seq<Event>, listed: seq<Row>) {
    && |events| == |listed|
    && (forall i :: 0 <= i < |listed| ==>
          && events[i].ts == Some(listed[i].ts) && events[i].actor == Some(listed[i].actor)
          && events[i].eventType == Some(listed[i].eventType)
          && events[i].note == Some(if listed[i].note.Some? then listed[i].note.value else ""))
  }

  /** RESULT: list_case_events shows rows of the case only, earliest first, as many as it has up to the limit of 1 to
      500, and a row it leaves out is no earlier than those it shows. */
  lemma ListingIs(rows: seq<Row>, caseId: string, limit: int) returns (listed: seq<Row>, rest: seq<Row>)
    ensures Shows(ListCaseEvents(rows, caseId, limit), listed) && InTime(listed + rest)
    ensures forall r :: r in listed + rest <==> r in rows && r.caseId == caseId
    ensures |listed + rest| == |RowsOf(rows, caseId)|
    ensures |listed| <= (if limit < 1 then 1 else if limit > 500 then 500 else limit)
    ensures rest != [] ==> |listed| == (if limit < 1 then 1 else if limit > 500 then 500 else limit)
  {
    var mine := RowsOf(rows, caseId);
    var sorted := ByTime(mine);
    RowsOfMembers(rows, caseId);
    ByTimeMembers(mine);
    ByTimeInTime(mine);
    listed := Take(sorted, Limit(limit));
    rest := sorted[|listed|..];
    assert listed + rest == sorted;
  }

  /** RESULT: the listed rows of a case always audit from the emitted links alone. */
  lemma ListedEventsAudit(sha256: string -> string, rows: seq<Row>, caseId: string, limit: int)
    ensures Audits(LinkHasher(sha256), GENESIS, Chain(LinkHasher(sha256), ListCaseEvents(rows, caseId, limit)))
  {
    LinksInjective(sha256);
    ChainAudits(LinkHasher(sha256), ListCaseEvents(rows, caseId, limit));
  }

  lemma NewestLast(rows: seq<Row>, r: Row)
    requires forall x :: x in RowsOf(rows, r.caseId) ==> !Less(r.ts, x.ts)
    ensures ByTime(RowsOf(rows + [r], r.caseId)) == ByTime(RowsOf(rows, r.caseId)) + [r]
    ensures |ByTime(RowsOf(rows, r.caseId))| == |RowsOf(rows, r.caseId)|
  {
    var mine := RowsOf(rows, r.caseId);
    assert (rows + [r])[..|rows|] == rows;
    assert RowsOf(rows + [r], r.caseId) == mine + [r] && (mine + [r])[..|mine|] == mine;
    var sorted := ByTime(mine);
    ByTimeMembers(mine);
    assert sorted != [] ==> sorted[|sorted| - 1] in sorted;
  }

  lemma TakeAppend(rows: seq<Row>, r: Row, n: nat)
    ensures Take(rows + [r], n) == if |rows| < n then Take(rows, n) + [r] else Take(rows, n)
  {
  }

  lemma EventsAppend(rows: seq<Row>, r: Row)
    ensures EventsOf(rows + [r]) == EventsOf(rows) + EventsOf([r])
  {
  }

  lemma ListingGrows(rows: seq<Row>, r: Row, limit: int)
    requires forall x :: x in RowsOf(rows, r.caseId) ==> !Less(r.ts, x.ts)
    ensures ListCaseEvents(rows + [r], r.caseId, limit)
         == ListCaseEvents(rows, r.caseId, limit)
            + (if |RowsOf(rows, r.caseId)| < Limit(limit) then EventsOf([r]) else [])
  {
    NewestLast(rows, r);
    var sorted := ByTime(RowsOf(rows, r.caseId));
    TakeAppend(sorted, r, Limit(limit));
    EventsAppend(Take(sorted, Limit(limit)), r);
    assert EventsOf(Take(sorted, Limit(limit))) + [] == EventsOf(Take(sorted, Limit(limit)));
  }

  /** RESULT: an event recorded no earlier than the case's others is listed last and extends the chain; once the listing
      is full it is not listed at all and the head no longer moves. */
  lemma RecordingExtends(h: Hasher, rows: seq<Row>, r: Row, limit: int)
    requires forall x :: x in RowsOf(rows, r.caseId) ==> !Less(r.ts, x.ts)
    ensures
      var before, after := ListCaseEvents(rows, r.caseId, limit), ListCaseEvents(rows + [r], r.caseId, limit);
      && Chain(h, before) <= Chain(h, after)
      && |after| == |before| + (if |RowsOf(rows, r.caseId)| < Limit(limit) then 1 else 0)
      && (|RowsOf(rows, r.caseId)| >= Limit(limit) ==> Head(h, after) == Head(h, before))
  {
    ListingGrows(rows, r, limit);
    var before := ListCaseEvents(rows, r.caseId, limit);
    assert before + [] == before;
    AppendExtends(h, before, if |RowsOf(rows, r.caseId)| < Limit(limit) then EventsOf([r]) else []);
  }

  /** n events of one case, all at one instant. */
  function SameRows(r: Row, n: nat): seq<Row> {
    if n == 0 then [] else SameRows(r, n - 1) + [r]
  }

  lemma {:induction false} RowsOfSame(r: Row, n: nat)
    ensures RowsOf(SameRows(r, n), r.caseId) == SameRows(r, n) && |SameRows(r, n)| == n
    ensures forall x :: x in SameRows(r, n) ==> x == r
  {
    if n > 0 {
      var front := SameRows(r, n - 1);
      RowsOfSame(r, n - 1);
      assert SameRows(r, n) == front + [r] && (front + [r])[..n - 1] == front;
      assert RowsOf(front + [r], r.caseId) == RowsOf(front, r.caseId) + [r];
    }
  }

  /** RESULT: after 500 events of a case a bundle's chain head no longer covers another, whatever it says. */
  lemma EventAfter500NotCovered(h: Hasher, r: Row, note: Option<string>)
    ensures
      var rows := SameRows(r, 500);
      Head(h, ListCaseEvents(rows + [r.(note := note)], r.caseId, 500)) == Head(h, ListCaseEvents(rows, r.caseId, 500))
  {
    RowsOfSame(r, 500);
    LessIrreflexive(r.ts);
    RecordingExtends(h, SameRows(r, 500), r.(note := note), 500);
  }

  /** Of the chain function alone, listed rows never lacking a time: a chain over one event without one is not
      recomputed from its link, unless the two hashed texts collide. */
  lemma TimelessEventBreaksAudit(sha256: string -> string, actor: string, eventType: string)
    ensures
      var e := Event(None, Some(actor), Some(eventType), None);
      var x, y := LinkText(GENESIS, e.(ts := Some(""))), LinkText(GENESIS, e);
      x != y && (Audits(LinkHasher(sha256), GENESIS, Chain(LinkHasher(sha256), [e])) ==> sha256(x) == sha256(y))
  {
    var e := Event(None, Some(actor), Some(eventType), None);
    var h := LinkHasher(sha256);
    LinksInjective(sha256);
    ChainAudits(h, [e]);
    assert ([e])[..0] == [];
    assert EventOf(Emitted(h, GENESIS, e)) == e.(ts := Some(""));
    if Audits(h, GENESIS, Chain(h, [e])) {
      assert Recomputable(h, [e], 0);
    }
    if LinkText(GENESIS, e.(ts := Some(""))) == LinkText(GENESIS, e) {
      LinkTextInjective(GENESIS, e.(ts := Some("")), GENESIS, e);
    }
  }

  /** Signing and verification of a bundle: HMAC, a parameter, over its canonical text. */
  function SignBundle(mac: (string, string) -> string, secret: string, bundle: Json): string {
    mac(secret, Canonical(bundle))
  }

  predicate VerifyBundle(mac: (string, string) -> string, secret: string, bundle: Json, signature: string) {
    mac(secret, Canonical(bundle)) == signature
  }

  /** RESULT: a signature verifies exactly the bundles equal to the signed one, however re-ordered or re-parsed,
      and otherwise only a text with the same MAC under the same key. */
  lemma BundleSignature(mac: (string, string) -> string, secret: string, signed: Json, presented: Json)
    requires WellFormed(signed) && WellFormed(presented)
    ensures VerifyBundle(mac, secret, presented, SignBundle(mac, secret, signed))
      <==> Meaning(presented) == Meaning(signed)
           || (Canonical(presented) != Canonical(signed)
               && mac(secret, Canonical(presented)) == mac(secret, Canonical(signed)))
    ensures var reparsed := Parse(Canonical(signed));
      reparsed.Some? && VerifyBundle(mac, secret, reparsed.value, SignBundle(mac, secret, signed))
  {
    SameTextIffEqual(presented, signed);
    ParseCanonical(signed);
  }
}
