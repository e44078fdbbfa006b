/** Idempotency-Key records: requests one after another, each keyed by customer, route and client key. */
module Idempotency {
  import opened Options
  import opened JsonText
  import opened CanonicalJson

  /** The primary key of idempotency_keys; an empty key is a request without the header. */
  datatype Slot = Slot(customerId: string, scope: string, key: string)

  datatype Record = Record(requestSha: string, statusCode: int, responseJson: string)

  /** The four routes that take a key. */
  datatype Endpoint = Screening | ReviewDecision | Subscription | CaseEvent

  datatype Scopes = Scopes(writeScreen: bool, writeCases: bool, readEvidence: bool)

  /**
   A request with what its handler will meet: invalid is a rejection before the record is looked up, refused one between
   the lookup and the first write, broken an error raised after the writes; response is what it would answer.
   */
  datatype Request = Request(
    slot: Slot, endpoint: Endpoint, scopes: Scopes, body: Json, statusCode: int,
    invalid: Option<string>, refused: Option<string>, broken: Option<string>, response: Json)

  datatype Answer =
    | Rejected(code: string)            // before the record was looked up
    | Replayed(statusCode: int, text: string)
    | Conflict
    | Refused(code: string)             // nothing written
    | Broken(code: string)              // written, but neither recorded nor answered
    | Performed(response: Json)

  type Records = map<Slot, Record>

  const MISSING_SCOPE := "missing_scope"

  predicate MayWrite(q: Request) {
    if q.endpoint.CaseEvent? then q.scopes.writeCases else q.scopes.writeScreen
  }

  function EarlyError(q: Request): Option<string> {
    if !MayWrite(q) then Some(MISSING_SCOPE) else q.invalid
  }

  /** The case route answers through v2_get_case, which checks another scope after the event is written. */
  function LateError(q: Request): Option<string> {
    if q.broken.Some? then q.broken
    else if q.endpoint.CaseEvent? && !q.scopes.readEvidence then Some(MISSING_SCOPE)
    else None
  }

  function RecordOf(sha256: string -> string, q: Request): Record {
    Record(sha256(Canonical(q.body)), q.statusCode, Canonical(q.response))
  }

  /** A handler with _idempotency_maybe_return before its writes and _idempotency_store after them. */
  function AnswerTo(sha256: string -> string, records: Records, q: Request): Answer {
    if EarlyError(q).Some? then Rejected(EarlyError(q).value)
    else if q.slot.key != "" && q.slot in records then
      var rec := records[q.slot];
      if rec.requestSha != sha256(Canonical(q.body)) then Conflict
      else Replayed(if rec.statusCode == 0 then 200 else rec.statusCode, rec.responseJson)
    else if q.refused.Some? then Refused(q.refused.value)
    else if LateError(q).Some? then Broken(LateError(q).value)
    else Performed(q.response)
  }

  /** What a request is answered and whether it wrote, told by its scopes, errors and record: the case-event route needs
      write:cases, the others write:screen, and the case-event route fails after writing without read:evidence. */
  predicate Told(sha256: string -> string, records: Records, q: Request, a: Answer) {
    if q.endpoint == CaseEvent && !q.scopes.writeCases then a == Rejected("missing_scope")
    else if q.endpoint != CaseEvent && !q.scopes.writeScreen then a == Rejected("missing_scope")
    else if q.invalid.Some? then a == Rejected(q.invalid.value)
    else if q.slot.key != "" && q.slot in records then
      if records[q.slot].requestSha != sha256(Canonical(q.body)) then a == Conflict
      else if records[q.slot].statusCode == 0 then a == Replayed(200, records[q.slot].responseJson)
      else a == Replayed(records[q.slot].statusCode, records[q.slot].responseJson)
    else if q.refused.Some? then a == Refused(q.refused.value)
    else if q.broken.Some? then a == Broken(q.broken.value)
    else if q.endpoint == CaseEvent && !q.scopes.readEvidence then a == Broken("missing_scope")
    else a == Performed(q.response)
  }

  lemma AnswerIs(sha256: string -> string, records: Records, q: Request)
    ensures Told(sha256, records, q, AnswerTo(sha256, records, q))
  {
  }

  function RecordsAfter(sha256: string -> string, records: Records, q: Request): Records {
    if AnswerTo(sha256, records, q).Performed? && q.slot.key != ""
    then records[q.slot := RecordOf(sha256, q)] else records
  }

  /** The handler wrote its rows. */
  predicate Wrote(a: Answer) {
    a.Broken? || a.Performed?
  }

  class IdempotencyTable {
    const sha256: string -> string
    var records: Records
    /** One entry for each time a handler wrote its rows. */
    var effects: seq<Slot>

    constructor (sha256: string -> string)
      ensures this.sha256 == sha256 && records == map[] && effects == []
    {
      this.sha256, records, effects := sha256, map[], [];
    }

    /** INSERT OR IGNORE */
    method Put(slot: Slot, rec: Record)
      modifies this`records
      ensures records == if slot in old(records) then old(records) else old(records)[slot := rec]
    {
      if slot !in records {
        records := records[slot := rec];
      }
    }

    method Serve(q: Request) returns (a: Answer)
      modifies this
      ensures a == AnswerTo(sha256, old(records), q) && records == RecordsAfter(sha256, old(records), q)
      ensures effects == old(effects) + if Wrote(a) then [q.slot] else []
      ensures Told(sha256, old(records), q, a)
      ensures a.Broken? || a.Performed? <==> effects == old(effects) + [q.slot]
      ensures records ==
        if a.Performed? && q.slot.key != ""
        then old(records)[q.slot := Record(sha256(Canonical(q.body)), q.statusCode, Canonical(q.response))]
        else old(records)
    {
      AnswerIs(sha256, records, q);
      if EarlyError(q).Some? {
        return Rejected(EarlyError(q).value);
      }
      var requestSha := sha256(Canonical(q.body));
      if q.slot.key != "" && q.slot in records {
        var rec := records[q.slot];
        if rec.requestSha != requestSha {
          return Conflict;
        }
        return Replayed(if rec.statusCode == 0 then 200 else rec.statusCode, rec.responseJson);
      }
      if q.refused.Some? {
        return Refused(q.refused.value);
      }
      effects := effects + [q.slot];
      if LateError(q).Some? {
        return Broken(LateError(q).value);
      }
      if q.slot.key != "" {
        Put(q.slot, Record(requestSha, q.statusCode, Canonical(q.response)));
      }
      a := Performed(q.response);
    }
  }

  function After(sha256: string -> string, records: Records, qs: seq<Request>): Records
    decreases |qs|
  {
    if qs == [] then records else After(sha256, RecordsAfter(sha256, records, qs[0]), qs[1..])
  }

  /** How often the handlers of a run write for a slot. */
  function Effects(sha256: string -> string, records: Records, qs: seq<Request>, slot: Slot): nat
    decreases |qs|
  {
    if qs == [] then 0
    else (if qs[0].slot == slot && Wrote(AnswerTo(sha256, records, qs[0])) then 1 else 0)
         + Effects(sha256, RecordsAfter(sha256, records, qs[0]), qs[1..], slot)
  }

  // ----- what can be told before the call -----

  /** Nothing stops the handler from writing, unless a record answers in its place. */
  predicate Acts(q: Request) {
    EarlyError(q).None? && q.refused.None?
  }

  predicate Completes(q: Request) {
    Acts(q) && LateError(q).None?
  }

  /** It writes and then fails. */
  predicate Leaks(q: Request) {
    Acts(q) && LateError(q).Some?
  }

  /** Requests of the slot that leak before the first that completes. */
  function LeaksBefore(qs: seq<Request>, slot: Slot): nat {
    if qs == [] || (qs[0].slot == slot && Completes(qs[0])) then 0
    else (if qs[0].slot == slot && Leaks(qs[0]) then 1 else 0) + LeaksBefore(qs[1..], slot)
  }

  predicate SomeCompletes(qs: seq<Request>, slot: Slot) {
    exists i :: 0 <= i < |qs| && qs[i].slot == slot && Completes(qs[i])
  }

  lemma SomeCompletesTail(qs: seq<Request>, slot: Slot)
    requires qs != []
    ensures SomeCompletes(qs, slot) <==> (qs[0].slot == slot && Completes(qs[0])) || SomeCompletes(qs[1..], slot)
  {
    if SomeCompletes(qs, slot) {
      var i :| 0 <= i < |qs| && qs[i].slot == slot && Completes(qs[i]);
      assert i > 0 ==> qs[1..][i - 1] == qs[i];
    }
    if SomeCompletes(qs[1..], slot) {
      var i :| 0 <= i < |qs[1..]| && qs[1..][i].slot == slot && Completes(qs[1..][i]);
      assert qs[i + 1] == qs[1..][i];
    }
  }

  /** A record, once made, is never changed, and nothing more is written for its slot. */
  lemma {:induction false} RecordStays(sha256: string -> string, records: Records, qs: seq<Request>, slot: Slot)
    requires slot in records && slot.key != ""
    ensures slot in After(sha256, records, qs) && After(sha256, records, qs)[slot] == records[slot]
    ensures Effects(sha256, records, qs, slot) == 0
    decreases |qs|
  {
    if qs != [] {
      RecordStays(sha256, RecordsAfter(sha256, records, qs[0]), qs[1..], slot);
    }
  }

  /** RESULT: whatever requests run, a slot's writes are its leaking requests before the first completing one, and
      that one. */
  lemma {:induction false} EffectsExact(sha256: string -> string, records: Records, qs: seq<Request>, slot: Slot)
    requires slot.key != "" && slot !in records
    ensures Effects(sha256, records, qs, slot) == LeaksBefore(qs, slot) + (if SomeCompletes(qs, slot) then 1 else 0)
    decreases |qs|
  {
    if qs != [] {
      var next := RecordsAfter(sha256, records, qs[0]);
      SomeCompletesTail(qs, slot);
      if slot in next {
        RecordStays(sha256, next, qs[1..], slot);
      } else {
        EffectsExact(sha256, next, qs[1..], slot);
      }
    }
  }

  lemma {:induction false} LeaksAppend(qs: seq<Request>, q: Request, slot: Slot)
    requires q.slot == slot
    ensures LeaksBefore(qs + [q], slot) == LeaksBefore(qs, slot)
      + (if Leaks(q) && !SomeCompletes(qs, slot) then 1 else 0)
    ensures SomeCompletes(qs + [q], slot) <==> SomeCompletes(qs, slot) || Completes(q)
  {
    SomeCompletesTail(qs + [q], slot);
    if qs == [] {
      assert (qs + [q])[1..] == [];
    } else {
      assert (qs + [q])[1..] == qs[1..] + [q];
      LeaksAppend(qs[1..], q, slot);
      SomeCompletesTail(qs, slot);
    }
  }

  /** RESULT: after any run, a request that acts leaves its slot written once in all exactly when no earlier request of
      the slot wrote and then failed. */
  lemma WrittenOnceIff(sha256: string -> string, qs: seq<Request>, q: Request)
    requires q.slot.key != "" && Acts(q)
    ensures Effects(sha256, map[], qs + [q], q.slot) == 1 <==> LeaksBefore(qs, q.slot) == 0
    ensures Effects(sha256, map[], qs + [q], q.slot) >= 1
  {
    EffectsExact(sha256, map[], qs + [q], q.slot);
    LeaksAppend(qs, q, q.slot);
  }

  function Repeat(q: Request, n: nat): seq<Request> {
    if n == 0 then [] else [q] + Repeat(q, n - 1)
  }

  lemma {:induction false} RepeatCounts(q: Request, n: nat)
    ensures LeaksBefore(Repeat(q, n), q.slot) == (if Leaks(q) then n else 0)
    ensures SomeCompletes(Repeat(q, n), q.slot) <==> n > 0 && Completes(q)
  {
    if n > 0 {
      RepeatCounts(q, n - 1);
      assert Repeat(q, n)[1..] == Repeat(q, n - 1);
      SomeCompletesTail(Repeat(q, n), q.slot);
    }
  }

  /** RESULT: retrying one request any number of times writes at most once exactly when it does not fail after writing;
      for the case route that is: exactly when a caller who may write cases may also read evidence. */
  lemma RetryIff(sha256: string -> string, records: Records, q: Request)
    requires q.slot.key != "" && q.slot !in records && Acts(q)
    ensures (forall n: nat :: Effects(sha256, records, Repeat(q, n), q.slot) <= 1) <==> LateError(q).None?
    ensures q.broken.None? ==> (LateError(q).None? <==> !q.endpoint.CaseEvent? || q.scopes.readEvidence)
  {
    forall n: nat
      ensures Effects(sha256, records, Repeat(q, n), q.slot) == if Leaks(q) then n else if n > 0 then 1 else 0
    {
      RepeatCounts(q, n);
      EffectsExact(sha256, records, Repeat(q, n), q.slot);
    }
    if Leaks(q) {
      assert Effects(sha256, records, Repeat(q, 2), q.slot) == 2;
    }
  }

  /** RESULT: a key with write:cases alone: every retry of one Idempotency-Key appends the case event again, each
      answered 403. */
  lemma CaseEventRepeats(sha256: string -> string, q: Request, n: nat)
    requires q.slot.key != "" && q.endpoint.CaseEvent? && q.scopes == Scopes(false, true, false)
    requires q.invalid.None? && q.refused.None? && q.broken.None?
    ensures Effects(sha256, map[], Repeat(q, n), q.slot) == n
    ensures AnswerTo(sha256, map[], q) == Broken(MISSING_SCOPE)
  {
    RepeatCounts(q, n);
    EffectsExact(sha256, map[], Repeat(q, n), q.slot);
  }

  /** RESULT: after a keyed request was performed, and any requests in between, another with its key that passes the
      route's own checks gets the recorded response, text that reads back as the response given, exactly when its body
      is equal or collides with the first; otherwise it is a conflict. Nothing is written again. */
  lemma ReplayOrConflict(sha256: string -> string, records: Records, first: Request, between: seq<Request>,
        again: Request)
    requires first.slot.key != "" && again.slot == first.slot && WellFormed(first.body) && WellFormed(again.body)
    requires AnswerTo(sha256, records, first).Performed? && WellFormed(first.response) && EarlyError(again).None?
    ensures
      var a := AnswerTo(sha256, After(sha256, RecordsAfter(sha256, records, first), between), again);
      var x, y := Canonical(first.body), Canonical(again.body);
      && (a.Replayed? <==> Meaning(first.body) == Meaning(again.body) || (x != y && sha256(x) == sha256(y)))
      && (a.Replayed? ==> Parse(a.text).Some? && Meaning(Parse(a.text).value) == Meaning(first.response))
      && (!a.Replayed? ==> a == Conflict)
  {
    RecordStays(sha256, RecordsAfter(sha256, records, first), between, first.slot);
    SameTextIffEqual(first.body, again.body);
    ParseCanonical(first.response);
  }
}
