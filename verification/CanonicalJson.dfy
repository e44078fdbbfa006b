/** json.dumps with sorted keys: one text for each JSON value, whatever order its dicts were built in. */
module CanonicalJson {
  import opened JsonText
  import opened JsonRoundTrip
  import opened Options
  import opened Text

  /** A JSON value as Python's == compares it: an object is a finite map from keys to values. */
  datatype Doc =
    | DNull
    | DBool(flag: bool)
    | DInt(number: int)
    | DStr(text: string)
    | DArr(items: seq<Doc>)
    | DObj(fields: map<string, Doc>)

  function Meaning(v: Json): Doc {
    match v
    case Null => DNull
    case Bool(flag) => DBool(flag)
    case Int(n) => DInt(n)
    case Str(s) => DStr(s)
    case Arr(items) => DArr(MeaningItems(items))
    case Obj(fields) => DObj(MeaningFields(fields))
  }

  function MeaningItems(items: seq<Json>): seq<Doc> {
    if items == [] then [] else [Meaning(items[0])] + MeaningItems(items[1..])
  }

  function MeaningFields(fields: seq<Field>): map<string, Doc> {
    if fields == [] then map[] else MeaningFields(fields[1..])[fields[0].key := Meaning(fields[0].value)]
  }

  function InsertField(f: Field, s: seq<Field>): seq<Field> {
    if s == [] || !Less(s[0].key, f.key) then [f] + s else [s[0]] + InsertField(f, s[1..])
  }

  /** The value with every dict's fields in ascending key order. */
  function Canon(v: Json): Json {
    match v
    case Arr(items) => Arr(CanonItems(items))
    case Obj(fields) => Obj(CanonFields(fields))
    case _ => v
  }

  function CanonItems(items: seq<Json>): seq<Json> {
    if items == [] then [] else [Canon(items[0])] + CanonItems(items[1..])
  }

  function CanonFields(fields: seq<Field>): seq<Field> {
    if fields == [] then []
    else InsertField(Field(fields[0].key, Canon(fields[0].value)), CanonFields(fields[1..]))
  }

  /** json.dumps(obj, sort_keys=True, separators=(",", ":"), ensure_ascii=False) */
  function Canonical(v: Json): string {
    Raw(Canon(v))
  }

  predicate AllAbove(key: string, fields: seq<Field>) {
    forall i :: 0 <= i < |fields| ==> Less(key, fields[i].key)
  }

  predicate AscendingKeys(fields: seq<Field>) {
    fields != [] ==> AllAbove(fields[0].key, fields[1..]) && AscendingKeys(fields[1..])
  }

  predicate AllCanonical(fields: seq<Field>) {
    forall i :: 0 <= i < |fields| ==> IsCanonical(fields[i].value)
  }

  predicate IsCanonical(v: Json) {
    match v
    case Arr(items) => forall i :: 0 <= i < |items| ==> IsCanonical(items[i])
    case Obj(fields) => AscendingKeys(fields) && forall i :: 0 <= i < |fields| ==> IsCanonical(fields[i].value)
    case _ => true
  }

  lemma {:induction false} AscendingDistinct(fields: seq<Field>)
    requires AscendingKeys(fields)
    ensures DistinctKeys(fields)
  {
    if fields != [] {
      AscendingDistinct(fields[1..]);
      LessIrreflexive(fields[0].key);
      assert forall j :: 1 <= j < |fields| ==> fields[1..][j - 1] == fields[j];
    }
  }

  lemma {:induction false} CanonicalWellFormed(v: Json)
    requires IsCanonical(v)
    ensures WellFormed(v)
  {
    match v
    case Arr(items) =>
      forall i | 0 <= i < |items| ensures WellFormed(items[i]) {
        CanonicalWellFormed(items[i]);
      }
    case Obj(fields) =>
      forall i | 0 <= i < |fields| ensures WellFormed(fields[i].value) {
        CanonicalWellFormed(fields[i].value);
      }
      AscendingDistinct(fields);
    case _ =>
  }

  lemma {:induction false} InsertAbove(key: string, f: Field, s: seq<Field>)
    requires Less(key, f.key) && AllAbove(key, s)
    ensures AllAbove(key, InsertField(f, s))
  {
    if s != [] && Less(s[0].key, f.key) {
      InsertAbove(key, f, s[1..]);
    }
  }

  lemma AboveTransitive(low: string, key: string, s: seq<Field>)
    requires Less(low, key) && AllAbove(key, s)
    ensures AllAbove(low, s)
  {
    forall i | 0 <= i < |s| ensures Less(low, s[i].key) {
      LessTransitive(low, key, s[i].key);
    }
  }

  lemma {:induction false} InsertKeepsOrder(f: Field, s: seq<Field>)
    requires AscendingKeys(s) && f.key !in MeaningFields(s)
    ensures AscendingKeys(InsertField(f, s))
  {
    if s != [] {
      LessTotal(s[0].key, f.key);
      if Less(s[0].key, f.key) {
        InsertKeepsOrder(f, s[1..]);
        InsertAbove(s[0].key, f, s[1..]);
        assert InsertField(f, s)[1..] == InsertField(f, s[1..]);
      } else {
        AboveTransitive(f.key, s[0].key, s[1..]);
        assert InsertField(f, s)[1..] == s;
      }
    }
  }

  lemma {:induction false} InsertKeepsCanonical(f: Field, s: seq<Field>)
    requires IsCanonical(f.value) && AllCanonical(s)
    ensures AllCanonical(InsertField(f, s))
  {
    if s != [] && Less(s[0].key, f.key) {
      InsertKeepsCanonical(f, s[1..]);
    }
  }

  lemma {:induction false} InsertMeaning(f: Field, s: seq<Field>)
    requires f.key !in MeaningFields(s)
    ensures MeaningFields(InsertField(f, s)) == MeaningFields(s)[f.key := Meaning(f.value)]
  {
    if s != [] && Less(s[0].key, f.key) {
      InsertMeaning(f, s[1..]);
      assert InsertField(f, s)[1..] == InsertField(f, s[1..]);
      var m, k, v := MeaningFields(s[1..]), s[0].key, Meaning(s[0].value);
      assert m[f.key := Meaning(f.value)][k := v] == m[k := v][f.key := Meaning(f.value)];
    } else {
      assert InsertField(f, s)[1..] == s;
    }
  }

  lemma {:induction false} KeysOfMeaning(fields: seq<Field>)
    ensures forall key :: key in MeaningFields(fields) <==> HasKey(fields, key)
  {
    if fields != [] {
      KeysOfMeaning(fields[1..]);
      assert forall i :: 1 <= i < |fields| ==> fields[1..][i - 1] == fields[i];
      assert forall key :: HasKey(fields[1..], key) ==> HasKey(fields, key);
    }
  }

  /** The canonical form is canonical and has the same meaning. */
  lemma {:induction false} CanonKeeps(v: Json)
    requires WellFormed(v)
    ensures IsCanonical(Canon(v)) && Meaning(Canon(v)) == Meaning(v)
    decreases v, 1
  {
    match v
    case Arr(items) => CanonItemsKeep(items);
    case Obj(fields) => CanonFieldsKeep(fields);
    case _ =>
  }

  lemma {:induction false} CanonItemsKeep(items: seq<Json>)
    requires forall i :: 0 <= i < |items| ==> WellFormed(items[i])
    ensures forall i :: 0 <= i < |CanonItems(items)| ==> IsCanonical(CanonItems(items)[i])
    ensures MeaningItems(CanonItems(items)) == MeaningItems(items)
    decreases items, 0
  {
    if items != [] {
      CanonKeeps(items[0]);
      CanonItemsKeep(items[1..]);
      assert CanonItems(items)[1..] == CanonItems(items[1..]);
    }
  }

  lemma {:induction false} CanonFieldsKeep(fields: seq<Field>)
    requires DistinctKeys(fields) && forall i :: 0 <= i < |fields| ==> WellFormed(fields[i].value)
    ensures AscendingKeys(CanonFields(fields)) && AllCanonical(CanonFields(fields))
    ensures MeaningFields(CanonFields(fields)) == MeaningFields(fields)
    decreases fields, 0
  {
    if fields != [] {
      CanonKeeps(fields[0].value);
      CanonFieldsKeep(fields[1..]);
      KeysOfMeaning(fields[1..]);
      var f, s := Field(fields[0].key, Canon(fields[0].value)), CanonFields(fields[1..]);
      InsertKeepsOrder(f, s);
      InsertKeepsCanonical(f, s);
      InsertMeaning(f, s);
    }
  }

  lemma {:induction false} AboveKeys(low: string, fields: seq<Field>)
    requires AllAbove(low, fields)
    ensures forall key :: key in MeaningFields(fields) ==> Less(low, key)
  {
    KeysOfMeaning(fields);
  }

  /** Canonical values of the same meaning are the same value. */
  lemma {:induction false} CanonicalUnique(v: Json, w: Json)
    requires IsCanonical(v) && IsCanonical(w) && Meaning(v) == Meaning(w)
    ensures v == w
    decreases v, 1
  {
    match v
    case Arr(items) => ItemsUnique(items, w.items);
    case Obj(fields) => FieldsUnique(fields, w.fields);
    case _ =>
  }

  lemma {:induction false} ItemsUnique(a: seq<Json>, b: seq<Json>)
    requires (forall i :: 0 <= i < |a| ==> IsCanonical(a[i])) && (forall i :: 0 <= i < |b| ==> IsCanonical(b[i]))
    requires MeaningItems(a) == MeaningItems(b)
    ensures a == b
    decreases a, 0
  {
    if a != [] && b != [] {
      assert MeaningItems(a)[0] == Meaning(a[0]) && MeaningItems(b)[0] == Meaning(b[0]);
      assert MeaningItems(a)[1..] == MeaningItems(a[1..]) && MeaningItems(b)[1..] == MeaningItems(b[1..]);
      CanonicalUnique(a[0], b[0]);
      ItemsUnique(a[1..], b[1..]);
      assert a == [a[0]] + a[1..] && b == [b[0]] + b[1..];
    }
  }

  lemma SameFirstKey(a: seq<Field>, b: seq<Field>)
    requires a != [] && b != [] && AscendingKeys(a) && AscendingKeys(b)
    requires MeaningFields(a).Keys == MeaningFields(b).Keys
    ensures a[0].key == b[0].key
  {
    AboveKeys(a[0].key, a[1..]);
    AboveKeys(b[0].key, b[1..]);
    assert a[0].key in MeaningFields(b).Keys && b[0].key in MeaningFields(a).Keys;
    if a[0].key != b[0].key {
      LessAsymmetric(a[0].key, b[0].key);
    }
  }

  lemma EmptyMeaning(fields: seq<Field>)
    ensures fields == [] <==> MeaningFields(fields) == map[]
  {
    if fields != [] {
      assert fields[0].key in MeaningFields(fields);
    }
  }

  lemma TailMeaning(a: seq<Field>)
    requires a != [] && AscendingKeys(a)
    ensures MeaningFields(a[1..]) == MeaningFields(a) - {a[0].key}
  {
    AboveKeys(a[0].key, a[1..]);
    LessIrreflexive(a[0].key);
  }

  lemma {:induction false} FieldsUnique(a: seq<Field>, b: seq<Field>)
    requires AscendingKeys(a) && AscendingKeys(b) && AllCanonical(a) && AllCanonical(b)
    requires MeaningFields(a) == MeaningFields(b)
    ensures a == b
    decreases a, 0
  {
    EmptyMeaning(a);
    EmptyMeaning(b);
    if a != [] && b != [] {
      SameFirstKey(a, b);
      TailMeaning(a);
      TailMeaning(b);
      assert MeaningFields(a)[a[0].key] == Meaning(a[0].value) && MeaningFields(b)[b[0].key] == Meaning(b[0].value);
      CanonicalUnique(a[0].value, b[0].value);
      FieldsUnique(a[1..], b[1..]);
      assert a == [a[0]] + a[1..] && b == [b[0]] + b[1..];
    }
  }

  /** RESULT: two values print alike exactly when they are equal, objects being compared as maps. */
  lemma SameTextIffEqual(v: Json, w: Json)
    requires WellFormed(v) && WellFormed(w)
    ensures Canonical(v) == Canonical(w) <==> Meaning(v) == Meaning(w)
  {
    CanonKeeps(v);
    CanonKeeps(w);
    if Canonical(v) == Canonical(w) {
      CanonicalWellFormed(Canon(v));
      CanonicalWellFormed(Canon(w));
      ParseRaw(Canon(v));
      ParseRaw(Canon(w));
    }
    if Meaning(v) == Meaning(w) {
      CanonicalUnique(Canon(v), Canon(w));
    }
  }

  /** RESULT: parsing the printed value gives an equal value, and printing that gives the same text again. */
  lemma ParseCanonical(v: Json)
    requires WellFormed(v)
    ensures Parse(Canonical(v)).Some?
    ensures
      var w := Parse(Canonical(v)).value;
      WellFormed(w) && Meaning(w) == Meaning(v) && Canonical(w) == Canonical(v)
  {
    CanonKeeps(v);
    CanonicalWellFormed(Canon(v));
    ParseRaw(Canon(v));
    SameTextIffEqual(Canon(v), v);
  }

  lemma {:induction false} FieldAt(fields: seq<Field>, f: Field)
    requires DistinctKeys(fields) && f in fields
    ensures f.key in MeaningFields(fields) && MeaningFields(fields)[f.key] == Meaning(f.value)
  {
    if f != fields[0] {
      assert fields == [fields[0]] + fields[1..];
      FieldAt(fields[1..], f);
      KeysOfMeaning(fields[1..]);
      assert !HasKey(fields[1..], fields[0].key);
    }
  }

  lemma MeaningWithin(a: seq<Field>, b: seq<Field>)
    requires DistinctKeys(a) && DistinctKeys(b) && forall f :: f in a ==> f in b
    ensures forall key :: key in MeaningFields(a) ==>
      key in MeaningFields(b) && MeaningFields(a)[key] == MeaningFields(b)[key]
  {
    KeysOfMeaning(a);
    forall key | key in MeaningFields(a)
      ensures key in MeaningFields(b) && MeaningFields(a)[key] == MeaningFields(b)[key]
    {
      var i :| 0 <= i < |a| && a[i].key == key;
      assert a[i] in a;
      FieldAt(a, a[i]);
      FieldAt(b, a[i]);
    }
  }

  /** RESULT: the order in which a dict was filled does not show in its text. */
  lemma KeyOrderIrrelevant(a: seq<Field>, b: seq<Field>)
    requires WellFormed(Obj(a)) && WellFormed(Obj(b)) && multiset(a) == multiset(b)
    ensures Canonical(Obj(a)) == Canonical(Obj(b))
  {
    assert forall f :: f in a <==> f in multiset(a);
    assert forall f :: f in b <==> f in multiset(b);
    MeaningWithin(a, b);
    MeaningWithin(b, a);
    assert MeaningFields(a) == MeaningFields(b);
    SameTextIffEqual(Obj(a), Obj(b));
  }
}
