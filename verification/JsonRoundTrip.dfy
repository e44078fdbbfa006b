/** Parsing the text of a value returns the value. */
module JsonRoundTrip {
  import opened JsonText
  import opened Options
  import Decimal

  predicate Stops(rest: string) {
    rest == "" || !Decimal.IsDigit(rest[0])
  }

  lemma LastItem(s: string, v: Json, rest: string)
    requires ParseValue(s) == Got(v, "]" + rest)
    ensures ParseItems(s) == Got([v], rest)
  {
    assert ("]" + rest)[1..] == rest;
  }

  lemma MoreItems(s: string, v: Json, x: string, items: seq<Json>, rest: string)
    requires ParseValue(s) == Got(v, "," + x) && ParseItems(x) == Got(items, rest)
    ensures ParseItems(s) == Got([v] + items, rest)
  {
    assert ("," + x)[1..] == x;
  }

  lemma LastField(s: string, f: Field, rest: string)
    requires ParseField(s) == Got(f, "}" + rest)
    ensures ParseFields(s) == Got([f], rest)
  {
    assert ("}" + rest)[1..] == rest;
  }

  lemma MoreFields(s: string, f: Field, x: string, fields: seq<Field>, rest: string)
    requires ParseField(s) == Got(f, "," + x) && ParseFields(x) == Got(fields, rest)
    requires !HasKey(fields, f.key)
    ensures ParseFields(s) == Got([f] + fields, rest)
  {
    assert ("," + x)[1..] == x;
  }

  lemma FieldStep(y: string, key: string, x: string, v: Json, rest: string)
    requires ParseString(y) == Got(key, ":" + x) && ParseValue(x) == Got(v, rest)
    ensures ParseField("\"" + y) == Got(Field(key, v), rest)
  {
    assert ("\"" + y)[1..] == y && (":" + x)[1..] == x;
  }

  lemma OneField(f: Field, rest: string)
    requires ParseValue(Raw(f.value) + rest) == Got(f.value, rest)
    ensures ParseField(RawField(f) + rest) == Got(f, rest)
  {
    var x := Raw(f.value) + rest;
    var y := Escape(f.key) + "\"" + (":" + x);
    StringRoundTrip(f.key, ":" + x);
    FieldStep(y, f.key, x, f.value, rest);
    FieldText(Escape(f.key), Raw(f.value), rest);
  }

  lemma FieldText(key: string, v: string, rest: string)
    ensures "\"" + key + "\"" + ":" + v + rest == "\"" + (key + "\"" + (":" + (v + rest)))
    ensures ("\"" + key + "\"") + ":" + v + rest == "\"" + key + "\"" + ":" + v + rest
  {
  }

  lemma ArrayStep(y: string, items: seq<Json>, rest: string)
    requires y != "" && y[0] != ']' && ParseItems(y) == Got(items, rest)
    ensures ParseValue("[" + y) == Got(Arr(items), rest)
  {
    assert ("[" + y)[1..] == y && ("[" + y)[1] == y[0];
  }

  lemma ObjectStep(y: string, fields: seq<Field>, rest: string)
    requires y != "" && y[0] != '}' && ParseFields(y) == Got(fields, rest)
    ensures ParseValue("{" + y) == Got(Obj(fields), rest)
  {
    assert ("{" + y)[1..] == y && ("{" + y)[1] == y[0];
  }

  lemma EmptyOf(rest: string)
    ensures ParseValue(Raw(Arr([])) + rest) == Got(Arr([]), rest)
    ensures ParseValue(Raw(Obj([])) + rest) == Got(Obj([]), rest)
  {
    assert Raw(Arr([])) == "[]" && Raw(Obj([])) == "{}";
    var s, t := "[]" + rest, "{}" + rest;
    assert s[0] == '[' && s[1] == ']' && s[2..] == rest;
    assert t[0] == '{' && t[1] == '}' && t[2..] == rest;
  }

  lemma ArrayOf(items: seq<Json>, rest: string)
    requires items != [] && ParseItems(RawItems(items) + "]" + rest) == Got(items, rest)
    requires RawItems(items) != "" && RawItems(items)[0] != ']'
    ensures ParseValue(Raw(Arr(items)) + rest) == Got(Arr(items), rest)
  {
    var t := RawItems(items);
    ArrayStep(t + "]" + rest, items, rest);
    assert "[" + t + "]" + rest == "[" + (t + "]" + rest);
  }

  lemma ObjectOf(fields: seq<Field>, rest: string)
    requires fields != [] && ParseFields(RawFields(fields) + "}" + rest) == Got(fields, rest)
    requires RawFields(fields) != "" && RawFields(fields)[0] != '}'
    ensures ParseValue(Raw(Obj(fields)) + rest) == Got(Obj(fields), rest)
  {
    var t := RawFields(fields);
    ObjectStep(t + "}" + rest, fields, rest);
    assert "{" + t + "}" + rest == "{" + (t + "}" + rest);
  }

  lemma FirstOfFields(fields: seq<Field>)
    requires fields != []
    ensures RawFields(fields) != "" && RawFields(fields)[0] != '}'
  {
    assert RawField(fields[0])[0] == '"';
  }

  lemma FirstCharacter(v: Json)
    ensures Raw(v) != "" && Raw(v)[0] != ']'
  {
    if v.Int? {
      var d := Decimal.Digits(if v.number < 0 then -v.number else v.number);
      assert Decimal.IsDigit(d[0]);
    }
  }

  lemma FirstOfItems(items: seq<Json>)
    requires items != []
    ensures RawItems(items) != "" && RawItems(items)[0] != ']'
  {
    FirstCharacter(items[0]);
  }

  lemma LiteralOf(v: Json, rest: string)
    requires v.Null? || v.Bool?
    ensures ParseValue(Raw(v) + rest) == Got(v, rest)
  {
    assert (Raw(v) + rest)[|Raw(v)|..] == rest;
    assert Raw(v) <= Raw(v) + rest;
    assert (Raw(v) + rest)[0] == Raw(v)[0];
  }

  lemma NumberOf(n: int, rest: string)
    requires Stops(rest)
    ensures ParseValue(Raw(Int(n)) + rest) == Got(Int(n), rest)
  {
    NumberRoundTrip(n, rest);
    var d := Decimal.Digits(if n < 0 then -n else n);
    assert Decimal.IsDigit(d[0]);
    var s := Raw(Int(n)) + rest;
    assert s[0] == if n < 0 then '-' else d[0];
  }

  lemma TextOf(t: string, rest: string)
    ensures ParseValue(Raw(Str(t)) + rest) == Got(Str(t), rest)
  {
    StringRoundTrip(t, rest);
    assert (Raw(Str(t)) + rest)[1..] == Escape(t) + "\"" + rest;
  }

  lemma {:induction false} ValueRoundTrip(v: Json, rest: string)
    requires WellFormed(v) && Stops(rest)
    ensures ParseValue(Raw(v) + rest) == Got(v, rest)
    decreases v, 1
  {
    match v
    case Null => LiteralOf(v, rest);
    case Bool(_) => LiteralOf(v, rest);
    case Int(n) => NumberOf(n, rest);
    case Str(t) => TextOf(t, rest);
    case Arr(items) =>
      if items == [] {
        EmptyOf(rest);
      } else {
        ItemsRoundTrip(items, rest);
        FirstOfItems(items);
        ArrayOf(items, rest);
      }
    case Obj(fields) =>
      if fields == [] {
        EmptyOf(rest);
      } else {
        FieldsRoundTrip(fields, rest);
        FirstOfFields(fields);
        ObjectOf(fields, rest);
      }
  }

  lemma Regroup(a: string, b: string, c: string, d: string)
    ensures a + "," + b + c + d == a + ("," + (b + c + d))
    ensures a + c + d == a + (c + d)
  {
  }

  lemma {:induction false} ItemsRoundTrip(items: seq<Json>, rest: string)
    requires items != [] && forall i :: 0 <= i < |items| ==> WellFormed(items[i])
    ensures ParseItems(RawItems(items) + "]" + rest) == Got(items, rest)
    decreases items, 0
  {
    var v := items[0];
    if |items| == 1 {
      ValueRoundTrip(v, "]" + rest);
      LastItem(Raw(v) + ("]" + rest), v, rest);
      Regroup(Raw(v), "", "]", rest);
      assert items == [v];
    } else {
      var x := RawItems(items[1..]) + "]" + rest;
      ItemsRoundTrip(items[1..], rest);
      ValueRoundTrip(v, "," + x);
      MoreItems(Raw(v) + ("," + x), v, x, items[1..], rest);
      Regroup(Raw(v), RawItems(items[1..]), "]", rest);
      assert items == [v] + items[1..];
    }
  }

  lemma {:induction false} FieldsRoundTrip(fields: seq<Field>, rest: string)
    requires fields != [] && DistinctKeys(fields) && forall i :: 0 <= i < |fields| ==> WellFormed(fields[i].value)
    ensures ParseFields(RawFields(fields) + "}" + rest) == Got(fields, rest)
    decreases fields, 0
  {
    var f := fields[0];
    if |fields| == 1 {
      ValueRoundTrip(f.value, "}" + rest);
      OneField(f, "}" + rest);
      LastField(RawField(f) + ("}" + rest), f, rest);
      Regroup(RawField(f), "", "}", rest);
      assert fields == [f];
    } else {
      var x := RawFields(fields[1..]) + "}" + rest;
      FieldsRoundTrip(fields[1..], rest);
      ValueRoundTrip(f.value, "," + x);
      OneField(f, "," + x);
      MoreFields(RawField(f) + ("," + x), f, x, fields[1..], rest);
      Regroup(RawField(f), RawFields(fields[1..]), "}", rest);
      assert fields == [f] + fields[1..];
    }
  }

  /** Parsing the whole text of a value gives the value. */
  lemma ParseRaw(v: Json)
    requires WellFormed(v)
    ensures Parse(Raw(v)) == Some(v)
  {
    ValueRoundTrip(v, "");
    assert Raw(v) + "" == Raw(v);
  }
}
