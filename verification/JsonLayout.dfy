/** The canonical text written out: escapes, literals, separators, and what is hashed for a link. */
module JsonLayout {
  import opened Options
  import opened JsonText
  import opened CanonicalJson

  /** The escapes of json.dumps; a character from the space on, the quote and the backslash apart, stands for itself. */
  lemma EscapesWrittenOut(c: char)
    ensures c == '"' ==> EscapeChar(c) == "\\\""
    ensures c == '\\' ==> EscapeChar(c) == "\\\\"
    ensures c as int == 8 ==> EscapeChar(c) == "\\b"
    ensures c as int == 9 ==> EscapeChar(c) == "\\t"
    ensures c as int == 10 ==> EscapeChar(c) == "\\n"
    ensures c as int == 12 ==> EscapeChar(c) == "\\f"
    ensures c as int == 13 ==> EscapeChar(c) == "\\r"
    ensures c as int < 32 && c as int !in {8, 9, 10, 12, 13} ==>
      EscapeChar(c) == "\\u00" + ["0123456789abcdef"[c as int / 16], "0123456789abcdef"[c as int % 16]]
    ensures c as int >= 32 && c != '"' && c != '\\' ==> EscapeChar(c) == [c]
  {
    assert forall n: nat :: n < 16 ==> HexDigit(n) == "0123456789abcdef"[n];
  }

  lemma {:induction false} EscapeAppend(s: string, t: string)
    ensures Escape(s + t) == Escape(s) + Escape(t)
  {
    if s == "" {
      assert s + t == t;
    } else {
      assert (s + t)[1..] == s[1..] + t;
      EscapeAppend(s[1..], t);
    }
  }

  lemma {:induction false} ItemsAppend(a: seq<Json>, b: seq<Json>)
    requires a != [] && b != []
    ensures RawItems(a + b) == RawItems(a) + "," + RawItems(b)
  {
    assert (a + b)[1..] == a[1..] + b;
    if |a| > 1 {
      ItemsAppend(a[1..], b);
    } else {
      assert a[1..] + b == b;
    }
  }

  lemma {:induction false} FieldsAppend(a: seq<Field>, b: seq<Field>)
    requires a != [] && b != []
    ensures RawFields(a + b) == RawFields(a) + "," + RawFields(b)
  {
    assert (a + b)[1..] == a[1..] + b;
    if |a| > 1 {
      FieldsAppend(a[1..], b);
    } else {
      assert a[1..] + b == b;
    }
  }

  lemma ScalarsWrittenOut(flag: bool, s: string)
    ensures Raw(Null) == "null" && Raw(Bool(flag)) == (if flag then "true" else "false")
    ensures Raw(Str(s)) == "\"" + Escape(s) + "\""
  {
  }

  /** An array's items between brackets, one comma between two. */
  lemma ArraysWrittenOut(items: seq<Json>, x: Json)
    ensures Raw(Arr([])) == "[]" && Raw(Arr([x])) == "[" + Raw(x) + "]"
    ensures items != [] ==> Raw(Arr(items + [x])) == "[" + (RawItems(items) + "," + Raw(x)) + "]"
  {
    if items != [] {
      ItemsAppend(items, [x]);
    }
  }

  lemma FieldWrittenOut(f: Field)
    ensures RawField(f) == "\"" + Escape(f.key) + "\":" + Raw(f.value)
  {
    var k := Escape(f.key);
    assert "\"" + k + "\"" + ":" == "\"" + k + "\":";
  }

  /** A dict's entries between braces, one comma between two. */
  lemma DictsWrittenOut(fields: seq<Field>, f: Field)
    ensures Raw(Obj([])) == "{}" && Raw(Obj([f])) == "{" + RawField(f) + "}"
    ensures fields != [] ==> Raw(Obj(fields + [f])) == "{" + (RawFields(fields) + "," + RawField(f)) + "}"
    ensures RawField(f) == "\"" + Escape(f.key) + "\":" + Raw(f.value)
  {
    FieldWrittenOut(f);
    if fields != [] {
      FieldsAppend(fields, [f]);
    }
  }

  /** What is canonical already is printed as it stands. */
  lemma CanonicalIsRaw(v: Json)
    requires IsCanonical(v)
    ensures Canonical(v) == Raw(v)
  {
    CanonicalWellFormed(v);
    CanonKeeps(v);
    CanonicalUnique(Canon(v), v);
  }
}
