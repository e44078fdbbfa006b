/** JSON values as the evidence code builds them, their compact text, and the parser of that text (RFC 8259). */
module JsonText {
  import opened Options
  import Decimal

  datatype Json =
    | Null
    | Bool(flag: bool)
    | Int(number: int)
    | Str(text: string)
    | Arr(items: seq<Json>)
    | Obj(fields: seq<Field>)

  /** One dict entry; a list of them is a dict in insertion order. */
  datatype Field = Field(key: string, value: Json)

  datatype Parsed<+T> = Fail | Got(value: T, rest: string)

  predicate HasKey(fields: seq<Field>, key: string) {
    exists i :: 0 <= i < |fields| && fields[i].key == key
  }

  predicate DistinctKeys(fields: seq<Field>) {
    forall i, j :: 0 <= i < j < |fields| ==> fields[i].key != fields[j].key
  }

  /** Every object is a dict: no key twice. */
  predicate WellFormed(v: Json) {
    match v
    case Arr(items) => forall i :: 0 <= i < |items| ==> WellFormed(items[i])
    case Obj(fields) => DistinctKeys(fields) && forall i :: 0 <= i < |fields| ==> WellFormed(fields[i].value)
    case _ => true
  }

  function HexDigit(n: nat): char
    requires n < 16
  {
    if n < 10 then '0' + n as char else 'a' + (n - 10) as char
  }

  function HexValue(c: char): (v: Option<nat>) {
    if '0' <= c <= '9' then Some((c - '0') as nat)
    else if 'a' <= c <= 'f' then Some((c - 'a') as nat + 10)
    else if 'A' <= c <= 'F' then Some((c - 'A') as nat + 10)
    else None
  }

  /** The two-character escapes json.dumps writes. */
  function ShortEscape(c: char): Option<char> {
    if c == '"' then Some('"')
    else if c == '\\' then Some('\\')
    else if c == '\n' then Some('n')
    else if c == '\r' then Some('r')
    else if c == '\t' then Some('t')
    else if c == '\U{000C}' then Some('f')
    else if c == '\U{0008}' then Some('b')
    else None
  }

  /** What a two-character escape stands for. */
  function ShortUnescape(e: char): Option<char> {
    if e == '"' || e == '\\' || e == '/' then Some(e)
    else if e == 'n' then Some('\n')
    else if e == 'r' then Some('\r')
    else if e == 't' then Some('\t')
    else if e == 'f' then Some('\U{000C}')
    else if e == 'b' then Some('\U{0008}')
    else None
  }

  function EscapeChar(c: char): string {
    if ShortEscape(c).Some? then ['\\', ShortEscape(c).value]
    else if c < ' ' then "\\u00" + [HexDigit(c as nat / 16), HexDigit(c as nat % 16)]
    else [c]
  }

  function Escape(s: string): string {
    if s == "" then "" else EscapeChar(s[0]) + Escape(s[1..])
  }

  function Quoted(s: string): string {
    "\"" + Escape(s) + "\""
  }

  /** The text of a value with its fields in the order given. */
  function Raw(v: Json): string {
    match v
    case Null => "null"
    case Bool(flag) => if flag then "true" else "false"
    case Int(n) => Decimal.IntText(n)
    case Str(s) => Quoted(s)
    case Arr(items) => "[" + RawItems(items) + "]"
    case Obj(fields) => "{" + RawFields(fields) + "}"
  }

  function RawItems(items: seq<Json>): string {
    if items == [] then ""
    else if |items| == 1 then Raw(items[0])
    else Raw(items[0]) + "," + RawItems(items[1..])
  }

  function RawField(f: Field): string {
    Quoted(f.key) + ":" + Raw(f.value)
  }

  function RawFields(fields: seq<Field>): string {
    if fields == [] then ""
    else if |fields| == 1 then RawField(fields[0])
    else RawField(fields[0]) + "," + RawFields(fields[1..])
  }

  function FromHex(a: nat, b: nat, c: nat, d: nat): nat {
    ((a * 16 + b) * 16 + c) * 16 + d
  }

  function Hex4(s: string): Option<nat> {
    if |s| < 4 then None
    else
      var a, b, c, d := HexValue(s[0]), HexValue(s[1]), HexValue(s[2]), HexValue(s[3]);
      if a.None? || b.None? || c.None? || d.None? then None
      else Some(FromHex(a.value, b.value, c.value, d.value))
  }

  /** One character after a backslash; surrogate code units are refused. */
  function ParseEscape(s: string): (p: Parsed<char>)
    ensures p.Got? ==> |p.rest| < |s|
  {
    if s == "" then Fail
    else if s[0] != 'u' then
      if ShortUnescape(s[0]).None? then Fail else Got(ShortUnescape(s[0]).value, s[1..])
    else
      var code := Hex4(s[1..]);
      if code.None? || !(code.value < 0xD800 || 0xE000 <= code.value < 0x10000) then Fail
      else Got(code.value as char, s[5..])
  }

  /** The characters up to the closing quote. */
  function ParseString(s: string): (p: Parsed<string>)
    ensures p.Got? ==> |p.rest| < |s|
  {
    if s == "" || s[0] < ' ' then Fail
    else if s[0] == '"' then Got("", s[1..])
    else
      var c := if s[0] == '\\' then ParseEscape(s[1..]) else Got(s[0], s[1..]);
      if c.Fail? then Fail
      else
        var more := ParseString(c.rest);
        if more.Fail? then Fail else Got([c.value] + more.value, more.rest)
  }

  function DigitRun(s: string): (r: string)
    ensures r <= s && Decimal.AllDigits(r)
  {
    if s == "" || !Decimal.IsDigit(s[0]) then "" else [s[0]] + DigitRun(s[1..])
  }

  function ParseNat(s: string): (p: Parsed<nat>)
    ensures p.Got? ==> |p.rest| < |s|
  {
    var run := DigitRun(s);
    if run == "" then Fail
    else if run[0] == '0' then Got(0, s[1..])
    else Got(Decimal.DigitsValue(run), s[|run|..])
  }

  function Signed(n: Parsed<nat>, sign: int): Parsed<Json> {
    if n.Fail? then Fail else Got(Int(sign * n.value), n.rest)
  }

  function ParseNumber(s: string): (p: Parsed<Json>)
    ensures p.Got? ==> |p.rest| < |s|
  {
    if s != "" && s[0] == '-' then
      Signed(ParseNat(s[1..]), -1)
    else Signed(ParseNat(s), 1)
  }

  function ParseLiteral(s: string, word: string, v: Json): (p: Parsed<Json>)
    requires word != ""
    ensures p.Got? ==> |p.rest| < |s|
  {
    if word <= s then Got(v, s[|word|..]) else Fail
  }

  function Lookup(fields: seq<Field>, key: string): (v: Option<Json>)
    ensures v.Some? <==> HasKey(fields, key)
  {
    if fields == [] then None
    else if fields[0].key == key then Some(fields[0].value)
    else
      var v := Lookup(fields[1..], key);
      assert HasKey(fields, key) ==> HasKey(fields[1..], key) by {
        if i :| 0 <= i < |fields| && fields[i].key == key {
          assert fields[1..][i - 1] == fields[i];
        }
      }
      v
  }

  function Drop(fields: seq<Field>, key: string): seq<Field> {
    if fields == [] then []
    else (if fields[0].key == key then [] else [fields[0]]) + Drop(fields[1..], key)
  }

  /** A repeated key keeps its first place and its last value. */
  function AddFirst(f: Field, fields: seq<Field>): seq<Field> {
    match Lookup(fields, f.key)
    case None => [f] + fields
    case Some(v) => [Field(f.key, v)] + Drop(fields, f.key)
  }

  function ParseValue(s: string): (p: Parsed<Json>)
    ensures p.Got? ==> |p.rest| < |s|
    decreases |s|, 1
  {
    if s == "" then Fail
    else if s[0] == 'n' then ParseLiteral(s, "null", Null)
    else if s[0] == 't' then ParseLiteral(s, "true", Bool(true))
    else if s[0] == 'f' then ParseLiteral(s, "false", Bool(false))
    else if s[0] == '"' then
      var t := ParseString(s[1..]);
      if t.Fail? then Fail else Got(Str(t.value), t.rest)
    else if s[0] == '[' then
      if |s| > 1 && s[1] == ']' then Got(Arr([]), s[2..])
      else
        var items := ParseItems(s[1..]);
        if items.Fail? then Fail else Got(Arr(items.value), items.rest)
    else if s[0] == '{' then
      if |s| > 1 && s[1] == '}' then Got(Obj([]), s[2..])
      else
        var fields := ParseFields(s[1..]);
        if fields.Fail? then Fail else Got(Obj(fields.value), fields.rest)
    else ParseNumber(s)
  }

  function ParseItems(s: string): (p: Parsed<seq<Json>>)
    ensures p.Got? ==> |p.rest| < |s|
    decreases |s|, 2
  {
    var v := ParseValue(s);
    if v.Fail? || v.rest == "" then Fail
    else if v.rest[0] == ']' then Got([v.value], v.rest[1..])
    else if v.rest[0] != ',' then Fail
    else
      var more := ParseItems(v.rest[1..]);
      if more.Fail? then Fail else Got([v.value] + more.value, more.rest)
  }

  function ParseField(s: string): (p: Parsed<Field>)
    ensures p.Got? ==> |p.rest| < |s|
    decreases |s|, 0
  {
    if s == "" || s[0] != '"' then Fail
    else
      var key := ParseString(s[1..]);
      if key.Fail? || key.rest == "" || key.rest[0] != ':' then Fail
      else
        var v := ParseValue(key.rest[1..]);
        if v.Fail? then Fail else Got(Field(key.value, v.value), v.rest)
  }

  function ParseFields(s: string): (p: Parsed<seq<Field>>)
    ensures p.Got? ==> |p.rest| < |s|
    decreases |s|, 2
  {
    var f := ParseField(s);
    if f.Fail? || f.rest == "" then Fail
    else if f.rest[0] == '}' then Got([f.value], f.rest[1..])
    else if f.rest[0] != ',' then Fail
    else
      var more := ParseFields(f.rest[1..]);
      if more.Fail? then Fail else Got(AddFirst(f.value, more.value), more.rest)
  }

  /** json.loads on text without insignificant white space, fractions or exponents. */
  function Parse(s: string): Option<Json> {
    var p := ParseValue(s);
    if p.Got? && p.rest == "" then Some(p.value) else None
  }

  lemma HexRoundTrip(n: nat)
    requires n < 16
    ensures HexValue(HexDigit(n)) == Some(n)
  {
  }

  /** Reading one character, plain or escaped, before text that itself reads as t. */
  lemma OneCharacter(s: string, c: Parsed<char>, t: string, rest: string)
    requires s != "" && s[0] >= ' ' && s[0] != '"'
    requires c == if s[0] == '\\' then ParseEscape(s[1..]) else Got(s[0], s[1..])
    requires c.Got? && ParseString(c.rest) == Got(t, rest)
    ensures ParseString(s) == Got([c.value] + t, rest)
  {
  }

  lemma HexEscape(c: char, x: string)
    requires c < ' '
    ensures ParseEscape("u00" + [HexDigit(c as nat / 16), HexDigit(c as nat % 16)] + x) == Got(c, x)
  {
    var n := c as nat;
    HexRoundTrip(n / 16);
    HexRoundTrip(n % 16);
    var s := "u00" + [HexDigit(n / 16), HexDigit(n % 16)] + x;
    assert s[0] == 'u' && s[1] == '0' && s[2] == '0' && s[3] == HexDigit(n / 16) && s[4] == HexDigit(n % 16);
    assert s[5..] == x;
    assert FromHex(0, 0, n / 16, n % 16) == n;
    assert s[1..][0] == s[1] && s[1..][1] == s[2] && s[1..][2] == s[3] && s[1..][3] == s[4];
  }

  lemma EscapeRoundTrip(c: char, x: string, t: string, rest: string)
    requires ParseString(x) == Got(t, rest)
    ensures ParseString(EscapeChar(c) + x) == Got([c] + t, rest)
  {
    var s := EscapeChar(c) + x;
    if ShortEscape(c).Some? {
      assert s[1..] == [ShortEscape(c).value] + x && s[1..][1..] == x;
      assert ParseEscape(s[1..]) == Got(c, x);
      OneCharacter(s, Got(c, x), t, rest);
    } else if c < ' ' {
      HexEscape(c, x);
      assert s[0] == '\\' && s[1..] == "u00" + [HexDigit(c as nat / 16), HexDigit(c as nat % 16)] + x;
      OneCharacter(s, Got(c, x), t, rest);
    } else {
      assert s[1..] == x;
      OneCharacter(s, Got(c, x), t, rest);
    }
  }

  lemma {:induction false} StringRoundTrip(t: string, rest: string)
    ensures ParseString(Escape(t) + "\"" + rest) == Got(t, rest)
  {
    if t == "" {
      assert Escape(t) + "\"" + rest == "\"" + rest && ("\"" + rest)[1..] == rest;
    } else {
      var x := Escape(t[1..]) + "\"" + rest;
      StringRoundTrip(t[1..], rest);
      EscapeRoundTrip(t[0], x, t[1..], rest);
      assert Escape(t) + "\"" + rest == EscapeChar(t[0]) + x;
      assert [t[0]] + t[1..] == t;
    }
  }

  lemma {:induction false} DigitRunOf(d: string, rest: string)
    requires Decimal.AllDigits(d) && (rest == "" || !Decimal.IsDigit(rest[0]))
    ensures DigitRun(d + rest) == d
  {
    if d == "" {
      assert d + rest == rest;
    } else {
      assert (d + rest)[1..] == d[1..] + rest;
      DigitRunOf(d[1..], rest);
    }
  }

  lemma NatRoundTrip(n: nat, rest: string)
    requires rest == "" || !Decimal.IsDigit(rest[0])
    ensures ParseNat(Decimal.Digits(n) + rest) == Got(n, rest)
  {
    var d := Decimal.Digits(n);
    DigitRunOf(d, rest);
    Decimal.DigitsRoundTrip(n);
    assert (d + rest)[|d|..] == rest;
    if d[0] == '0' {
      assert (d + rest)[1..] == rest;
    }
  }

  lemma PositiveNumber(s: string, n: nat, rest: string)
    requires s != "" && s[0] != '-' && ParseNat(s) == Got(n, rest)
    ensures ParseNumber(s) == Got(Int(n), rest)
  {
  }

  lemma NegativeNumber(s: string, n: nat, rest: string)
    requires ParseNat(s) == Got(n, rest)
    ensures ParseNumber("-" + s) == Signed(Got(n, rest), -1)
  {
    assert ("-" + s)[1..] == s;
  }

  lemma NumberRoundTrip(n: int, rest: string)
    requires rest == "" || !Decimal.IsDigit(rest[0])
    ensures ParseNumber(Decimal.IntText(n) + rest) == Got(Int(n), rest)
  {
    var size: nat := if n < 0 then -n else n;
    var d := Decimal.Digits(size);
    NatRoundTrip(size, rest);
    assert Decimal.IsDigit(d[0]);
    if n < 0 {
      NegativeNumber(d + rest, size, rest);
      assert "-" + d + rest == "-" + (d + rest);
    } else {
      PositiveNumber(d + rest, size, rest);
    }
  }
}
