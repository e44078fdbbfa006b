/** Name normalisation: upper-case, then the ASCII alphanumeric runs joined by single spaces. */
module Names {
  predicate IsLower(c: char) {
    'a' <= c <= 'z'
  }

  predicate IsAlnum(c: char) {
    'A' <= c <= 'Z' || IsLower(c) || '0' <= c <= '9'
  }

  predicate IsOther(c: char) {
    !IsAlnum(c)
  }

  predicate IsSpace(c: char) {
    c == ' ' || '\t' <= c <= '\r'
  }

  /** str.upper's mapping beyond ASCII, a parameter; no character upper-cases to an ASCII lower-case letter. */
  ghost predicate Upcases(ext: char -> string) {
    forall c, i :: 0 <= i < |ext(c)| ==> !IsLower(ext(c)[i])
  }

  function UpperChar(ext: char -> string, c: char): string {
    if IsLower(c) then [c - 'a' + 'A'] else if c < '\U{0080}' then [c] else ext(c)
  }

  function Upper(ext: char -> string, s: string): string {
    if s == "" then "" else UpperChar(ext, s[0]) + Upper(ext, s[1..])
  }

  /** re.sub of every maximal run of the class by one space; inRun says the previous character was in the class. */
  function Squash(inClass: char -> bool, s: string, inRun: bool): string {
    if s == "" then ""
    else if inClass(s[0]) then (if inRun then "" else " ") + Squash(inClass, s[1..], true)
    else [s[0]] + Squash(inClass, s[1..], false)
  }

  function StripLeft(s: string): string {
    if s != "" && IsSpace(s[0]) then StripLeft(s[1..]) else s
  }

  function StripRight(s: string): string {
    if s != "" && IsSpace(s[|s| - 1]) then StripRight(s[..|s| - 1]) else s
  }

  function Normalise(ext: char -> string, name: string): string {
    Squash(IsSpace, StripRight(StripLeft(Squash(IsOther, Upper(ext, name), false))), false)
  }

  /** The maximal alphanumeric runs. */
  function Words(s: string): seq<string> {
    if s == "" then []
    else
      var rest := Words(s[1..]);
      if !IsAlnum(s[0]) then rest
      else if rest != [] && IsAlnum(s[1]) then [[s[0]] + rest[0]] + rest[1..]
      else [[s[0]]] + rest
  }

  function Join(words: seq<string>): string {
    if words == [] then ""
    else if |words| == 1 then words[0]
    else words[0] + " " + Join(words[1..])
  }

  predicate IsWord(w: string) {
    w != "" && forall i :: 0 <= i < |w| ==> IsAlnum(w[i])
  }

  predicate AreWords(words: seq<string>) {
    forall i :: 0 <= i < |words| ==> IsWord(words[i])
  }

  lemma {:induction false} WordsAreWords(s: string)
    ensures AreWords(Words(s))
    ensures s != "" && IsAlnum(s[0]) ==> Words(s) != []
    ensures Words(s) == [] ==> forall i :: 0 <= i < |s| ==> !IsAlnum(s[i])
  {
    if s != "" {
      WordsAreWords(s[1..]);
    }
  }

  lemma {:induction false} JoinEnds(words: seq<string>)
    requires AreWords(words) && words != []
    ensures var s := Join(words); s != "" && IsAlnum(s[0]) && IsAlnum(s[|s| - 1])
  {
    assert IsWord(words[0]);
    if |words| > 1 {
      JoinEnds(words[1..]);
    }
  }

  function Lead(s: string, inRun: bool): string {
    if s != "" && !IsAlnum(s[0]) && !inRun then " " else ""
  }

  function Trail(s: string): string {
    if Words(s) != [] && !IsAlnum(s[|s| - 1]) then " " else ""
  }

  lemma JoinCons(c: char, words: seq<string>)
    requires words != []
    ensures Join([[c] + words[0]] + words[1..]) == [c] + Join(words)
    ensures Join([[c]] + words) == [c] + " " + Join(words)
  {
    assert ([[c] + words[0]] + words[1..])[1..] == words[1..];
    assert ([[c]] + words)[1..] == words;
  }

  lemma LastWord(s: string)
    requires s != "" && IsAlnum(s[0]) && Words(s[1..]) == []
    ensures Join(Words(s)) == [s[0]] && Trail(s) == Lead(s[1..], false)
  {
    WordsAreWords(s[1..]);
    assert Words(s) == [[s[0]]];
  }

  lemma JoinOfHead(s: string, words: seq<string>)
    requires s != "" && IsAlnum(s[0]) && Words(s[1..]) == words != []
    ensures Join(Words(s)) == [s[0]] + Lead(s[1..], false) + Join(words)
  {
    JoinCons(s[0], words);
    if IsAlnum(s[1]) {
      assert Words(s) == [[s[0]] + words[0]] + words[1..];
      assert [s[0]] + Lead(s[1..], false) == [s[0]];
    } else {
      assert Words(s) == [[s[0]]] + words;
    }
  }

  lemma Regroup(a: string, b: string, c: string, d: string)
    ensures a + (b + c + d) == a + b + c + d
  {
  }

  lemma TrailOfRest(s: string)
    requires s != "" && Words(s[1..]) != []
    ensures Trail(s) == Trail(s[1..])
  {
    assert s[1..][|s| - 2] == s[|s| - 1];
  }

  /** What the first substitution leaves: the joined words, with a space where other characters lead or trail. */
  lemma {:induction false} SquashShape(s: string, inRun: bool)
    ensures Squash(IsOther, s, inRun) == Lead(s, inRun) + Join(Words(s)) + Trail(s)
  {
    if s != "" {
      SquashShape(s[1..], !IsAlnum(s[0]));
      if !IsAlnum(s[0]) {
        assert Words(s) == Words(s[1..]) && Trail(s[1..]) == Trail(s);
      } else if Words(s[1..]) == [] {
        LastWord(s);
        assert Join(Words(s[1..])) == "" && Trail(s[1..]) == "" && Lead(s, inRun) == "";
      } else {
        TrailOfRest(s);
        JoinOfHead(s, Words(s[1..]));
        Regroup([s[0]], Lead(s[1..], false), Join(Words(s[1..])), Trail(s));
        assert Lead(s, inRun) + Join(Words(s)) == Join(Words(s));
      }
    }
  }

  lemma StripLeftShape(left: string, s: string)
    requires left == "" || left == " "
    requires s == "" || IsAlnum(s[0])
    ensures StripLeft(left + s) == s
  {
    assert StripLeft(s) == s;
    if left == " " {
      assert (left + s)[1..] == s;
    } else {
      assert left + s == s;
    }
  }

  lemma StripRightShape(s: string, right: string)
    requires right == "" || right == " "
    requires s == "" || IsAlnum(s[|s| - 1])
    ensures StripRight(s + right) == s
  {
    assert StripRight(s) == s;
    if right == " " {
      assert (s + right)[..|s|] == s;
    } else {
      assert s + right == s;
    }
  }

  /** The second substitution finds no run of two spaces. */
  lemma {:induction false} SquashWord(w: string, rest: string)
    requires forall i :: 0 <= i < |w| ==> IsAlnum(w[i])
    ensures Squash(IsSpace, w + rest, false) == w + Squash(IsSpace, rest, false)
  {
    if w == "" {
      assert w + rest == rest;
    } else {
      assert (w + rest)[1..] == w[1..] + rest;
      SquashWord(w[1..], rest);
    }
  }

  lemma {:induction false} SquashJoined(words: seq<string>)
    requires AreWords(words)
    ensures Squash(IsSpace, Join(words), false) == Join(words)
  {
    if words != [] {
      assert IsWord(words[0]);
      if |words| == 1 {
        SquashWord(words[0], "");
        assert words[0] + "" == words[0];
      } else {
        var rest := Join(words[1..]);
        SquashJoined(words[1..]);
        JoinEnds(words[1..]);
        SquashWord(words[0], " " + rest);
        assert words[0] + " " + rest == words[0] + (" " + rest);
        assert (" " + rest)[1..] == rest;
        assert Squash(IsSpace, rest, true) == Squash(IsSpace, rest, false);
      }
    }
  }

  /** RESULT: the three regular-expression steps compute the words of the upper-cased name, joined by one space. */
  lemma NormaliseIsWords(ext: char -> string, name: string)
    ensures Normalise(ext, name) == Join(Words(Upper(ext, name)))
  {
    var u := Upper(ext, name);
    var words := Words(u);
    SquashShape(u, false);
    WordsAreWords(u);
    if words != [] {
      JoinEnds(words);
    }
    var joined, trail := Join(words), Trail(u);
    assert Lead(u, false) + joined + trail == Lead(u, false) + (joined + trail);
    StripLeftShape(Lead(u, false), joined + trail);
    StripRightShape(joined, trail);
    SquashJoined(words);
  }

  lemma {:induction false} WordsAfterWord(w: string, rest: string)
    requires IsWord(w) && (rest == "" || !IsAlnum(rest[0]))
    ensures Words(w + rest) == [w] + Words(rest)
  {
    assert (w + rest)[1..] == w[1..] + rest;
    if |w| == 1 {
      assert w[1..] + rest == rest && [w[0]] == w;
    } else {
      WordsAfterWord(w[1..], rest);
      assert [w[0]] + w[1..] == w;
      assert (w + rest)[1] == w[1] && IsAlnum(w[1]);
    }
  }

  lemma {:induction false} WordsOfJoin(words: seq<string>)
    requires AreWords(words)
    ensures Words(Join(words)) == words
  {
    if words != [] {
      assert IsWord(words[0]);
      if |words| == 1 {
        WordsAfterWord(words[0], "");
        assert words[0] + "" == words[0];
      } else {
        var rest := " " + Join(words[1..]);
        WordsOfJoin(words[1..]);
        assert rest[1..] == Join(words[1..]);
        WordsAfterWord(words[0], rest);
        assert Join(words) == words[0] + rest;
      }
    }
  }

  /** RESULT: two names normalise alike exactly when their upper-cased alphanumeric runs are the same. */
  lemma SameNormalForm(ext: char -> string, a: string, b: string)
    ensures Normalise(ext, a) == Normalise(ext, b) <==> Words(Upper(ext, a)) == Words(Upper(ext, b))
    ensures Normalise(ext, a) == "" <==> Words(Upper(ext, a)) == []
  {
    NormaliseIsWords(ext, a);
    NormaliseIsWords(ext, b);
    WordsAreWords(Upper(ext, a));
    WordsAreWords(Upper(ext, b));
    WordsOfJoin(Words(Upper(ext, a)));
    WordsOfJoin(Words(Upper(ext, b)));
  }

  predicate Plain(s: string) {
    forall i :: 0 <= i < |s| ==> s[i] == ' ' || (IsAlnum(s[i]) && !IsLower(s[i]))
  }

  lemma {:induction false} UpperOfPlain(ext: char -> string, s: string)
    requires Plain(s)
    ensures Upper(ext, s) == s
  {
    if s != "" {
      UpperOfPlain(ext, s[1..]);
      assert [s[0]] + s[1..] == s;
    }
  }

  lemma {:induction false} UpperHasNoLower(ext: char -> string, s: string)
    requires Upcases(ext)
    ensures forall i :: 0 <= i < |Upper(ext, s)| ==> !IsLower(Upper(ext, s)[i])
  {
    if s != "" {
      UpperHasNoLower(ext, s[1..]);
      var head := UpperChar(ext, s[0]);
      assert forall i :: 0 <= i < |head| ==> !IsLower(head[i]);
    }
  }

  lemma {:induction false} WordsArePlain(s: string)
    requires forall i :: 0 <= i < |s| ==> !IsLower(s[i])
    ensures Plain(Join(Words(s)))
  {
    if s != "" {
      WordsArePlain(s[1..]);
      if IsAlnum(s[0]) && Words(s[1..]) != [] {
        JoinOfHead(s, Words(s[1..]));
      } else if IsAlnum(s[0]) {
        LastWord(s);
      }
    }
  }

  /** RESULT: normalising is idempotent. */
  lemma NormaliseIdempotent(ext: char -> string, name: string)
    requires Upcases(ext)
    ensures Normalise(ext, Normalise(ext, name)) == Normalise(ext, name)
  {
    var u := Upper(ext, name);
    NormaliseIsWords(ext, name);
    UpperHasNoLower(ext, name);
    WordsArePlain(u);
    UpperOfPlain(ext, Join(Words(u)));
    NormaliseIsWords(ext, Normalise(ext, name));
    WordsAreWords(u);
    WordsOfJoin(Words(u));
  }

  // ----- the normal form, character by character -----

  /** The ASCII letters and digits of a text, in order. */
  function Spelled(s: string): string {
    if s == "" then ""
    else if 'A' <= s[0] <= 'Z' || 'a' <= s[0] <= 'z' || '0' <= s[0] <= '9' then [s[0]] + Spelled(s[1..])
    else Spelled(s[1..])
  }

  lemma SpelledCons(c: char, s: string)
    ensures Spelled([c] + s) == (if IsAlnum(c) then [c] else "") + Spelled(s)
  {
    assert ([c] + s)[1..] == s;
  }

  lemma {:induction false} WordsSpell(s: string)
    ensures Spelled(Join(Words(s))) == Spelled(s)
  {
    if s != "" {
      var rest := Words(s[1..]);
      WordsSpell(s[1..]);
      if IsAlnum(s[0]) && rest != [] {
        JoinOfHead(s, rest);
        assert [s[0]] + Lead(s[1..], false) + Join(rest) == [s[0]] + (Lead(s[1..], false) + Join(rest));
        SpelledCons(s[0], Lead(s[1..], false) + Join(rest));
        if Lead(s[1..], false) == " " {
          SpelledCons(' ', Join(rest));
        } else {
          assert "" + Join(rest) == Join(rest);
        }
      } else if IsAlnum(s[0]) {
        LastWord(s);
        assert Spelled([s[0]]) == [s[0]];
      }
    }
  }

  predicate SingleSpaced(s: string) {
    && (s != "" ==> s[0] != ' ' && s[|s| - 1] != ' ')
    && (forall i :: 0 <= i < |s| - 1 ==> s[i] != ' ' || s[i + 1] != ' ')
  }

  lemma {:induction false} JoinSingleSpaced(words: seq<string>)
    requires AreWords(words)
    ensures SingleSpaced(Join(words))
  {
    if words != [] {
      assert IsWord(words[0]);
      if |words| > 1 {
        JoinSingleSpaced(words[1..]);
        JoinEnds(words[1..]);
        assert Join(words) == words[0] + " " + Join(words[1..]);
      }
    }
  }

  /** RESULT: the normal form has upper-case ASCII letters, digits and single inner spaces, and spells exactly the
      letters and digits of the upper-cased name. */
  lemma NormalCharacters(ext: char -> string, name: string)
    requires Upcases(ext)
    ensures
      var s := Normalise(ext, name);
      && (forall i :: 0 <= i < |s| ==> 'A' <= s[i] <= 'Z' || '0' <= s[i] <= '9' || s[i] == ' ')
      && SingleSpaced(s) && Spelled(s) == Spelled(Upper(ext, name))
  {
    var u := Upper(ext, name);
    NormaliseIsWords(ext, name);
    UpperHasNoLower(ext, name);
    WordsArePlain(u);
    WordsSpell(u);
    WordsAreWords(u);
    JoinSingleSpaced(Words(u));
  }

  /** On ASCII text upper-casing moves 'a' to 'z' down by 32 and nothing else. */
  lemma {:induction false} UpperOfAscii(ext: char -> string, s: string)
    requires forall i :: 0 <= i < |s| ==> s[i] < '\U{0080}'
    ensures |Upper(ext, s)| == |s|
    ensures forall i :: 0 <= i < |s| ==>
      Upper(ext, s)[i] as int == s[i] as int - (if 97 <= s[i] as int <= 122 then 32 else 0)
  {
    if s != "" {
      UpperOfAscii(ext, s[1..]);
    }
  }

  lemma {:induction false} UpperAppend(ext: char -> string, a: string, b: string)
    ensures Upper(ext, a + b) == Upper(ext, a) + Upper(ext, b)
  {
    if a == "" {
      assert a + b == b;
    } else {
      assert (a + b)[1..] == a[1..] + b;
      UpperAppend(ext, a[1..], b);
    }
  }

  lemma {:induction false} WordsSplit(u: string, c: char, v: string)
    requires !IsAlnum(c)
    ensures Words(u + [c] + v) == Words(u) + Words(v)
  {
    var s := u + [c] + v;
    if u == "" {
      assert s[0] == c && s[1..] == v;
    } else {
      assert s[1..] == u[1..] + [c] + v && s[1] == (if |u| > 1 then u[1] else c);
      WordsSplit(u[1..], c, v);
      WordsAreWords(u[1..]);
      if IsAlnum(u[0]) && |u| > 1 && IsAlnum(u[1]) {
        assert Words(u[1..]) != [];
      }
    }
  }

  lemma {:induction false} JoinAppend(x: seq<string>, y: seq<string>)
    ensures Join(x + y) ==
      if x == [] then Join(y) else if y == [] then Join(x) else Join(x) + " " + Join(y)
  {
    if x == [] {
      assert x + y == y;
    } else if y == [] {
      assert x + y == x;
    } else {
      assert (x + y)[1..] == x[1..] + y;
      JoinAppend(x[1..], y);
    }
  }

  /** RESULT: any ASCII character but a letter or digit separates: what is on its two sides is normalised on its own and
      joined by one space, if there is anything on both. */
  lemma Separates(ext: char -> string, a: string, c: char, b: string)
    requires c < '\U{0080}' && !('A' <= c <= 'Z' || 'a' <= c <= 'z' || '0' <= c <= '9')
    ensures
      var x, y := Normalise(ext, a), Normalise(ext, b);
      Normalise(ext, a + [c] + b) == if x == "" then y else if y == "" then x else x + " " + y
  {
    var u, v := Upper(ext, a), Upper(ext, b);
    UpperAppend(ext, a + [c], b);
    UpperAppend(ext, a, [c]);
    assert Upper(ext, [c]) == [c];
    WordsSplit(u, c, v);
    JoinAppend(Words(u), Words(v));
    NormaliseIsWords(ext, a);
    NormaliseIsWords(ext, b);
    NormaliseIsWords(ext, a + [c] + b);
    SameNormalForm(ext, a, a);
    SameNormalForm(ext, b, b);
  }

  /** RESULT: and letters and digits hold together: a name of nothing else is only upper-cased. */
  lemma HoldsTogether(ext: char -> string, w: string)
    requires forall i :: 0 <= i < |w| ==> 'A' <= w[i] <= 'Z' || 'a' <= w[i] <= 'z' || '0' <= w[i] <= '9'
    ensures Normalise(ext, w) == Upper(ext, w)
  {
    var u := Upper(ext, w);
    UpperOfAscii(ext, w);
    NormaliseIsWords(ext, w);
    forall i | 0 <= i < |u| ensures IsAlnum(u[i]) {
      assert u[i] as int == w[i] as int - (if 97 <= w[i] as int <= 122 then 32 else 0);
    }
    if u != "" {
      WordsAfterWord(u, "");
      assert u + "" == u;
    }
  }

  method NormalisedNameSet(ext: char -> string, names: seq<string>) returns (out: set<string>)
    ensures forall n :: n in out <==> n != "" && exists i :: 0 <= i < |names| && n == Normalise(ext, names[i])
  {
    out := {};
    for k := 0 to |names|
      invariant forall n :: n in out <==> n != "" && exists i :: 0 <= i < k && n == Normalise(ext, names[i])
    {
      var normalised := Normalise(ext, names[k]);
      if normalised != "" {
        out := out + {normalised};
      }
    }
  }
}
