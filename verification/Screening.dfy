/** Screening one subject name against the sanctions name sets. */
module Screening {
  import opened Options
  import opened Rounding
  import opened Text
  import Names

  /** One entry of the name-sets dict; a list of them is the dict in its insertion order. */
  datatype Source = Source(name: string, names: set<string>)

  datatype Decision = Allow | Review | Block

  datatype MatchKind = ExactNormalizedName | FuzzyNameTrigram | NoName

  /** The match_type text: its stem, and whether "+needs_disambiguation" is appended. */
  datatype MatchType = MatchType(kind: MatchKind, needsDisambiguation: bool)

  datatype Reason =
    | SanctionsExactNameMatch | SanctionsFuzzyNameMatch | NoMatch
    | SubjectCountryProvided | SubjectDobProvided
    | NeedsDobCountryDisambiguation | DisambiguationAttributesPresent

  datatype ScreeningResult = ScreeningResult(
    decision: Decision, hits: seq<string>, nameNorm: string, matchType: MatchType, score: int, reasonCodes: seq<Reason>)

  function Trigram(padded: string, i: nat): string
    requires i + 3 <= |padded|
  {
    padded[i..i + 3]
  }

  function Trigrams(s: string): set<string> {
    var padded := " " + s + " ";
    set i | 0 <= i < |padded| - 2 :: Trigram(padded, i)
  }

  function Jaccard(a: string, b: string): real {
    var ta, tb := Trigrams(a), Trigrams(b);
    if ta == {} && tb == {} then 1.0
    else if |ta + tb| == 0 then 0.0
    else |ta * tb| as real / |ta + tb| as real
  }

  function Likeness(n: string): string -> real {
    c => Jaccard(n, c)
  }

  function Hits(n: string, sources: seq<Source>): seq<string> {
    if sources == [] then []
    else (if n in sources[0].names then [sources[0].name] else []) + Hits(n, sources[1..])
  }

  predicate Listed(n: string, sources: seq<Source>) {
    exists i :: 0 <= i < |sources| && n in sources[i].names
  }

  ghost predicate AllAtMost(like: string -> real, names: set<string>, sim: real) {
    forall c :: c in names ==> like(c) <= sim
  }

  ghost predicate AllBelow(like: string -> real, names: set<string>, sim: real) {
    forall c :: c in names ==> like(c) < sim
  }

  ghost predicate Attained(like: string -> real, names: set<string>, sim: real) {
    exists c :: c in names && like(c) == sim
  }

  /** The best match once sources[..k] and the candidates seen of source k have been compared. */
  ghost predicate BestSoFar(like: string -> real, sources: seq<Source>, k: nat, seen: set<string>, sim: real,
        src: Option<nat>) {
    && k <= |sources|
    && AllAtMost(like, seen, sim)
    && (forall i :: 0 <= i < k ==> AllAtMost(like, sources[i].names, sim))
    && (if src.None? then sim == 0.0
        else
          && sim > 0.0 && src.value < |sources|
          && Attained(like, sources[src.value].names, sim)
          && (forall i :: 0 <= i < src.value ==> AllBelow(like, sources[i].names, sim)))
  }

  /** sim is the greatest similarity, and src the first source in dict order that attains it, if positive. */
  ghost predicate IsBest(like: string -> real, sources: seq<Source>, sim: real, src: Option<nat>) {
    BestSoFar(like, sources, |sources|, {}, sim, src)
  }

  function ExactMatch(n: string, sources: seq<Source>): ScreeningResult {
    ScreeningResult(Block, Sort(Hits(n, sources)), n, MatchType(ExactNormalizedName, false), 100,
        [SanctionsExactNameMatch])
  }

  function FuzzyMatch(n: string, sources: seq<Source>, sim: real, src: Option<nat>): ScreeningResult
    requires src.Some? ==> src.value < |sources|
  {
    var score := RoundHalfEven(sim * 100.0);
    if src.Some? && score >= 90 then
      ScreeningResult(Review, [sources[src.value].name], n, MatchType(FuzzyNameTrigram, false), score,
          [SanctionsFuzzyNameMatch])
    else
      ScreeningResult(Allow, [], n, MatchType(NoName, false), score, [NoMatch])
  }

  predicate Given(attribute: Option<string>) {
    attribute.Some? && attribute.value != ""
  }

  function Clamp(n: int): int {
    if n < 0 then 0 else if n > 100 then 100 else n
  }

  function WhenGiven(attribute: Option<string>, code: Reason): seq<Reason> {
    if Given(attribute) then [code] else []
  }

  function Penalty(country: Option<string>, dob: Option<string>): int {
    (if Given(country) then 5 else 0) + (if Given(dob) then 5 else 0)
  }

  /** The table applied to a name hit: supplied attributes turn a block into a review and lower the score. */
  function Disambiguated(m: ScreeningResult, country: Option<string>, dob: Option<string>): ScreeningResult {
    if m.decision == Allow then m
    else
      var noted := m.(reasonCodes := m.reasonCodes
        + WhenGiven(country, SubjectCountryProvided) + WhenGiven(dob, SubjectDobProvided));
      if !Given(country) && !Given(dob) then noted
      else
        var held := if m.decision == Review then noted else noted.(
          decision := Review,
          matchType := m.matchType.(needsDisambiguation := true),
          score := if m.score < 85 then m.score else 85,
          reasonCodes := noted.reasonCodes + [NeedsDobCountryDisambiguation]);
        held.(score := Clamp(held.score - Penalty(country, dob)),
              reasonCodes := held.reasonCodes + [DisambiguationAttributesPresent])
  }

  ghost predicate BestFound(n: string, sources: seq<Source>, m: ScreeningResult) {
    exists sim, src :: IsBest(Likeness(n), sources, sim, src) && m == FuzzyMatch(n, sources, sim, src)
  }

  /** What the name alone may yield; nothing here mentions the order in which a name set is iterated. */
  ghost predicate Matches(n: string, sources: seq<Source>, m: ScreeningResult) {
    if Listed(n, sources) then m == ExactMatch(n, sources) else BestFound(n, sources, m)
  }

  ghost predicate Screens(n: string, sources: seq<Source>, country: Option<string>, dob: Option<string>,
        r: ScreeningResult) {
    exists m :: Matches(n, sources, m) && r == Disambiguated(m, country, dob)
  }

  predicate IsHit(n: string, sources: seq<Source>, name: string) {
    exists i :: 0 <= i < |sources| && n in sources[i].names && sources[i].name == name
  }

  lemma {:induction false} HitsMembers(n: string, sources: seq<Source>)
    ensures Listed(n, sources) <==> Hits(n, sources) != []
    ensures forall s :: s in Hits(n, sources) <==> IsHit(n, sources, s)
  {
    if sources != [] {
      HitsMembers(n, sources[1..]);
      forall s ensures s in Hits(n, sources) <==> IsHit(n, sources, s) {
        if s in Hits(n, sources[1..]) {
          var i :| 0 <= i < |sources[1..]| && n in sources[1..][i].names && sources[1..][i].name == s;
          assert sources[i + 1] == sources[1..][i];
        }
        if i :| 0 < i < |sources| && n in sources[i].names && sources[i].name == s {
          assert sources[1..][i - 1] == sources[i];
        }
      }
      if Listed(n, sources) {
        var i :| 0 <= i < |sources| && n in sources[i].names;
        assert sources[i].name in Hits(n, sources);
      }
      if Hits(n, sources) != [] {
        assert Hits(n, sources)[0] in Hits(n, sources);
      }
    }
  }

  /** The nested loop: each set is visited in an arbitrary order. */
  method BestMatch(like: string -> real, sources: seq<Source>) returns (sim: real, src: Option<nat>)
    ensures IsBest(like, sources, sim, src)
  {
    sim, src := 0.0, None;
    for k := 0 to |sources|
      invariant BestSoFar(like, sources, k, {}, sim, src)
      invariant src.Some? ==> src.value < k
    {
      var rest := sources[k].names;
      while rest != {}
        invariant rest <= sources[k].names
        invariant BestSoFar(like, sources, k, sources[k].names - rest, sim, src)
        invariant src.Some? ==> src.value <= k
        decreases |rest|
      {
        var cand := Pick(rest);
        if like(cand) > sim {
          sim, src := like(cand), Some(k);
          assert Attained(like, sources[k].names, sim);
        }
        rest := rest - {cand};
      }
      assert sources[k].names - rest == sources[k].names;
    }
  }

  method MatchName(n: string, sources: seq<Source>) returns (m: ScreeningResult)
    ensures Matches(n, sources, m)
  {
    HitsMembers(n, sources);
    if Hits(n, sources) != [] {
      return ScreeningResult(
        Block, Sort(Hits(n, sources)), n, MatchType(ExactNormalizedName, false), 100, [SanctionsExactNameMatch]);
    }
    var sim, src := BestMatch(Likeness(n), sources);
    var score := RoundHalfEven(sim * 100.0);
    if src.Some? && score >= 90 {
      m := ScreeningResult(
        Review, [sources[src.value].name], n, MatchType(FuzzyNameTrigram, false), score, [SanctionsFuzzyNameMatch]);
    } else {
      m := ScreeningResult(Allow, [], n, MatchType(NoName, false), score, [NoMatch]);
    }
    assert m == FuzzyMatch(n, sources, sim, src);
  }

  method ApplyAttributes(m: ScreeningResult, country: Option<string>, dob: Option<string>) returns (r: ScreeningResult)
    ensures r == Disambiguated(m, country, dob)
  {
    r := m;
    if r.decision == Block || r.decision == Review {
      if Given(country) {
        r := r.(reasonCodes := r.reasonCodes + [SubjectCountryProvided]);
      }
      if Given(dob) {
        r := r.(reasonCodes := r.reasonCodes + [SubjectDobProvided]);
      }
      assert r.reasonCodes == m.reasonCodes + WhenGiven(country, SubjectCountryProvided)
          + WhenGiven(dob, SubjectDobProvided);
      if r.decision == Block && (Given(country) || Given(dob)) {
        r := r.(decision := Review, matchType := r.matchType.(needsDisambiguation := true),
                score := if r.score < 85 then r.score else 85,
                reasonCodes := r.reasonCodes + [NeedsDobCountryDisambiguation]);
      }
      if r.decision == Review && (Given(country) || Given(dob)) {
        r := r.(score := Clamp(r.score - Penalty(country, dob)),
                reasonCodes := r.reasonCodes + [DisambiguationAttributesPresent]);
      }
    }
  }

  method ScreenSubjectName(ext: char -> string, subject: string, sources: seq<Source>, country: Option<string>,
        dob: Option<string>)
    returns (r: ScreeningResult)
    ensures Screens(Names.Normalise(ext, subject), sources, country, dob, r)
  {
    var m := MatchName(Names.Normalise(ext, subject), sources);
    r := ApplyAttributes(m, country, dob);
  }

  lemma JaccardRange(a: string, b: string)
    ensures 0.0 <= Jaccard(a, b) <= 1.0
  {
    var ta, tb := Trigrams(a), Trigrams(b);
    SubsetSize(ta * tb, ta + tb);
    if |ta + tb| > 0 {
      RatioRange(|ta * tb|, |ta + tb|);
    }
  }

  lemma RatioRange(p: nat, q: nat)
    requires p <= q && q > 0
    ensures 0.0 <= p as real / q as real <= 1.0
    ensures p == q ==> p as real / q as real == 1.0
    ensures p < q ==> p as real / q as real < 1.0
  {
  }

  // ----- similarity, told by the three-character windows of the padded names -----

  ghost predicate Window(s: string, t: string) {
    |t| == 3 && exists before, after :: " " + s + " " == before + t + after
  }

  ghost predicate AreWindows(s: string, windows: set<string>) {
    forall t :: t in windows <==> Window(s, t)
  }

  lemma TrigramsAreWindows(s: string)
    ensures AreWindows(s, Trigrams(s))
  {
    var padded := " " + s + " ";
    forall t ensures t in Trigrams(s) <==> Window(s, t) {
      if t in Trigrams(s) {
        var i :| 0 <= i < |padded| - 2 && t == Trigram(padded, i);
        assert padded == padded[..i] + t + padded[i + 3..];
      }
      if Window(s, t) {
        var before, after :| padded == before + t + after;
        assert Trigram(padded, |before|) == t;
      }
    }
  }

  lemma WindowsUnique(s: string, a: set<string>, b: set<string>)
    requires AreWindows(s, a) && AreWindows(s, b)
    ensures a == b
  {
  }

  lemma QuotientTimes(x: real, y: real, r: real)
    requires y > 0.0 && r == x / y
    ensures r * y == x
  {
  }

  lemma QuotientFacts(x: real, y: real, r: real)
    requires y > 0.0 && r == x / y
    ensures r >= 0.895 <==> x >= 0.895 * y
    ensures r == 0.0 <==> x == 0.0
    ensures r == 1.0 <==> x == y
  {
    assert r * y == x by {
      QuotientTimes(x, y, r);
    }
    AtLeast(r, 0.895, y, x, 0.895 * y);
    AtLeast(r, 0.0, y, x, 0.0);
    AtLeast(r, 1.0, y, x, y);
  }

  lemma AtLeast(r: real, t: real, y: real, x: real, z: real)
    requires y > 0.0 && x == r * y && z == t * y
    ensures (r >= t <==> x >= z) && (r == t <==> x == z)
  {
    AtLeastTimes(r, t, y);
  }

  lemma AtLeastTimes(r: real, t: real, y: real)
    requires y > 0.0
    ensures r >= t <==> r * y >= t * y
    ensures r == t <==> r * y == t * y
  {
    if r > t {
      PositiveProduct(r, t, y);
    } else if r < t {
      PositiveProduct(t, r, y);
    }
  }

  lemma PositiveProduct(r: real, t: real, y: real)
    requires r > t && y > 0.0
    ensures r * y > t * y
  {
    var d := r - t;
    assert d * y > 0.0;
    assert r * y == (t + d) * y == t * y + d * y;
  }

  lemma Thousandths(p: nat, q: nat)
    ensures p as real >= 0.895 * q as real <==> 1000 * p >= 895 * q
  {
  }

  lemma RatioIs(p: nat, q: nat, r: real)
    requires q > 0 && r == p as real / q as real
    ensures r * q as real == p as real
    ensures r >= 0.895 <==> 1000 * p >= 895 * q
    ensures r == 0.0 <==> p == 0
    ensures r == 1.0 <==> p == q
  {
    QuotientTimes(p as real, q as real, r);
    QuotientFacts(p as real, q as real, r);
    Thousandths(p, q);
  }

  /** The similarity of names with these windows. */
  lemma JaccardOf(a: string, b: string, wa: set<string>, wb: set<string>)
    requires AreWindows(a, wa) && AreWindows(b, wb)
    ensures Jaccard(a, b) == if wa + wb == {} then 1.0 else |wa * wb| as real / |wa + wb| as real
  {
    TrigramsAreWindows(a);
    TrigramsAreWindows(b);
    WindowsUnique(a, wa, Trigrams(a));
    WindowsUnique(b, wb, Trigrams(b));
  }

  /** Similarity is the share of common windows among all windows of both names, and 1 when neither has any. */
  lemma SimilarityIs(a: string, b: string, wa: set<string>, wb: set<string>)
    requires AreWindows(a, wa) && AreWindows(b, wb)
    ensures if wa + wb == {} then Jaccard(a, b) == 1.0
            else Jaccard(a, b) * |wa + wb| as real == |wa * wb| as real
    ensures Jaccard(a, b) >= 0.895 <==> 1000 * |wa * wb| >= 895 * |wa + wb|
  {
    JaccardOf(a, b, wa, wb);
    var sim, common, all := Jaccard(a, b), |wa * wb|, |wa + wb|;
    if wa + wb != {} {
      RatioIs(common, all, sim);
    }
  }

  lemma ShareOfAll(wa: set<string>, wb: set<string>)
    ensures |wa * wb| == |wa + wb| <==> wa == wb
  {
    SubsetSize(wa * wb, wa + wb);
    if |wa * wb| == |wa + wb| {
      assert wa <= wa * wb && wb <= wa * wb;
    }
    assert wa == wb ==> wa * wb == wa + wb;
  }

  /** Similarity is symmetric, 1 exactly between names with the same windows, and 0 exactly when there are windows and
      none is shared. */
  lemma SimilarityOne(a: string, b: string)
    ensures Jaccard(a, b) == Jaccard(b, a)
    ensures Jaccard(a, b) == 1.0 <==> forall t :: Window(a, t) <==> Window(b, t)
    ensures Jaccard(a, b) == 0.0 <==>
      (exists t :: Window(a, t) || Window(b, t)) && forall t :: !(Window(a, t) && Window(b, t))
  {
    var wa, wb := Trigrams(a), Trigrams(b);
    TrigramsAreWindows(a);
    TrigramsAreWindows(b);
    var sim, common, all := Jaccard(a, b), |wa * wb|, |wa + wb|;
    JaccardOf(a, b, wa, wb);
    JaccardOf(b, a, wb, wa);
    assert wa * wb == wb * wa && wa + wb == wb + wa;
    if wa + wb != {} {
      RatioIs(common, all, sim);
    }
    ShareOfAll(wa, wb);
    SharedWindows(a, b, wa, wb);
  }

  lemma SharedWindows(a: string, b: string, wa: set<string>, wb: set<string>)
    requires AreWindows(a, wa) && AreWindows(b, wb)
    ensures wa == wb <==> forall t :: Window(a, t) <==> Window(b, t)
    ensures wa + wb != {} <==> exists t :: Window(a, t) || Window(b, t)
    ensures wa * wb == {} <==> forall t :: !(Window(a, t) && Window(b, t))
  {
    if wa + wb != {} {
      var t :| t in wa + wb;
      assert Window(a, t) || Window(b, t);
    }
    forall t | wa * wb == {} ensures !(Window(a, t) && Window(b, t)) {
      assert t !in wa * wb;
    }
    if wa * wb != {} {
      var t :| t in wa * wb;
      assert Window(a, t) && Window(b, t);
    }
  }

  /** At least 895 of every 1000 windows of the two names are common. */
  ghost predicate Alike(a: string, b: string) {
    exists wa, wb :: AreWindows(a, wa) && AreWindows(b, wb) && 1000 * |wa * wb| >= 895 * |wa + wb|
  }

  lemma AlikeIff(a: string, b: string)
    ensures Alike(a, b) <==> Jaccard(a, b) >= 0.895
  {
    TrigramsAreWindows(a);
    TrigramsAreWindows(b);
    SimilarityIs(a, b, Trigrams(a), Trigrams(b));
    if Alike(a, b) {
      var wa, wb :| AreWindows(a, wa) && AreWindows(b, wb) && 1000 * |wa * wb| >= 895 * |wa + wb|;
      SimilarityIs(a, b, wa, wb);
    }
  }

  /** Everything listed here is listed there. */
  predicate Within(sources: seq<Source>, larger: seq<Source>) {
    forall i, c :: 0 <= i < |sources| && c in sources[i].names ==> exists j :: 0 <= j < |larger| && c in larger[j].names
  }

  lemma BestAtMost(like: string -> real, sources: seq<Source>, sim: real, src: Option<nat>, larger: seq<Source>,
        sim': real, src': Option<nat>)
    requires Within(sources, larger)
    requires IsBest(like, sources, sim, src) && IsBest(like, larger, sim', src')
    ensures sim <= sim'
  {
    if src.Some? {
      var c :| c in sources[src.value].names && like(c) == sim;
      var j :| 0 <= j < |larger| && c in larger[j].names;
      assert AllAtMost(like, larger[j].names, sim');
    }
  }

  lemma BestUnique(like: string -> real, sources: seq<Source>, sim: real, src: Option<nat>, sim': real,
        src': Option<nat>)
    requires IsBest(like, sources, sim, src) && IsBest(like, sources, sim', src')
    ensures sim == sim' && src == src'
  {
    BestAtMost(like, sources, sim, src, sources, sim', src');
    BestAtMost(like, sources, sim', src', sources, sim, src);
  }

  lemma MatchUnique(n: string, sources: seq<Source>, m: ScreeningResult, m': ScreeningResult)
    requires Matches(n, sources, m) && Matches(n, sources, m')
    ensures m == m'
  {
    if !Listed(n, sources) {
      var sim, src :| IsBest(Likeness(n), sources, sim, src) && m == FuzzyMatch(n, sources, sim, src);
      var sim', src' :| IsBest(Likeness(n), sources, sim', src') && m' == FuzzyMatch(n, sources, sim', src');
      BestUnique(Likeness(n), sources, sim, src, sim', src');
    }
  }

  /** RESULT: the outcome is a function of the name, the sets and the attributes, whatever order the sets iterate in. */
  lemma Deterministic(n: string, sources: seq<Source>, country: Option<string>, dob: Option<string>,
        r: ScreeningResult, r': ScreeningResult)
    requires Screens(n, sources, country, dob, r) && Screens(n, sources, country, dob, r')
    ensures r == r'
  {
    var m :| Matches(n, sources, m) && r == Disambiguated(m, country, dob);
    var m' :| Matches(n, sources, m') && r' == Disambiguated(m', country, dob);
    MatchUnique(n, sources, m, m');
  }

  /** A candidate at least 89.5 % similar, which round-half-even takes to a score of 90. */
  ghost predicate Close(n: string, sources: seq<Source>) {
    exists i, c :: 0 <= i < |sources| && c in sources[i].names && Alike(n, c)
  }

  lemma ScoreThreshold(sim: real)
    ensures RoundHalfEven(sim * 100.0) >= 90 <==> sim >= 0.895
  {
    var x := sim * 100.0;
    RoundNear(x);
    if x >= 89.5 {
      RoundMonotone(89.5, x);
      assert (89.5).Floor == 89;
    }
  }

  lemma BestIsClose(n: string, sources: seq<Source>, sim: real, src: Option<nat>)
    requires IsBest(Likeness(n), sources, sim, src)
    ensures Close(n, sources) <==> src.Some? && RoundHalfEven(sim * 100.0) >= 90
    ensures 0.0 <= sim <= 1.0 && 0 <= RoundHalfEven(sim * 100.0) <= 100
  {
    ScoreThreshold(sim);
    if src.Some? {
      var c :| c in sources[src.value].names && Likeness(n)(c) == sim;
      JaccardRange(n, c);
      AlikeIff(n, c);
    }
    RoundMonotone(0.0, sim * 100.0);
    RoundMonotone(sim * 100.0, 100.0);
    if Close(n, sources) {
      var i, c :| 0 <= i < |sources| && c in sources[i].names && Alike(n, c);
      AlikeIff(n, c);
      assert AllAtMost(Likeness(n), sources[i].names, sim) && Likeness(n)(c) == Jaccard(n, c);
    }
  }

  lemma MatchIff(n: string, sources: seq<Source>, m: ScreeningResult)
    requires Matches(n, sources, m)
    ensures m.decision == Block <==> Listed(n, sources)
    ensures m.decision == Allow <==> !Listed(n, sources) && !Close(n, sources)
    ensures 0 <= m.score <= 100 && (m.decision == Block ==> m.score == 100) && (m.decision == Review ==> m.score >= 90)
    ensures m.hits == [] <==> m.decision == Allow
  {
    HitsMembers(n, sources);
    if Listed(n, sources) {
      assert Hits(n, sources)[0] in Sort(Hits(n, sources));
    } else {
      var sim, src :| IsBest(Likeness(n), sources, sim, src) && m == FuzzyMatch(n, sources, sim, src);
      BestIsClose(n, sources, sim, src);
    }
  }

  predicate Supplied(attribute: Option<string>) {
    attribute != None && attribute != Some("")
  }

  /** What the attributes do to the verdict on the name alone. */
  lemma AttributesIff(m: ScreeningResult, country: Option<string>, dob: Option<string>)
    requires 0 <= m.score <= 100 && (m.decision == Block ==> m.score == 100) && (m.decision == Review ==> m.score >= 90)
    ensures
      var r := Disambiguated(m, country, dob);
      && r.decision == (if m.decision == Block && (Supplied(country) || Supplied(dob)) then Review else m.decision)
      && r.hits == m.hits && r.nameNorm == m.nameNorm
      && r.score == (if m.decision == Allow || !(Supplied(country) || Supplied(dob)) then m.score
                     else (if m.decision == Block then 85 else m.score)
                          - (if Supplied(country) then 5 else 0) - (if Supplied(dob) then 5 else 0))
      && 0 <= r.score <= 100
  {
  }

  /** RESULT: exactly when a screening allows, reviews or blocks, and the scores it reports. */
  lemma DecisionIff(n: string, sources: seq<Source>, country: Option<string>, dob: Option<string>, r: ScreeningResult)
    requires Screens(n, sources, country, dob, r)
    ensures r.decision == Block <==> Listed(n, sources) && !Supplied(country) && !Supplied(dob)
    ensures r.decision == Allow <==> !Listed(n, sources) && !Close(n, sources)
    ensures Listed(n, sources) && Supplied(country) && Supplied(dob) ==> r.score == 75
    ensures Listed(n, sources) && (Supplied(country) != Supplied(dob)) ==> r.score == 80
    ensures Listed(n, sources) && !Supplied(country) && !Supplied(dob) ==> r.score == 100
    ensures !Listed(n, sources) && Close(n, sources) ==> r.score >= 80
    ensures 0 <= r.score <= 100 && (r.hits == [] <==> r.decision == Allow)
  {
    var m :| Matches(n, sources, m) && r == Disambiguated(m, country, dob);
    MatchIff(n, sources, m);
    AttributesIff(m, country, dob);
  }

  // ----- everything a result says -----

  /** sim is the greatest similarity of any candidate, or none. */
  ghost predicate Greatest(n: string, sources: seq<Source>, sim: real) {
    && (forall i, c :: 0 <= i < |sources| && c in sources[i].names ==> Jaccard(n, c) <= sim)
    && (sim == 0.0 || exists i, c :: 0 <= i < |sources| && c in sources[i].names && Jaccard(n, c) == sim)
  }

  /** Source k is the first in dict order with a candidate that similar. */
  ghost predicate FirstAt(n: string, sources: seq<Source>, sim: real, k: nat) {
    && k < |sources| && (exists c :: c in sources[k].names && Jaccard(n, c) == sim)
    && (forall i, c :: 0 <= i < k && c in sources[i].names ==> Jaccard(n, c) < sim)
  }

  /** score is 100 * sim rounded to the nearest integer, and to the even one of two. */
  predicate Rounds(score: int, sim: real) {
    && -0.5 <= score as real - 100.0 * sim <= 0.5
    && (score as real - 100.0 * sim == 0.5 || score as real - 100.0 * sim == -0.5 ==> score % 2 == 0)
  }

  lemma RoundsHalfEven(sim: real)
    ensures Rounds(RoundHalfEven(sim * 100.0), sim)
  {
    RoundExact(sim * 100.0);
  }

  /** The codes that follow the first: what was supplied and what that led to. */
  function Remarks(blocked: bool, country: Option<string>, dob: Option<string>): seq<Reason> {
    match (Supplied(country), Supplied(dob))
    case (false, false) => []
    case (true, false) =>
      if blocked then [SubjectCountryProvided, NeedsDobCountryDisambiguation, DisambiguationAttributesPresent]
      else [SubjectCountryProvided, DisambiguationAttributesPresent]
    case (false, true) =>
      if blocked then [SubjectDobProvided, NeedsDobCountryDisambiguation, DisambiguationAttributesPresent]
      else [SubjectDobProvided, DisambiguationAttributesPresent]
    case (true, true) =>
      if blocked
      then [SubjectCountryProvided, SubjectDobProvided, NeedsDobCountryDisambiguation, DisambiguationAttributesPresent]
      else [SubjectCountryProvided, SubjectDobProvided, DisambiguationAttributesPresent]
  }

  lemma RemarksMade(m: ScreeningResult, country: Option<string>, dob: Option<string>)
    requires m.decision != Allow && !m.matchType.needsDisambiguation
    ensures
      var r := Disambiguated(m, country, dob);
      && r.reasonCodes == m.reasonCodes + Remarks(m.decision == Block, country, dob)
      && r.matchType ==
           MatchType(m.matchType.kind, m.decision == Block && (Supplied(country) || Supplied(dob)))
  {
  }

  /** A listed name: every source that lists it, in order, and nothing else. */
  lemma ListedTold(n: string, sources: seq<Source>, country: Option<string>, dob: Option<string>, r: ScreeningResult)
    requires Screens(n, sources, country, dob, r) && Listed(n, sources)
    ensures r.nameNorm == n
    ensures r.reasonCodes == [SanctionsExactNameMatch] + Remarks(true, country, dob)
    ensures r.matchType == MatchType(ExactNormalizedName, Supplied(country) || Supplied(dob))
    ensures forall s :: s in r.hits <==>
      exists i :: 0 <= i < |sources| && n in sources[i].names && sources[i].name == s
    ensures DistinctNames(sources) ==> Ascending(r.hits)
  {
    var m :| Matches(n, sources, m) && r == Disambiguated(m, country, dob);
    RemarksMade(m, country, dob);
    HitsMembers(n, sources);
    if DistinctNames(sources) {
      HitsDistinct(n, sources);
      SortAscending(Hits(n, sources));
    }
  }

  lemma BestTold(n: string, sources: seq<Source>, sim: real, src: Option<nat>)
    requires IsBest(Likeness(n), sources, sim, src)
    ensures Greatest(n, sources, sim) && (src.Some? ==> FirstAt(n, sources, sim, src.value))
  {
    forall i, c | 0 <= i < |sources| && c in sources[i].names ensures Jaccard(n, c) <= sim {
      assert AllAtMost(Likeness(n), sources[i].names, sim) && Likeness(n)(c) == Jaccard(n, c);
    }
    if src.Some? {
      var c :| c in sources[src.value].names && Likeness(n)(c) == sim;
      assert Jaccard(n, c) == sim;
      forall i, d | 0 <= i < src.value && d in sources[i].names ensures Jaccard(n, d) < sim {
        assert AllBelow(Likeness(n), sources[i].names, sim) && Likeness(n)(d) == Jaccard(n, d);
      }
    }
  }

  lemma FuzzyMatchTold(n: string, sources: seq<Source>, m: ScreeningResult) returns (sim: real, src: Option<nat>)
    requires Matches(n, sources, m) && !Listed(n, sources)
    ensures Greatest(n, sources, sim) && Rounds(m.score, sim) && m.nameNorm == n
    ensures m.decision == if Close(n, sources) then Review else Allow
    ensures Close(n, sources) ==>
      && m.matchType == MatchType(FuzzyNameTrigram, false) && m.reasonCodes == [SanctionsFuzzyNameMatch]
      && src.Some? && FirstAt(n, sources, sim, src.value) && m.hits == [sources[src.value].name]
    ensures !Close(n, sources) ==>
      m.matchType == MatchType(NoName, false) && m.reasonCodes == [NoMatch] && m.hits == []
  {
    sim, src :| IsBest(Likeness(n), sources, sim, src) && m == FuzzyMatch(n, sources, sim, src);
    BestIsClose(n, sources, sim, src);
    BestTold(n, sources, sim, src);
    RoundsHalfEven(sim);
  }

  /** The first source in dict order with a candidate that similar is the one hit. */
  ghost predicate HitsFirst(n: string, sources: seq<Source>, sim: real, hits: seq<string>) {
    exists k: nat :: FirstAt(n, sources, sim, k) && hits == [sources[k].name]
  }

  /** The verdict on an unlisted name alone, and what the attributes made of it. */
  lemma UnlistedMatch(n: string, sources: seq<Source>, country: Option<string>, dob: Option<string>, r: ScreeningResult)
    returns (m: ScreeningResult)
    requires Screens(n, sources, country, dob, r) && !Listed(n, sources)
    ensures Matches(n, sources, m) && r.nameNorm == m.nameNorm && r.hits == m.hits
    ensures !Close(n, sources) ==> r.matchType == m.matchType && r.reasonCodes == m.reasonCodes && r.score == m.score
    ensures Close(n, sources) && !m.matchType.needsDisambiguation ==>
      && r.matchType == m.matchType && r.reasonCodes == m.reasonCodes + Remarks(false, country, dob)
      && m.score == r.score + (if Supplied(country) then 5 else 0) + (if Supplied(dob) then 5 else 0)
  {
    m :| Matches(n, sources, m) && r == Disambiguated(m, country, dob);
    MatchIff(n, sources, m);
    AttributesIff(m, country, dob);
    if Close(n, sources) && !m.matchType.needsDisambiguation {
      RemarksMade(m, country, dob);
    }
  }

  /** RESULT: an unlisted name: the score is the greatest similarity in hundredths, less five for each attribute held
      against a hit; the hit is the first source that attains it, and the codes say what was found and supplied. */
  lemma UnlistedTold(n: string, sources: seq<Source>, country: Option<string>, dob: Option<string>, r: ScreeningResult)
    returns (sim: real)
    requires Screens(n, sources, country, dob, r) && !Listed(n, sources)
    ensures Greatest(n, sources, sim) && r.nameNorm == n
    ensures !Close(n, sources) ==>
      && r.matchType == MatchType(NoName, false) && r.reasonCodes == [NoMatch] && r.hits == []
      && Rounds(r.score, sim)
    ensures Close(n, sources) ==>
      && r.matchType == MatchType(FuzzyNameTrigram, false)
      && r.reasonCodes == [SanctionsFuzzyNameMatch] + Remarks(false, country, dob)
      && HitsFirst(n, sources, sim, r.hits)
      && Rounds(r.score + (if Supplied(country) then 5 else 0) + (if Supplied(dob) then 5 else 0), sim)
  {
    var m := UnlistedMatch(n, sources, country, dob, r);
    var src;
    sim, src := FuzzyMatchTold(n, sources, m);
    if Close(n, sources) {
      assert HitsFirst(n, sources, sim, m.hits);
    }
  }

  /** A name in some set is a hit for that source, blocked or held for review. */
  lemma ListedNameCaught(n: string, sources: seq<Source>, i: nat, country: Option<string>, dob: Option<string>,
        r: ScreeningResult)
    requires Screens(n, sources, country, dob, r)
    requires i < |sources| && n in sources[i].names
    ensures r.decision == (if Supplied(country) || Supplied(dob) then Review else Block)
    ensures sources[i].name in r.hits && r.score >= 75
  {
    var m :| Matches(n, sources, m) && r == Disambiguated(m, country, dob);
    HitsMembers(n, sources);
  }

  /** RESULT: a subject whose upper-cased alphanumeric runs are those of an ingested name is blocked, or reviewed
      when attributes were supplied, and the source is among the hits. */
  lemma NoListedNameSlips(ext: char -> string, subject: string, listed: string, sources: seq<Source>, i: nat,
                          country: Option<string>, dob: Option<string>, r: ScreeningResult)
    requires Screens(Names.Normalise(ext, subject), sources, country, dob, r)
    requires i < |sources| && Names.Normalise(ext, listed) in sources[i].names
    requires Names.Words(Names.Upper(ext, subject)) == Names.Words(Names.Upper(ext, listed))
    ensures r.decision == (if Supplied(country) || Supplied(dob) then Review else Block)
    ensures sources[i].name in r.hits && r.score >= 75
  {
    Names.SameNormalForm(ext, subject, listed);
    ListedNameCaught(Names.Normalise(ext, subject), sources, i, country, dob, r);
  }

  function Rank(d: Decision): int {
    match d
    case Allow => 0
    case Review => 1
    case Block => 2
  }

  /** RESULT: enlarging the name sets never weakens the decision. */
  lemma Monotone(n: string, sources: seq<Source>, larger: seq<Source>, country: Option<string>, dob: Option<string>,
                 r: ScreeningResult, r': ScreeningResult)
    requires Within(sources, larger)
    requires Screens(n, sources, country, dob, r) && Screens(n, larger, country, dob, r')
    ensures Rank(r.decision) <= Rank(r'.decision)
  {
    DecisionIff(n, sources, country, dob, r);
    DecisionIff(n, larger, country, dob, r');
  }

  predicate DistinctNames(sources: seq<Source>) {
    forall i, j :: 0 <= i < j < |sources| ==> sources[i].name != sources[j].name
  }

  lemma {:induction false} HitsDistinct(n: string, sources: seq<Source>)
    requires DistinctNames(sources)
    ensures Distinct(Hits(n, sources))
  {
    if sources != [] {
      HitsDistinct(n, sources[1..]);
      HitsMembers(n, sources[1..]);
      assert sources[0].name !in Hits(n, sources[1..]);
    }
  }

  lemma SameHits(n: string, sources: seq<Source>, other: seq<Source>)
    requires DistinctNames(sources) && DistinctNames(other) && multiset(sources) == multiset(other)
    ensures Sort(Hits(n, sources)) == Sort(Hits(n, other))
  {
    assert forall i :: 0 <= i < |sources| ==> sources[i] in multiset(sources);
    assert forall j :: 0 <= j < |other| ==> other[j] in multiset(other);
    HitsMembers(n, sources);
    HitsMembers(n, other);
    HitsDistinct(n, sources);
    HitsDistinct(n, other);
    SortAscending(Hits(n, sources));
    SortAscending(Hits(n, other));
    AscendingUnique(Sort(Hits(n, sources)), Sort(Hits(n, other)));
  }

  lemma BestOfSome(like: string -> real, sources: seq<Source>, sim: real, src: Option<nat>, other: seq<Source>,
        sim': real, src': Option<nat>)
    requires multiset(sources) == multiset(other)
    requires IsBest(like, sources, sim, src) && IsBest(like, other, sim', src')
    ensures sim <= sim'
  {
    assert forall i :: 0 <= i < |sources| ==> sources[i] in multiset(sources);
    BestAtMost(like, sources, sim, src, other, sim', src');
  }

  lemma ListedInSome(n: string, sources: seq<Source>, other: seq<Source>)
    requires multiset(sources) == multiset(other)
    ensures Listed(n, sources) ==> Listed(n, other)
  {
    assert forall i :: 0 <= i < |sources| ==> sources[i] in multiset(sources);
  }

  lemma SameBest(like: string -> real, sources: seq<Source>, sim: real, src: Option<nat>, other: seq<Source>,
        sim': real, src': Option<nat>)
    requires multiset(sources) == multiset(other)
    requires IsBest(like, sources, sim, src) && IsBest(like, other, sim', src')
    ensures sim == sim' && (src.Some? <==> src'.Some?)
  {
    BestOfSome(like, sources, sim, src, other, sim', src');
    BestOfSome(like, other, sim', src', sources, sim, src);
  }

  /** The results differ at most in the hits they name. */
  predicate SameVerdict(r: ScreeningResult, r': ScreeningResult) {
    && r.decision == r'.decision && r.nameNorm == r'.nameNorm && r.matchType == r'.matchType
    && r.score == r'.score && r.reasonCodes == r'.reasonCodes
  }

  lemma SameFuzzyVerdict(n: string, sources: seq<Source>, other: seq<Source>, sim: real, src: Option<nat>,
        src': Option<nat>)
    requires src.Some? ==> src.value < |sources|
    requires src'.Some? ==> src'.value < |other|
    requires src.Some? <==> src'.Some?
    ensures SameVerdict(FuzzyMatch(n, sources, sim, src), FuzzyMatch(n, other, sim, src'))
  {
  }

  lemma MatchOrderIrrelevant(n: string, sources: seq<Source>, other: seq<Source>, m: ScreeningResult,
        m': ScreeningResult)
    requires multiset(sources) == multiset(other)
    requires BestFound(n, sources, m) && BestFound(n, other, m')
    ensures SameVerdict(m, m')
  {
    var sim, src :| IsBest(Likeness(n), sources, sim, src) && m == FuzzyMatch(n, sources, sim, src);
    var sim', src' :| IsBest(Likeness(n), other, sim', src') && m' == FuzzyMatch(n, other, sim', src');
    SameBest(Likeness(n), sources, sim, src, other, sim', src');
    SameFuzzyVerdict(n, sources, other, sim, src, src');
  }

  lemma SameMatch(n: string, sources: seq<Source>, other: seq<Source>, m: ScreeningResult, m': ScreeningResult)
    requires DistinctNames(sources) && DistinctNames(other) && multiset(sources) == multiset(other)
    requires Matches(n, sources, m) && Matches(n, other, m')
    ensures SameVerdict(m, m') && (Listed(n, sources) ==> m' == m)
  {
    ListedInSome(n, sources, other);
    ListedInSome(n, other, sources);
    if Listed(n, sources) {
      SameHits(n, sources, other);
    } else {
      MatchOrderIrrelevant(n, sources, other, m, m');
    }
  }

  lemma SameDisambiguated(m: ScreeningResult, m': ScreeningResult, country: Option<string>, dob: Option<string>)
    requires SameVerdict(m, m')
    ensures SameVerdict(Disambiguated(m, country, dob), Disambiguated(m', country, dob))
  {
  }

  /** RESULT: the dict's own order matters to nothing but which of several equally similar sources a fuzzy hit names. */
  lemma SourceOrderIrrelevant(n: string, sources: seq<Source>, other: seq<Source>, country: Option<string>,
        dob: Option<string>,
                              r: ScreeningResult, r': ScreeningResult)
    requires DistinctNames(sources) && DistinctNames(other) && multiset(sources) == multiset(other)
    requires Screens(n, sources, country, dob, r) && Screens(n, other, country, dob, r')
    ensures SameVerdict(r, r')
    ensures Listed(n, sources) ==> r' == r
  {
    var m :| Matches(n, sources, m) && r == Disambiguated(m, country, dob);
    var m' :| Matches(n, other, m') && r' == Disambiguated(m', country, dob);
    SameMatch(n, sources, other, m, m');
    SameDisambiguated(m, m', country, dob);
  }
}
