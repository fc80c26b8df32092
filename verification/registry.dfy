/** The method registries the assistant searches (api_registry.py for
    Wildberries, ozon_api_registry.py for Ozon): a query is lower-cased and
    split into words, every method is scored by where a word occurs, methods
    scoring 0 are dropped, and the five best are returned, best first, ties
    in registry order. Lookup by name and by category. */
module Registry {
  import opened Common
  import opened Sorting

  /** A registry entry; endpoint, HTTP verb and parameter descriptions take
      no part in any search. */
  datatype Method = Method(name: string, description: string, category: string, useCases: seq<string>)

  /** How many methods a search returns at most. */
  const TopN: nat := 5

  predicate NotSpace(c: char) { !IsSpace(c) }

  /** `query.lower().split()`. */
  function Words(query: string): (r: seq<string>)
    ensures forall k | 0 <= k < |r| :: |r[k]| > 0
  {
    RunsAllMatch(Lower(query), NotSpace);
    Runs(Lower(query), NotSpace)
  }

  /** `any(word in text.lower() for word in words)`. */
  predicate Mentions(words: seq<string>, text: string) {
    AnyIn(words, Lower(text))
  }

  /** The use-case loop: 1 for the first use case mentioning a word, after
      which it breaks; 0 when none does. */
  function UseCaseBonus(words: seq<string>, useCases: seq<string>): int
    decreases |useCases|
  {
    if |useCases| == 0 then 0
    else if Mentions(words, useCases[0]) then 1
    else UseCaseBonus(words, useCases[1..])
  }

  /** The Ozon score: +2 for the description, +1 for the name. */
  function OzonScore(words: seq<string>, m: Method): int {
    (if Mentions(words, m.description) then 2 else 0) + (if Mentions(words, m.name) then 1 else 0)
  }

  /** The Wildberries score: the same, plus the use-case bonus. */
  function WbScore(words: seq<string>, m: Method): int {
    (if Mentions(words, m.description) then 2 else 0) + (if Mentions(words, m.name) then 1 else 0)
    + UseCaseBonus(words, m.useCases)
  }

  /** However many use cases mention a word, they add 1 once; they add
      nothing when none does. */
  lemma {:induction false} UseCaseBonusOnce(words: seq<string>, useCases: seq<string>)
    ensures UseCaseBonus(words, useCases) == 1 <==> exists i | 0 <= i < |useCases| :: Mentions(words, useCases[i])
    ensures UseCaseBonus(words, useCases) == 0 || UseCaseBonus(words, useCases) == 1
    decreases |useCases|
  {
    if |useCases| > 0 && !Mentions(words, useCases[0]) {
      UseCaseBonusOnce(words, useCases[1..]);
      assert forall i | 1 <= i < |useCases| :: useCases[1..][i - 1] == useCases[i];
    }
  }

  /** The Wildberries score is the Ozon score plus at most one use-case
      point: 0..4 against 0..3, and a method scores above 0 iff a word occurs
      in its description, its name or (Wildberries only) a use case. */
  lemma ScoresCompared(words: seq<string>, m: Method)
    ensures WbScore(words, m) == OzonScore(words, m) + (if exists i | 0 <= i < |m.useCases| :: Mentions(words, m.useCases[i]) then 1 else 0)
    ensures 0 <= OzonScore(words, m) <= 3 && 0 <= WbScore(words, m) <= 4
    ensures OzonScore(words, m) > 0 <==> Mentions(words, m.description) || Mentions(words, m.name)
    ensures WbScore(words, m) > 0 <==>
      Mentions(words, m.description) || Mentions(words, m.name) || exists i | 0 <= i < |m.useCases| :: Mentions(words, m.useCases[i])
  {
    UseCaseBonusOnce(words, m.useCases);
  }

  // ---------------------------------------------------------------------------
  // Ranking
  // ---------------------------------------------------------------------------

  /** A method with its score. */
  datatype Hit = Hit(score: int, entry: Method)

  /** `sort(key=score, reverse=True)`: a higher score comes first. */
  predicate ScoreGe(a: Hit, b: Hit) { a.score >= b.score }

  lemma ScoreGeTotalPreorder()
    ensures TotalPreorder(ScoreGe)
  {
  }

  /** The `(score, method)` pairs with a positive score, in registry order. */
  function Scored(methods: seq<Method>, score: Method -> int): (r: seq<Hit>)
    ensures forall h | h in r :: h.entry in methods && h.score == score(h.entry) && h.score > 0
    decreases |methods|
  {
    if |methods| == 0 then []
    else
      var m := methods[|methods| - 1];
      Scored(methods[..|methods| - 1], score) + (if score(m) > 0 then [Hit(score(m), m)] else [])
  }

  /** All positive hits, best first, ties in registry order. */
  function Ranked(methods: seq<Method>, score: Method -> int): seq<Hit> {
    SortBy(Scored(methods, score), ScoreGe)
  }

  function MethodsOf(hits: seq<Hit>): (r: seq<Method>)
    ensures |r| == |hits| && forall i | 0 <= i < |hits| :: r[i] == hits[i].entry
  {
    seq(|hits|, i requires 0 <= i < |hits| => hits[i].entry)
  }

  /** `[method for score, method in matching_methods[:5]]`. */
  function FindBy(methods: seq<Method>, score: Method -> int): (r: seq<Method>)
    ensures |r| <= TopN
    ensures forall i | 0 <= i < |r| :: r[i] in methods && score(r[i]) > 0
  {
    var ranked := Ranked(methods, score);
    var top := if |ranked| <= TopN then ranked else ranked[..TopN];
    forall i | 0 <= i < |top| ensures top[i].entry in methods && score(top[i].entry) > 0 {
      assert top[i] == ranked[i];
      assert ranked[i] in multiset(Scored(methods, score));
    }
    MethodsOf(top)
  }

  function WbScorer(words: seq<string>): Method -> int {
    m => WbScore(words, m)
  }

  function OzonScorer(words: seq<string>): Method -> int {
    m => OzonScore(words, m)
  }

  /** `WBMethodRegistry.find_method(query)` over a registry. */
  function FindMethod(methods: seq<Method>, query: string): (r: seq<Method>)
    ensures |r| <= TopN
    ensures forall i | 0 <= i < |r| :: r[i] in methods && WbScore(Words(query), r[i]) > 0
  {
    FindBy(methods, WbScorer(Words(query)))
  }

  /** `OzonMethodRegistry.find_method(query)` over a registry. */
  function OzonFindMethod(methods: seq<Method>, query: string): (r: seq<Method>)
    ensures |r| <= TopN
    ensures forall i | 0 <= i < |r| :: r[i] in methods && OzonScore(Words(query), r[i]) > 0
  {
    FindBy(methods, OzonScorer(Words(query)))
  }

  /** A method is a positive hit iff it is in the registry with a positive score. */
  lemma {:induction false} ScoredComplete(methods: seq<Method>, score: Method -> int, m: Method)
    ensures Hit(score(m), m) in Scored(methods, score) <==> m in methods && score(m) > 0
    decreases |methods|
  {
    if |methods| > 0 {
      var init := methods[..|methods| - 1];
      ScoredComplete(init, score, m);
      if m in methods && m !in init {
        assert m == methods[|methods| - 1] by {
          var i :| 0 <= i < |methods| && methods[i] == m;
        }
      }
    }
  }

  /** The result's hits are the first ones of the ranking. */
  lemma FindByPrefix(methods: seq<Method>, score: Method -> int, i: nat)
    requires i < |FindBy(methods, score)|
    ensures i < |Ranked(methods, score)| && FindBy(methods, score)[i] == Ranked(methods, score)[i].entry
  {
  }

  /** The result is ordered by score, best first. */
  lemma FindBySorted(methods: seq<Method>, score: Method -> int)
    ensures var r := FindBy(methods, score);
      forall i, j | 0 <= i < j < |r| :: score(r[i]) >= score(r[j])
  {
    var ranked := Ranked(methods, score);
    var r := FindBy(methods, score);
    ScoreGeTotalPreorder();
    SortBySorted(Scored(methods, score), ScoreGe);
    forall i, j | 0 <= i < j < |r| ensures score(r[i]) >= score(r[j]) {
      FindByPrefix(methods, score, i);
      FindByPrefix(methods, score, j);
      assert ranked[i] in multiset(Scored(methods, score)) && ranked[j] in multiset(Scored(methods, score));
      assert ScoreGe(ranked[i], ranked[j]);
    }
  }

  /** Among equal scores the registry order is kept. */
  lemma RankedStable(methods: seq<Method>, score: Method -> int, y: Hit)
    ensures TiedWith(Ranked(methods, score), ScoreGe, y) == TiedWith(Scored(methods, score), ScoreGe, y)
  {
    ScoreGeTotalPreorder();
    SortByStable(Scored(methods, score), ScoreGe, y);
  }

  /** Every positive-scoring method left out scores no more than any
      method returned. */
  lemma FindByKeepsBest(methods: seq<Method>, score: Method -> int, m: Method)
    requires m in methods && score(m) > 0 && m !in FindBy(methods, score)
    ensures forall i | 0 <= i < |FindBy(methods, score)| :: score(FindBy(methods, score)[i]) >= score(m)
  {
    var ranked := Ranked(methods, score);
    var r := FindBy(methods, score);
    ScoreGeTotalPreorder();
    SortBySorted(Scored(methods, score), ScoreGe);
    ScoredComplete(methods, score, m);
    var h := Hit(score(m), m);
    assert h in multiset(ranked);
    var j :| 0 <= j < |ranked| && ranked[j] == h;
    forall k | 0 <= k < |r| ensures ranked[k] != h {
      FindByPrefix(methods, score, k);
    }
    assert j >= |r|;
    forall i | 0 <= i < |r| ensures score(r[i]) >= score(m) {
      FindByPrefix(methods, score, i);
      assert ranked[i] in multiset(Scored(methods, score));
      assert ScoreGe(ranked[i], ranked[j]);
    }
  }

  /** Fewer than five positive hits are all returned. */
  lemma FindByAllWhenFew(methods: seq<Method>, score: Method -> int)
    ensures |FindBy(methods, score)| == if |Scored(methods, score)| <= TopN then |Scored(methods, score)| else TopN
  {
  }

  // ---------------------------------------------------------------------------
  // Lookups
  // ---------------------------------------------------------------------------

  predicate Named(name: string, m: Method) { m.name == name }

  function NamedAs(name: string): Method -> bool {
    m => Named(name, m)
  }

  /** `get_method_by_name(name)`: the first method with that exact name. */
  function MethodByName(methods: seq<Method>, name: string): (r: Option<Method>)
    ensures r.None? <==> forall i | 0 <= i < |methods| :: methods[i].name != name
    ensures r.Some? ==> exists i | 0 <= i < |methods| ::
      methods[i] == r.value && r.value.name == name && forall j | 0 <= j < i :: methods[j].name != name
  {
    match FirstIndex(methods, NamedAs(name))
    case None => None
    case Some(i) => Some(methods[i])
  }

  /** `list_all_methods()`: every name, in registry order. */
  function ListAllMethods(methods: seq<Method>): (r: seq<string>)
    ensures |r| == |methods| && forall i | 0 <= i < |methods| :: r[i] == methods[i].name
  {
    seq(|methods|, i requires 0 <= i < |methods| => methods[i].name)
  }

  predicate InCategory(category: string, m: Method) { m.category == category }

  function CategoryIs(category: string): Method -> bool {
    m => InCategory(category, m)
  }

  /** `get_methods_by_category(category)`. */
  function MethodsByCategory(methods: seq<Method>, category: string): seq<Method> {
    Filter(methods, CategoryIs(category))
  }

  /** Exactly the methods of the category, in registry order; the
      categories split the registry. */
  lemma MethodsByCategoryExact(methods: seq<Method>, category: string, m: Method)
    ensures m in MethodsByCategory(methods, category) <==> m in methods && m.category == category
    ensures MethodsByCategory(methods + [m], category)
         == MethodsByCategory(methods, category) + (if m.category == category then [m] else [])
  {
    if m in methods && m.category == category {
      FilterComplete(methods, CategoryIs(category), m);
    }
    assert (methods + [m])[..|methods|] == methods;
  }
}
