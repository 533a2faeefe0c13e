/**
 * The USDA FoodData Central side of renal_app/usda_api.py, once the HTTP
 * search is taken out: a food record is given as a value. It covers the
 * nutrient extraction and per-serving scaling of `fetch_usda_food_details`,
 * the relevance ranking of `sort_results_by_relevance`, the data-type filter
 * and top-five cut of `display_and_select_usda_results`, and
 * `clean_usda_label`.
 */
module Usda {
  import opened Wrappers
  import opened Text
  import opened PyValues

  /**
   * One entry of a food's `foodNutrients` list. `None` stands for a key the
   * entry lacks (or, for the id, a value that is no integer).
   */
  datatype FoodNutrient = FoodNutrient(nutrientId: Option<int>, value: Option<real>)

  /** A food record of the search response; `None` stands for a key the record lacks. */
  datatype Food = Food(
    description: Option<string>,
    brandName: Option<string>,
    brandOwner: Option<string>,
    dataType: Option<string>,
    servingSize: Option<real>,
    servingSizeUnit: Option<string>,
    ingredients: Option<string>,
    foodNutrients: Option<seq<FoodNutrient>>)

  /** The dictionary `fetch_usda_food_details` returns when a food was found. */
  datatype Details = Details(
    servingSize: real,
    servingSizeUnit: string,
    nutrients: map<string, real>,
    ingredients: string,
    brandName: string,
    productDescription: string,
    fdcId: Value)

  const FoodNotFound := "Food item not found."

  // ---------------------------------------------------------------------------
  // Rounding

  /** Python's `round(y)` on an exact value: the nearest integer, halves to even. */
  function RoundHalfEven(y: real): (k: int)
    ensures -0.5 <= k as real - y <= 0.5
    ensures k as real - y == 0.5 || k as real - y == -0.5 ==> k % 2 == 0
  {
    var f := y.Floor;
    var frac := y - f as real;
    if frac < 0.5 then f
    else if frac > 0.5 then f + 1
    else if f % 2 == 0 then f
    else f + 1
  }

  /** An integer is its own rounding. */
  lemma RoundHalfEvenOfInt(k: int)
    ensures RoundHalfEven(k as real) == k
  {
  }

  /** `round(x, 2)` on an exact value: the nearest multiple of 0.01, halves to even. */
  function Round2(x: real): (r: real)
    ensures -0.005 <= r - x <= 0.005
  {
    RoundHalfEven(x * 100.0) as real / 100.0
  }

  /** A value that already has at most two decimals is kept as it is. */
  lemma Round2OfHundredths(k: int)
    ensures Round2(k as real / 100.0) == k as real / 100.0
  {
    assert (k as real / 100.0) * 100.0 == k as real;
    RoundHalfEvenOfInt(k);
  }

  // ---------------------------------------------------------------------------
  // Nutrient extraction

  /** `id_map`: the USDA nutrient ids the app reads, and the names it stores them under. */
  const NutrientIds: map<int, string> := map[
    1003 := "Protein", 1093 := "Sodium", 1092 := "Potassium", 2000 := "Sugar",
    1008 := "Calories", 1004 := "Total Fat", 1079 := "Fiber"]

  /** The names an extracted nutrient can have. */
  const ExtractedNames: set<string> :=
    {"Protein", "Sodium", "Potassium", "Sugar", "Calories", "Total Fat", "Fiber"}

  /** The seven ids of `id_map` name seven different nutrients. */
  lemma NutrientIdsNames()
    ensures forall id :: id in NutrientIds ==> NutrientIds[id] in ExtractedNames
    ensures forall a, b :: a in NutrientIds && b in NutrientIds && a != b ==> NutrientIds[a] != NutrientIds[b]
  {
  }

  /** The name an entry is stored under, when its id is mapped. */
  function NameOf(n: FoodNutrient): (name: Option<string>)
    ensures name.Some? ==> name.value in ExtractedNames
  {
    if n.nutrientId.Some? && n.nutrientId.value in NutrientIds
    then Some(NutrientIds[n.nutrientId.value]) else None
  }

  /** `n.get("value", 0)`. */
  function RawValue(n: FoodNutrient): real {
    n.value.GetOr(0.0)
  }

  /** `round(raw_value * ratio, 2)`: a per-100-unit amount scaled to one serving. */
  function ScaledValue(rawValue: real, ratio: real): real {
    Round2(rawValue * ratio)
  }

  /** The nutrients dictionary after the entries `ns` have been read in order. */
  function Scaled(ns: seq<FoodNutrient>, ratio: real): (r: map<string, real>)
    ensures r.Keys <= ExtractedNames
  {
    if ns == [] then map[]
    else
      var m := Scaled(ns[..|ns| - 1], ratio);
      var n := ns[|ns| - 1];
      if NameOf(n).Some? then m[NameOf(n).value := ScaledValue(RawValue(n), ratio)] else m
  }

  /** The loop of `fetch_usda_food_details` over `foodNutrients`. */
  method ScaleNutrients(ns: seq<FoodNutrient>, ratio: real) returns (nutrients: map<string, real>)
    ensures nutrients == Scaled(ns, ratio)
  {
    nutrients := map[];
    for i := 0 to |ns|
      invariant nutrients == Scaled(ns[..i], ratio)
    {
      assert ns[..i + 1][..i] == ns[..i];
      var n := ns[i];
      assert ns[..i + 1][i] == n;
      if n.nutrientId.Some? && n.nutrientId.value in NutrientIds {
        var cleanName := NutrientIds[n.nutrientId.value];
        var rawValue := n.value.GetOr(0.0);
        nutrients := nutrients[cleanName := ScaledValue(rawValue, ratio)];
      }
    }
    assert ns[..|ns|] == ns;
  }

  /** Only mapped names are stored; Phosphorus, in particular, never is. */
  lemma {:induction false} ScaledKeys(ns: seq<FoodNutrient>, ratio: real)
    ensures Scaled(ns, ratio).Keys <= ExtractedNames
    ensures "Phosphorus" !in Scaled(ns, ratio)
  {
    if ns != [] {
      ScaledKeys(ns[..|ns| - 1], ratio);
    }
  }

  /**
   * A name is stored exactly when some entry maps to it, and its value is the
   * scaled value of the last such entry: later entries overwrite earlier ones.
   */
  lemma {:induction false} ScaledLastWins(ns: seq<FoodNutrient>, ratio: real, name: string)
    ensures name in Scaled(ns, ratio) <==> exists i :: 0 <= i < |ns| && NameOf(ns[i]) == Some(name)
    ensures name in Scaled(ns, ratio) ==>
      exists i :: 0 <= i < |ns| && NameOf(ns[i]) == Some(name)
        && Scaled(ns, ratio)[name] == ScaledValue(RawValue(ns[i]), ratio)
        && forall j :: i < j < |ns| ==> NameOf(ns[j]) != Some(name)
  {
    if ns != [] {
      var init, last := ns[..|ns| - 1], ns[|ns| - 1];
      ScaledLastWins(init, ratio, name);
      if NameOf(last) == Some(name) {
        assert NameOf(ns[|ns| - 1]) == Some(name);
      } else {
        if exists i :: 0 <= i < |ns| && NameOf(ns[i]) == Some(name) {
          var i :| 0 <= i < |ns| && NameOf(ns[i]) == Some(name);
          assert i < |init| && NameOf(init[i]) == Some(name);
        }
        if name in Scaled(init, ratio) {
          var i :| 0 <= i < |init| && NameOf(init[i]) == Some(name)
            && Scaled(init, ratio)[name] == ScaledValue(RawValue(init[i]), ratio)
            && forall j :: i < j < |init| ==> NameOf(init[j]) != Some(name);
          assert NameOf(ns[i]) == Some(name) && Scaled(ns, ratio)[name] == ScaledValue(RawValue(ns[i]), ratio);
          assert forall j :: i < j < |ns| ==> NameOf(ns[j]) != Some(name) by {
            forall j | i < j < |ns|
              ensures NameOf(ns[j]) != Some(name)
            {
              if j < |init| {
                assert ns[j] == init[j];
              }
            }
          }
        }
      }
    }
  }

  /** With a zero serving size every stored nutrient is zero: the code has no guard against it. */
  lemma ZeroServingZeroesNutrients(ns: seq<FoodNutrient>, name: string)
    requires name in Scaled(ns, 0.0)
    ensures Scaled(ns, 0.0)[name] == 0.0
  {
    ScaledLastWins(ns, 0.0, name);
    Round2OfHundredths(0);
  }

  /** 10 g of protein per 100 g is 3 g in a 30 g serving. */
  lemma ProteinPerServing()
    ensures Scaled([FoodNutrient(Some(1003), Some(10.0))], 30.0 / 100.0) == map["Protein" := 3.0]
  {
    assert 10.0 * (30.0 / 100.0) == 300 as real / 100.0;
    Round2OfHundredths(300);
  }

  /** `(brandName or brandOwner or fallback)`: the first of the three that is given and non-empty. */
  function BrandOr(food: Food, fallback: string): (brand: string)
    ensures brand == fallback || Some(brand) == food.brandName || Some(brand) == food.brandOwner
    ensures food.brandName.Some? && food.brandName.value != [] ==> brand == food.brandName.value
    ensures (food.brandName.None? || food.brandName.value == []) && food.brandOwner.Some? && food.brandOwner.value != []
      ==> brand == food.brandOwner.value
    ensures (food.brandName.None? || food.brandName.value == []) && (food.brandOwner.None? || food.brandOwner.value == [])
      ==> brand == fallback
  {
    if food.brandName.Some? && food.brandName.value != [] then food.brandName.value
    else if food.brandOwner.Some? && food.brandOwner.value != [] then food.brandOwner.value
    else fallback
  }

  /**
   * `fetch_usda_food_details` from the search response's food list on: an
   * error when the list is empty, otherwise the first food's details with
   * its nutrients scaled from per 100 units to one serving.
   */
  method FetchFoodDetails(foods: seq<Food>, fdcId: Value) returns (r: Result<Details, string>)
    ensures foods == [] <==> r == Failure(FoodNotFound)
    ensures foods != [] ==> r.Success? && var d := r.value; var food := foods[0];
      && d.servingSize == food.servingSize.GetOr(100.0)
      && d.nutrients == Scaled(food.foodNutrients.GetOr([]), d.servingSize / 100.0)
      && d.servingSizeUnit == food.servingSizeUnit.GetOr("g")
      && d.ingredients == food.ingredients.GetOr("N/A")
      && d.brandName == Title(BrandOr(food, "Generic"))
      && d.productDescription == CleanUsdaLabel(Some(food.description.GetOr("")))
      && d.fdcId == fdcId
  {
    if foods == [] {
      return Failure(FoodNotFound);
    }
    var food := foods[0];
    var servingSize := food.servingSize.GetOr(100.0);
    var ratio := servingSize / 100.0;
    var nutrients := ScaleNutrients(food.foodNutrients.GetOr([]), ratio);
    assert nutrients == Scaled(food.foodNutrients.GetOr([]), servingSize / 100.0);
    r := Success(Details(
      servingSize,
      food.servingSizeUnit.GetOr("g"),
      nutrients,
      food.ingredients.GetOr("N/A"),
      Title(BrandOr(food, "Generic")),
      CleanUsdaLabel(Some(food.description.GetOr(""))),
      fdcId));
  }

  /**
   * The dictionary `fetch_usda_food_details` returns: `{"error": ...}` on
   * failure, otherwise the seven detail keys with the nutrients as a nested
   * dictionary of floats.
   */
  function DetailsRecord(r: Result<Details, string>): (m: map<string, Value>)
    ensures r.Failure? ==> m == map["error" := Str(r.error)]
    ensures r.Success? ==> m.Keys == DetailKeys && "nutrients" in m && m["nutrients"].Dict?
  {
    match r
    case Failure(e) => map["error" := Str(e)]
    case Success(d) => map[
      "serving_size" := Float(d.servingSize),
      "serving_size_unit" := Str(d.servingSizeUnit),
      "nutrients" := Dict(map n | n in d.nutrients :: Float(d.nutrients[n])),
      "ingredients" := Str(d.ingredients),
      "brand_name" := Str(d.brandName),
      "product_description" := Str(d.productDescription),
      "FDC_ID" := d.fdcId]
  }

  const DetailKeys: set<string> :=
    {"serving_size", "serving_size_unit", "nutrients", "ingredients", "brand_name", "product_description", "FDC_ID"}

  // ---------------------------------------------------------------------------
  // Labels

  /** `clean_usda_label(text)`: "" for None or "", otherwise the stripped text in title case. */
  function CleanUsdaLabel(text: Option<string>): (r: string)
    ensures text.None? || text.value == [] ==> r == []
    ensures text.Some? && text.value != [] ==> r == Title(Strip(text.value))
    ensures text.Some? ==> |r| == |Strip(text.value)| && (r == [] <==> AllSpace(text.value))
    ensures r != [] ==> !IsSpace(r[0]) && !IsSpace(r[|r| - 1])
  {
    if text.None? || text.value == [] then ""
    else
      var s := Strip(text.value);
      TitleKeepsEnds(s);
      Title(s)
  }

  /** Title-casing keeps a string free of whitespace at either end. */
  lemma TitleKeepsEnds(s: string)
    requires s != [] ==> !IsSpace(s[0]) && !IsSpace(s[|s| - 1])
    ensures var t := Title(s); t != [] ==> !IsSpace(t[0]) && !IsSpace(t[|t| - 1])
  {
    var t := Title(s);
    if t != [] {
      KeepsNoSpace(s[0], t[0]);
      KeepsNoSpace(s[|s| - 1], t[|t| - 1]);
    }
  }

  /** A character title-casing may produce from a non-whitespace one is no whitespace. */
  lemma KeepsNoSpace(c: char, d: char)
    requires !IsSpace(c)
    requires IsLetter(d) == IsLetter(c)
    requires !IsLetter(c) ==> d == c
    ensures !IsSpace(d)
  {
  }

  /** Cleaning a cleaned label changes nothing more. */
  lemma CleanUsdaLabelIdempotent(text: Option<string>)
    ensures CleanUsdaLabel(Some(CleanUsdaLabel(text))) == CleanUsdaLabel(text)
  {
    var c := CleanUsdaLabel(text);
    if c != [] {
      StripUnpadded(c);
      var s := Strip(text.value);
      assert c == Title(s);
      TitleIdempotent(s);
    }
  }

  // ---------------------------------------------------------------------------
  // Relevance ranking

  /** A food with the `relevance_score` the ranking gives it. */
  datatype Scored = Scored(food: Food, score: real)

  /**
   * The score of one food for a query: the mean of the fuzzy ratio against the
   * lower-cased description and against the lower-cased brand, the latter 0
   * when there is no brand. `ratio` is the fuzzy matcher, left abstract.
   */
  function RelevanceScore(food: Food, query: string, ratio: (string, string) -> real): (r: real)
    ensures BrandOr(food, "") == [] ==> r == 0.5 * ratio(Lower(query), Lower(food.description.GetOr("")))
    ensures BrandOr(food, "") != [] ==>
      r == 0.5 * ratio(Lower(query), Lower(food.description.GetOr(""))) + 0.5 * ratio(Lower(query), Lower(BrandOr(food, "")))
    ensures (forall a, b :: 0.0 <= ratio(a, b) <= 100.0) ==> 0.0 <= r <= 100.0
  {
    var q := Lower(query);
    var description := Lower(food.description.GetOr(""));
    var brand := Lower(BrandOr(food, ""));
    var descScore := ratio(q, description);
    var brandScore := if brand != [] then ratio(q, brand) else 0.0;
    descScore * 0.5 + brandScore * 0.5
  }

  /** Every food paired with its score, in the given order. */
  function Scores(foods: seq<Food>, query: string, ratio: (string, string) -> real): (r: seq<Scored>)
    ensures |r| == |foods|
    ensures forall i :: 0 <= i < |foods| ==> r[i] == Scored(foods[i], RelevanceScore(foods[i], query, ratio))
  {
    seq(|foods|, i requires 0 <= i < |foods| => Scored(foods[i], RelevanceScore(foods[i], query, ratio)))
  }

  /** The scoring loop of `sort_results_by_relevance`. */
  method ScoreFoods(foods: seq<Food>, query: string, ratio: (string, string) -> real) returns (scored: seq<Scored>)
    ensures scored == Scores(foods, query, ratio)
  {
    var q := Lower(query);
    scored := [];
    for i := 0 to |foods|
      invariant scored == Scores(foods[..i], query, ratio)
    {
      var item := foods[i];
      var description := Lower(item.description.GetOr(""));
      var brand := Lower(BrandOr(item, ""));
      var descScore := ratio(q, description);
      var brandScore := if brand != [] then ratio(q, brand) else 0.0;
      scored := scored + [Scored(item, descScore * 0.5 + brandScore * 0.5)];
    }
    assert foods[..|foods|] == foods;
  }

  /** Scores never increase along the list. */
  predicate Descending(xs: seq<Scored>) {
    forall i, j :: 0 <= i < j < |xs| ==> xs[i].score >= xs[j].score
  }

  /** The items of `xs` with score `s`, in their order. */
  function WithScore(xs: seq<Scored>, s: real): seq<Scored> {
    if xs == [] then []
    else (if xs[0].score == s then [xs[0]] else []) + WithScore(xs[1..], s)
  }

  /** `x` placed before the first item of `ys` whose score is not above its own. */
  function Insert(x: Scored, ys: seq<Scored>): (r: seq<Scored>)
    ensures multiset(r) == multiset(ys) + multiset{x}
    ensures |r| == |ys| + 1
    ensures r[0] == x || (ys != [] && r[0] == ys[0])
  {
    if ys == [] || x.score >= ys[0].score then
      [x] + ys
    else
      assert ys == [ys[0]] + ys[1..];
      [ys[0]] + Insert(x, ys[1..])
  }

  /** Inserting into a descending sequence keeps it descending. */
  lemma {:induction false} InsertDescending(x: Scored, ys: seq<Scored>)
    requires Descending(ys)
    ensures Descending(Insert(x, ys))
  {
    if ys == [] || x.score >= ys[0].score {
      forall z | z in ys ensures z.score <= x.score {
        var k :| 0 <= k < |ys| && ys[k] == z;
        assert ys[0].score >= ys[k].score;
      }
      ConsDescending(x, ys);
    } else {
      var rest := Insert(x, ys[1..]);
      assert ys == [ys[0]] + ys[1..];
      assert Descending(ys[1..]);
      InsertDescending(x, ys[1..]);
      forall z | z in rest ensures z.score <= ys[0].score {
        assert z in multiset(rest);
        if z != x {
          assert z in multiset(ys[1..]);
          var k :| 0 <= k < |ys[1..]| && ys[1..][k] == z;
          assert ys[k + 1] == z;
        }
      }
      ConsDescending(ys[0], rest);
    }
  }

  /** An item scoring at least as much as all of a descending sequence may go first. */
  lemma ConsDescending(y: Scored, rest: seq<Scored>)
    requires Descending(rest)
    requires forall z :: z in rest ==> z.score <= y.score
    ensures Descending([y] + rest)
  {
    forall i, j | 0 <= i < j < |rest| + 1
      ensures ([y] + rest)[i].score >= ([y] + rest)[j].score
    {
      assert ([y] + rest)[j] == rest[j - 1];
      if i > 0 {
        assert ([y] + rest)[i] == rest[i - 1];
      } else {
        assert rest[j - 1] in rest;
      }
    }
  }

  /** `sorted(..., key=score, reverse=True)`: a stable sort into descending score order. */
  function SortByScore(xs: seq<Scored>): (r: seq<Scored>)
    ensures multiset(r) == multiset(xs)
    ensures |r| == |xs|
    ensures Descending(r)
  {
    if xs == [] then []
    else
      assert xs == [xs[0]] + xs[1..];
      InsertDescending(xs[0], SortByScore(xs[1..]));
      Insert(xs[0], SortByScore(xs[1..]))
  }

  /** Inserting keeps the order among items of equal score: `x` goes before those it ties with. */
  lemma {:induction false} InsertStable(x: Scored, ys: seq<Scored>, s: real)
    ensures WithScore(Insert(x, ys), s) == OfScore(x, s) + WithScore(ys, s)
  {
    if ys == [] || x.score >= ys[0].score {
      WithScoreCons(x, ys, s);
    } else {
      InsertStable(x, ys[1..], s);
      WithScoreCons(ys[0], Insert(x, ys[1..]), s);
      assert ys == [ys[0]] + ys[1..];
      WithScoreCons(ys[0], ys[1..], s);
      assert OfScore(x, s) == [] || OfScore(ys[0], s) == [];
    }
  }

  /** `[y]` when `y` has score `s`, else nothing. */
  function OfScore(y: Scored, s: real): seq<Scored> {
    if y.score == s then [y] else []
  }

  lemma WithScoreCons(y: Scored, rest: seq<Scored>, s: real)
    ensures WithScore([y] + rest, s) == OfScore(y, s) + WithScore(rest, s)
  {
    assert ([y] + rest)[0] == y && ([y] + rest)[1..] == rest;
  }

  /** The sort is stable: items of equal score keep their input order. */
  lemma {:induction false} SortStable(xs: seq<Scored>, s: real)
    ensures WithScore(SortByScore(xs), s) == WithScore(xs, s)
  {
    if xs != [] {
      SortStable(xs[1..], s);
      InsertStable(xs[0], SortByScore(xs[1..]), s);
    }
  }

  /**
   * `sort_results_by_relevance(foods, query)`: every food with its score, all
   * of them and nothing else, by non-increasing score, ties in input order.
   */
  method SortResultsByRelevance(foods: seq<Food>, query: string, ratio: (string, string) -> real)
    returns (r: seq<Scored>)
    ensures multiset(r) == multiset(Scores(foods, query, ratio))
    ensures |r| == |foods|
    ensures forall x :: x in r ==> x.score == RelevanceScore(x.food, query, ratio)
    ensures Descending(r)
    ensures forall s :: WithScore(r, s) == WithScore(Scores(foods, query, ratio), s)
    ensures r == SortByScore(Scores(foods, query, ratio))
  {
    var scored := ScoreFoods(foods, query, ratio);
    r := SortByScore(scored);
    forall s
      ensures WithScore(r, s) == WithScore(scored, s)
    {
      SortStable(scored, s);
    }
    forall x | x in r
      ensures x.score == RelevanceScore(x.food, query, ratio)
    {
      assert x in multiset(scored);
    }
  }

  // ---------------------------------------------------------------------------
  // Selection

  /** `allowed_types`. */
  const AllowedTypes: set<string> := {"Branded", "Foundation", "Survey (FNDDS)"}

  predicate Allowed(f: Food) {
    f.dataType.Some? && f.dataType.value in AllowedTypes
  }

  /** `[f for f in foods if f.get("dataType") in allowed_types]`. */
  function FilterAllowed(foods: seq<Food>): (r: seq<Food>)
    ensures forall f :: f in r <==> f in foods && Allowed(f)
    ensures forall f :: multiset(r)[f] == if Allowed(f) then multiset(foods)[f] else 0
  {
    if foods == [] then []
    else
      assert foods == [foods[0]] + foods[1..];
      (if Allowed(foods[0]) then [foods[0]] else []) + FilterAllowed(foods[1..])
  }

  /** The filter keeps the order of the foods: it distributes over concatenation. */
  lemma {:induction false} FilterAllowedAppend(a: seq<Food>, b: seq<Food>)
    ensures FilterAllowed(a + b) == FilterAllowed(a) + FilterAllowed(b)
  {
    if a == [] {
      assert a + b == b;
    } else {
      assert (a + b)[1..] == a[1..] + b;
      FilterAllowedAppend(a[1..], b);
    }
  }

  function Min(a: int, b: int): int {
    if a < b then a else b
  }

  const TopCount := 5

  /** No item left out of the first `k` of a descending list scores above one kept. */
  lemma TopAreBest(xs: seq<Scored>, k: nat)
    requires Descending(xs) && k <= |xs|
    ensures forall x, y :: x in xs[..k] && y in multiset(xs) - multiset(xs[..k]) ==> x.score >= y.score
  {
    assert xs == xs[..k] + xs[k..];
    forall x, y | x in xs[..k] && y in multiset(xs) - multiset(xs[..k])
      ensures x.score >= y.score
    {
      assert y in multiset(xs[k..]);
      var i :| 0 <= i < k && xs[..k][i] == x;
      var j :| 0 <= j < |xs[k..]| && xs[k..][j] == y;
      assert xs[i] == x && xs[k + j] == y;
    }
  }

  /** Every ranked candidate is an allowed food of the search result. */
  lemma CandidatesAreAllowed(foods: seq<Food>, query: string, ratio: (string, string) -> real, x: Scored)
    requires x in Scores(FilterAllowed(foods), query, ratio)
    ensures x.food in foods && Allowed(x.food)
  {
    var candidates := Scores(FilterAllowed(foods), query, ratio);
    var i :| 0 <= i < |candidates| && candidates[i] == x;
    assert x.food == FilterAllowed(foods)[i];
  }

  /** Items of one score keep their order across a concatenation. */
  lemma {:induction false} WithScoreAppend(a: seq<Scored>, b: seq<Scored>, s: real)
    ensures WithScore(a + b, s) == WithScore(a, s) + WithScore(b, s)
  {
    if a == [] {
      assert a + b == b;
    } else {
      var h := OfScore(a[0], s);
      assert (a + b)[0] == a[0] && (a + b)[1..] == a[1..] + b;
      assert WithScore(a + b, s) == h + WithScore(a[1..] + b, s);
      WithScoreAppend(a[1..], b, s);
      assert h + (WithScore(a[1..], s) + WithScore(b, s)) == (h + WithScore(a[1..], s)) + WithScore(b, s);
    }
  }

  /**
   * The non-interactive part of `display_and_select_usda_results`: a warning
   * when there are no foods or none of an allowed data type, otherwise the
   * allowed foods ranked by relevance and cut to the first five.
   */
  method SelectTopMatches(foods: seq<Food>, query: string, ratio: (string, string) -> real)
    returns (r: Result<seq<Scored>, string>)
    ensures foods == [] ==> r == Failure("No USDA matches found for '" + query + "'")
    ensures foods != [] && FilterAllowed(foods) == [] ==> r == Failure("No matching foods in USDA database")
    ensures r.Success? <==> FilterAllowed(foods) != []
    ensures r.Success? ==> var candidates := Scores(FilterAllowed(foods), query, ratio);
      && r.value == SortByScore(candidates)[..Min(TopCount, |candidates|)]
      && |r.value| == Min(TopCount, |FilterAllowed(foods)|)
      && Descending(r.value)
      && multiset(r.value) <= multiset(candidates)
      && (forall x :: x in r.value ==> x.food in foods && Allowed(x.food))
      && (forall x, y :: x in r.value && y in multiset(candidates) - multiset(r.value) ==> x.score >= y.score)
      && (forall s :: WithScore(r.value, s) <= WithScore(candidates, s))
  {
    if foods == [] {
      return Failure("No USDA matches found for '" + query + "'");
    }
    var filteredFoods := FilterAllowed(foods);
    if filteredFoods == [] {
      return Failure("No matching foods in USDA database");
    }
    var sortedFoods := SortResultsByRelevance(filteredFoods, query, ratio);
    var topMatches := sortedFoods[..Min(TopCount, |sortedFoods|)];
    TopOfRanking(foods, query, ratio);
    r := Success(topMatches);
  }

  /**
   * The first five of the ranking of the allowed foods: the best allowed foods,
   * best first, each candidate at most as often as it occurs, and among foods
   * of equal score the earliest ones.
   */
  lemma TopOfRanking(foods: seq<Food>, query: string, ratio: (string, string) -> real)
    ensures var candidates := Scores(FilterAllowed(foods), query, ratio);
      var top := SortByScore(candidates)[..Min(TopCount, |candidates|)];
      && |top| == Min(TopCount, |FilterAllowed(foods)|)
      && Descending(top)
      && multiset(top) <= multiset(candidates)
      && (forall x :: x in top ==> x.food in foods && Allowed(x.food))
      && (forall x, y :: x in top && y in multiset(candidates) - multiset(top) ==> x.score >= y.score)
      && (forall s :: WithScore(top, s) <= WithScore(candidates, s))
  {
    var candidates := Scores(FilterAllowed(foods), query, ratio);
    var ranked := SortByScore(candidates);
    var k := Min(TopCount, |ranked|);
    var top := ranked[..k];
    PrefixOfRanking(ranked, k);
    TopAreBest(ranked, k);
    forall x | x in top
      ensures x.food in foods && Allowed(x.food)
    {
      assert x in multiset(ranked);
      CandidatesAreAllowed(foods, query, ratio, x);
    }
    forall s
      ensures WithScore(top, s) <= WithScore(candidates, s)
    {
      SortStable(candidates, s);
    }
  }

  /** A prefix of a descending list is descending, takes no item more often, and keeps the earliest of each score. */
  lemma PrefixOfRanking(xs: seq<Scored>, k: nat)
    requires Descending(xs) && k <= |xs|
    ensures Descending(xs[..k])
    ensures multiset(xs[..k]) <= multiset(xs)
    ensures forall s :: WithScore(xs[..k], s) <= WithScore(xs, s)
  {
    assert xs == xs[..k] + xs[k..];
    forall s ensures WithScore(xs[..k], s) <= WithScore(xs, s) {
      WithScoreAppend(xs[..k], xs[k..], s);
    }
  }
}
