/**
 * `prepare_airtable_record` of renal_app/airtable_api.py: the flat row saved
 * for a USDA product, built from the details dictionary with a default for
 * every key that may be missing.
 */
module Airtable {
  import opened Wrappers
  import opened PyValues
  import opened Coercion
  import opened Usda

  /** The columns copied from the details. */
  const TextColumnNames: set<string> :=
    {"Product", "Brand", "FDC_ID", "Ingredients", "USDA Serving Size", "USDA Serving Unit"}

  /** The columns holding nutrient amounts. */
  const NutrientColumnNames: set<string> := {
    "USDA Protein (g)", "USDA Sodium (mg)", "USDA Potassium (mg)", "USDA Sugar (g)",
    "USDA Calories (kcal)", "USDA Total Fat (g)", "USDA Fiber (g)"}

  /** The columns of the saved row, from "Product" through "USDA Fiber (g)". */
  const RecordKeys: set<string> := TextColumnNames + NutrientColumnNames

  /** The nutrient columns, each with the nutrient it is read from. */
  const NutrientColumns: seq<(string, string)> := [
    ("USDA Protein (g)", "Protein"), ("USDA Sodium (mg)", "Sodium"),
    ("USDA Potassium (mg)", "Potassium"), ("USDA Sugar (g)", "Sugar"),
    ("USDA Calories (kcal)", "Calories"), ("USDA Total Fat (g)", "Total Fat"),
    ("USDA Fiber (g)", "Fiber")]

  /** The keys of the details dictionary the row is read from. */
  const ReadKeys: set<string> :=
    {"product_description", "brand_name", "FDC_ID", "ingredients", "serving_size", "serving_size_unit", "nutrients"}

  /** Whether the dictionary can be saved: a `nutrients` entry, when present, is a dictionary. */
  predicate Saveable(data: map<string, Value>) {
    "nutrients" in data ==> data["nutrients"].Dict?
  }

  /** `usda_data.get("nutrients", {})`. */
  function NutrientsOf(data: map<string, Value>): map<string, Value>
    requires Saveable(data)
  {
    if "nutrients" in data then data["nutrients"].fields else map[]
  }

  /**
   * Python's `str(v)`: strings are kept, None reads "None" and integers are
   * written in decimal; the text of a float or a dictionary is `repr`'s.
   */
  function PyStr(v: Value, repr: Value -> string): (s: string)
    ensures v.Str? ==> s == v.s
    ensures v == Null ==> s == "None"
    ensures v.Int? ==> s == IntToDecimal(v.i)
  {
    match v
    case Str(t) => t
    case Null => "None"
    case Int(i) => IntToDecimal(i)
    case _ => repr(v)
  }

  /** The text of an integer reads back, through `to_float`, as that integer. */
  lemma PyStrOfIntReadsBack(i: int, repr: Value -> string)
    ensures ToFloat(Str(PyStr(Int(i), repr))) == i as real
  {
    ToFloatOfIntToDecimal(i);
  }

  /** `prepare_airtable_record(usda_data)`. */
  function PrepareRecord(data: map<string, Value>, repr: Value -> string): (r: map<string, Value>)
    requires Saveable(data)
    ensures "FDC_ID" in r && r["FDC_ID"].Str?
  {
    var nutrient := NutrientsOf(data);
    map[
      "Product" := GetOr(data, "product_description", Str("")),
      "Brand" := GetOr(data, "brand_name", Str("")),
      "FDC_ID" := Str(PyStr(GetOr(data, "FDC_ID", Str("")), repr)),
      "Ingredients" := GetOr(data, "ingredients", Str("")),
      "USDA Serving Size" := GetOr(data, "serving_size", Str("")),
      "USDA Serving Unit" := GetOr(data, "serving_size_unit", Str("")),
      "USDA Protein (g)" := GetOr(nutrient, "Protein", Int(0)),
      "USDA Sodium (mg)" := GetOr(nutrient, "Sodium", Int(0)),
      "USDA Potassium (mg)" := GetOr(nutrient, "Potassium", Int(0)),
      "USDA Sugar (g)" := GetOr(nutrient, "Sugar", Int(0)),
      "USDA Calories (kcal)" := GetOr(nutrient, "Calories", Int(0)),
      "USDA Total Fat (g)" := GetOr(nutrient, "Total Fat", Int(0)),
      "USDA Fiber (g)" := GetOr(nutrient, "Fiber", Int(0))]
  }

  /** The row always has the same thirteen columns. */
  lemma RecordHasThirteenColumns(data: map<string, Value>, repr: Value -> string)
    requires Saveable(data)
    ensures PrepareRecord(data, repr).Keys == RecordKeys
    ensures |PrepareRecord(data, repr)| == 13
  {
    RecordColumns(data, repr);
    assert PrepareRecord(data, repr).Keys == RecordKeys;
    ThirteenColumns();
  }

  lemma RecordColumns(data: map<string, Value>, repr: Value -> string)
    requires Saveable(data)
    ensures forall k :: k in RecordKeys ==> k in PrepareRecord(data, repr)
    ensures forall k :: k in PrepareRecord(data, repr) ==> k in RecordKeys
  {
  }

  lemma ThirteenColumns()
    ensures |RecordKeys| == 13
  {
    SixTextColumns();
    SevenNutrientColumns();
    ColumnKindsDisjoint();
  }

  lemma ColumnKindsDisjoint()
    ensures TextColumnNames !! NutrientColumnNames
  {
    TextColumnShapes();
    NutrientColumnShapes();
  }

  lemma TextColumnShapes()
    ensures forall k :: k in TextColumnNames ==> |k| == 17 || k[0] != 'U'
  {
  }

  lemma NutrientColumnShapes()
    ensures forall k :: k in NutrientColumnNames ==> |k| != 17 && k[0] == 'U'
  {
  }

  lemma SixTextColumns()
    ensures |TextColumnNames| == 6
  {
    var s := {"Product", "Brand", "FDC_ID", "Ingredients"};
    assert |s| == 4;
    assert "USDA Serving Size" !in s;
    assert |s + {"USDA Serving Size"}| == 5;
    assert "USDA Serving Size"[13] != "USDA Serving Unit"[13];
  }

  lemma SevenNutrientColumns()
    ensures |NutrientColumnNames| == 7
  {
    var s := {"USDA Protein (g)", "USDA Potassium (mg)", "USDA Sugar (g)", "USDA Calories (kcal)", "USDA Total Fat (g)"};
    assert |s| == 5;
    assert "USDA Sodium (mg)"[6] != "USDA Protein (g)"[6];
    assert |s + {"USDA Sodium (mg)"}| == 6;
    assert "USDA Fiber (g)"[5] != "USDA Sugar (g)"[5];
  }

  /** The product, brand and id columns copy their keys of the details, "" when missing; FDC_ID as text. */
  lemma IdentityColumnsRead(data: map<string, Value>, repr: Value -> string)
    requires Saveable(data)
    ensures var r := PrepareRecord(data, repr);
      && r["Product"] == GetOr(data, "product_description", Str(""))
      && r["Brand"] == GetOr(data, "brand_name", Str(""))
      && r["FDC_ID"] == Str(PyStr(GetOr(data, "FDC_ID", Str("")), repr))
  {
  }

  /** The ingredients and serving columns copy their keys of the details, "" when missing. */
  lemma ServingColumnsRead(data: map<string, Value>, repr: Value -> string)
    requires Saveable(data)
    ensures var r := PrepareRecord(data, repr);
      && r["Ingredients"] == GetOr(data, "ingredients", Str(""))
      && r["USDA Serving Size"] == GetOr(data, "serving_size", Str(""))
      && r["USDA Serving Unit"] == GetOr(data, "serving_size_unit", Str(""))
  {
  }

  /** Each nutrient column holds the nutrient's value when it is present and 0 otherwise. */
  lemma NutrientColumnsRead(data: map<string, Value>, repr: Value -> string, i: nat)
    requires Saveable(data) && i < |NutrientColumns|
    ensures var (column, name) := NutrientColumns[i];
      var r := PrepareRecord(data, repr);
      && column in r
      && r[column] == if name in NutrientsOf(data) then NutrientsOf(data)[name] else Int(0)
  {
    var r, n := PrepareRecord(data, repr), NutrientsOf(data);
    if i == 0 {
      assert NutrientColumns[i] == ("USDA Protein (g)", "Protein");
      assert r["USDA Protein (g)"] == GetOr(n, "Protein", Int(0));
    } else if i == 1 {
      assert NutrientColumns[i] == ("USDA Sodium (mg)", "Sodium");
      assert r["USDA Sodium (mg)"] == GetOr(n, "Sodium", Int(0));
    } else if i == 2 {
      assert NutrientColumns[i] == ("USDA Potassium (mg)", "Potassium");
      assert r["USDA Potassium (mg)"] == GetOr(n, "Potassium", Int(0));
    } else if i == 3 {
      assert NutrientColumns[i] == ("USDA Sugar (g)", "Sugar");
      assert r["USDA Sugar (g)"] == GetOr(n, "Sugar", Int(0));
    } else if i == 4 {
      assert NutrientColumns[i] == ("USDA Calories (kcal)", "Calories");
      assert r["USDA Calories (kcal)"] == GetOr(n, "Calories", Int(0));
    } else if i == 5 {
      assert NutrientColumns[i] == ("USDA Total Fat (g)", "Total Fat");
      assert r["USDA Total Fat (g)"] == GetOr(n, "Total Fat", Int(0));
    } else {
      assert NutrientColumns[i] == ("USDA Fiber (g)", "Fiber");
      assert r["USDA Fiber (g)"] == GetOr(n, "Fiber", Int(0));
    }
  }

  /** Without a nutrients dictionary every nutrient column is 0. */
  lemma MissingNutrientsAreZero(data: map<string, Value>, repr: Value -> string, i: nat)
    requires "nutrients" !in data && i < |NutrientColumns|
    ensures NutrientColumns[i].0 in PrepareRecord(data, repr)
    ensures PrepareRecord(data, repr)[NutrientColumns[i].0] == Int(0)
  {
    NutrientColumnsRead(data, repr, i);
  }

  /** The FDC_ID column is the text of the given id, and "" when there is none. */
  lemma FdcIdColumn(data: map<string, Value>, repr: Value -> string)
    requires Saveable(data)
    ensures "FDC_ID" !in data ==> PrepareRecord(data, repr)["FDC_ID"] == Str("")
    ensures "FDC_ID" in data && data["FDC_ID"].Str? ==> PrepareRecord(data, repr)["FDC_ID"] == data["FDC_ID"]
    ensures "FDC_ID" in data && data["FDC_ID"].Int? ==>
      ToFloat(PrepareRecord(data, repr)["FDC_ID"]) == data["FDC_ID"].i as real
  {
    IdentityColumnsRead(data, repr);
    if "FDC_ID" in data && data["FDC_ID"].Int? {
      PyStrOfIntReadsBack(data["FDC_ID"].i, repr);
    }
  }

  /** The row depends on no key of the details dictionary but the seven it reads. */
  lemma RecordReadsOnlyDetails(d1: map<string, Value>, d2: map<string, Value>, repr: Value -> string)
    requires Saveable(d1) && Saveable(d2)
    requires forall k :: k in ReadKeys ==> (k in d1 <==> k in d2) && (k in d1 ==> d1[k] == d2[k])
    ensures PrepareRecord(d1, repr) == PrepareRecord(d2, repr)
  {
    SameLookup(d1, d2, "product_description", Str(""));
    SameLookup(d1, d2, "brand_name", Str(""));
    SameLookup(d1, d2, "FDC_ID", Str(""));
    SameLookup(d1, d2, "ingredients", Str(""));
    SameLookup(d1, d2, "serving_size", Str(""));
    SameLookup(d1, d2, "serving_size_unit", Str(""));
    assert "nutrients" in ReadKeys;
    assert NutrientsOf(d1) == NutrientsOf(d2);
  }

  lemma SameLookup(d1: map<string, Value>, d2: map<string, Value>, k: string, default: Value)
    requires k in ReadKeys
    requires forall k :: k in ReadKeys ==> (k in d1 <==> k in d2) && (k in d1 ==> d1[k] == d2[k])
    ensures GetOr(d1, k, default) == GetOr(d2, k, default)
  {
  }

  /** Saving the details of a found food: the text columns copy the details. */
  lemma RecordOfFoundFood(d: Details, repr: Value -> string)
    ensures Saveable(DetailsRecord(Success(d)))
    ensures var r := PrepareRecord(DetailsRecord(Success(d)), repr);
      && r["Product"] == Str(d.productDescription)
      && r["Brand"] == Str(d.brandName)
      && r["FDC_ID"] == Str(PyStr(d.fdcId, repr))
      && r["Ingredients"] == Str(d.ingredients)
      && r["USDA Serving Size"] == Float(d.servingSize)
      && r["USDA Serving Unit"] == Str(d.servingSizeUnit)
  {
    var data := DetailsRecord(Success(d));
    assert data["product_description"] == Str(d.productDescription) && data["brand_name"] == Str(d.brandName);
    assert data["FDC_ID"] == d.fdcId && data["ingredients"] == Str(d.ingredients);
    assert data["serving_size"] == Float(d.servingSize) && data["serving_size_unit"] == Str(d.servingSizeUnit);
    IdentityColumnsRead(data, repr);
    ServingColumnsRead(data, repr);
  }

  /** Saving the details of a found food: the nutrient columns hold the scaled amounts, 0 for the nutrients not found. */
  lemma NutrientsOfFoundFood(d: Details, repr: Value -> string, i: nat)
    requires i < |NutrientColumns|
    ensures Saveable(DetailsRecord(Success(d)))
    ensures var (column, name) := NutrientColumns[i];
      var r := PrepareRecord(DetailsRecord(Success(d)), repr);
      && column in r
      && r[column] == if name in d.nutrients then Float(d.nutrients[name]) else Int(0)
  {
    var data := DetailsRecord(Success(d));
    assert NutrientsOf(data) == map n | n in d.nutrients :: Float(d.nutrients[n]);
    NutrientColumnsRead(data, repr, i);
  }

  /** Saving the error dictionary of a food not found gives an empty row of zeros. */
  lemma RecordOfMissingFood(repr: Value -> string, i: nat)
    requires i < |NutrientColumns|
    ensures var r := PrepareRecord(DetailsRecord(Failure(FoodNotFound)), repr);
      && r["Product"] == Str("") && r["Brand"] == Str("") && r["FDC_ID"] == Str("")
      && NutrientColumns[i].0 in r && r[NutrientColumns[i].0] == Int(0)
  {
    IdentityColumnsRead(DetailsRecord(Failure(FoodNotFound)), repr);
    MissingNutrientsAreZero(DetailsRecord(Failure(FoodNotFound)), repr, i);
  }
}
