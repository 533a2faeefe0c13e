/**
 * The comparison table of renal_app/logic.py: for every nutrient, the value
 * printed on the label and the value found in USDA, side by side.
 * `init_comparison_data` builds it from a fixed template and
 * `update_comparison_data` re-derives its sides in place from the latest
 * label and USDA dictionaries.
 */
module Comparison {
  import opened Wrappers
  import opened PyValues

  /** One row of the table: `{"usda": ..., "label": ...}`, both keys always present. */
  datatype Entry = Entry(usdaValue: Value, labelValue: Value)

  const Blank := Entry(Null, Null)

  /** The nutrients of the template, in the order it lists them. */
  const TemplateNutrients: seq<string> :=
    ["Protein", "Sodium", "Potassium", "Phosphorus", "Sugar", "Saturated Fat", "Trans Fat", "Calories"]

  /** `COMPARISON_TEMPLATE`. */
  const ComparisonTemplate: map<string, Entry> := map[
    "Protein" := Blank, "Sodium" := Blank, "Potassium" := Blank, "Phosphorus" := Blank,
    "Sugar" := Blank, "Saturated Fat" := Blank, "Trans Fat" := Blank, "Calories" := Blank]

  /** The template has exactly the eight listed nutrients, each with both sides missing. */
  lemma TemplateShape()
    ensures ComparisonTemplate.Keys == set n | n in TemplateNutrients
    ensures |ComparisonTemplate| == |TemplateNutrients| == 8
    ensures forall n :: n in ComparisonTemplate ==> ComparisonTemplate[n] == Blank
  {
    TemplateKeys();
    EightNutrients();
  }

  lemma TemplateKeys()
    ensures ComparisonTemplate.Keys
         == {"Protein", "Sodium", "Potassium", "Phosphorus", "Sugar", "Saturated Fat", "Trans Fat", "Calories"}
         == set n | n in TemplateNutrients
  {
  }

  lemma EightNutrients()
    ensures |{"Protein", "Sodium", "Potassium", "Phosphorus", "Sugar", "Saturated Fat", "Trans Fat", "Calories"}| == 8
  {
    var s6 := {"Protein", "Sodium", "Potassium", "Phosphorus", "Sugar", "Saturated Fat"};
    assert |s6| == 6;
    assert "Trans Fat"[0] != "Potassium"[0];
    assert |s6 + {"Trans Fat"}| == 7;
  }

  /** One row after an update: each side is re-read from its source when that source is given. */
  function UpdatedEntry(e: Entry, nutrient: string,
                        labelVals: Option<map<string, Value>>,
                        usdaNutrients: Option<map<string, Value>>): Entry
  {
    var e' := if Truthy(labelVals) then e.(labelValue := Get(labelVals.value, nutrient)) else e;
    if Truthy(usdaNutrients) then e'.(usdaValue := Get(usdaNutrients.value, nutrient)) else e'
  }

  /** The whole table after an update: every row updated, no row added or removed. */
  function Updated(table: map<string, Entry>,
                   labelVals: Option<map<string, Value>>,
                   usdaNutrients: Option<map<string, Value>>): (r: map<string, Entry>)
    ensures r.Keys == table.Keys
    ensures forall n :: n in r ==>
      r[n].labelValue == (if Truthy(labelVals) then Get(labelVals.value, n) else table[n].labelValue)
    ensures forall n :: n in r ==>
      r[n].usdaValue == (if Truthy(usdaNutrients) then Get(usdaNutrients.value, n) else table[n].usdaValue)
  {
    map n | n in table :: UpdatedEntry(table[n], n, labelVals, usdaNutrients)
  }

  /** The table a session holds; the rows are updated in place. */
  class ComparisonTable {
    var entries: map<string, Entry>

    /** `init_comparison_data()`: a fresh copy of the template. */
    constructor Init()
      ensures entries == ComparisonTemplate
    {
      entries := ComparisonTemplate;
    }
  }

  /**
   * `update_comparison_data(comparison_data, label_vals, usda_nutrients)`.
   * A missing or empty table is replaced by a fresh one from the template and
   * is itself left alone; otherwise the given table is updated and returned.
   */
  method UpdateComparisonData(table: ComparisonTable?,
                              labelVals: Option<map<string, Value>>,
                              usdaNutrients: Option<map<string, Value>>)
    returns (r: ComparisonTable)
    modifies table
    ensures table != null && old(table.entries) != map[] ==>
      r == table && r.entries == Updated(old(table.entries), labelVals, usdaNutrients)
    ensures table == null || old(table.entries) == map[] ==>
      fresh(r) && r.entries == Updated(ComparisonTemplate, labelVals, usdaNutrients)
    ensures table != null && old(table.entries) == map[] ==> table.entries == map[]
  {
    if table == null || table.entries == map[] {
      r := new ComparisonTable.Init();
    } else {
      r := table;
    }
    UpdateRows(r, labelVals, usdaNutrients);
  }

  /** The loop of `update_comparison_data`: every row of `table` re-derived in place. */
  method UpdateRows(table: ComparisonTable,
                    labelVals: Option<map<string, Value>>,
                    usdaNutrients: Option<map<string, Value>>)
    modifies table
    ensures table.entries == Updated(old(table.entries), labelVals, usdaNutrients)
  {
    ghost var start := table.entries;
    var pending := table.entries.Keys;
    while pending != {}
      invariant pending <= start.Keys == table.entries.Keys
      invariant forall n :: n in start && n !in pending ==>
        table.entries[n] == UpdatedEntry(start[n], n, labelVals, usdaNutrients)
      invariant forall n :: n in pending ==> table.entries[n] == start[n]
      decreases pending
    {
      var n :| n in pending;
      if Truthy(labelVals) {
        table.entries := table.entries[n := table.entries[n].(labelValue := Get(labelVals.value, n))];
      }
      if Truthy(usdaNutrients) {
        table.entries := table.entries[n := table.entries[n].(usdaValue := Get(usdaNutrients.value, n))];
      }
      assert table.entries[n] == UpdatedEntry(start[n], n, labelVals, usdaNutrients);
      pending := pending - {n};
    }
    assert table.entries == Updated(start, labelVals, usdaNutrients);
  }

  /** Without label or USDA values (None or empty) an update changes nothing. */
  lemma UpdateWithoutDataIsNoOp(table: map<string, Entry>, labelVals: Option<map<string, Value>>,
                                usdaNutrients: Option<map<string, Value>>)
    requires !Truthy(labelVals) && !Truthy(usdaNutrients)
    ensures Updated(table, labelVals, usdaNutrients) == table
  {
  }

  /** Repeating an update with the same data changes nothing more. */
  lemma UpdateIsIdempotent(table: map<string, Entry>, labelVals: Option<map<string, Value>>,
                           usdaNutrients: Option<map<string, Value>>)
    ensures var once := Updated(table, labelVals, usdaNutrients);
      Updated(once, labelVals, usdaNutrients) == once
  {
  }

  /** Reading the label first and the USDA record later gives the table one combined update gives. */
  lemma UpdatesCompose(table: map<string, Entry>, labelVals: Option<map<string, Value>>,
                       usdaNutrients: Option<map<string, Value>>)
    ensures Updated(Updated(table, labelVals, None), None, usdaNutrients)
         == Updated(table, labelVals, usdaNutrients)
  {
  }

  /**
   * When both sources are given the old contents do not matter: no stale value
   * survives, only the key set counts.
   */
  lemma UpdateForgetsStaleValues(t1: map<string, Entry>, t2: map<string, Entry>,
                                 labelVals: Option<map<string, Value>>,
                                 usdaNutrients: Option<map<string, Value>>)
    requires t1.Keys == t2.Keys
    requires Truthy(labelVals) && Truthy(usdaNutrients)
    ensures Updated(t1, labelVals, usdaNutrients) == Updated(t2, labelVals, usdaNutrients)
  {
  }

  /**
   * Keys of the source dictionaries that are not in the table have no effect:
   * two label dictionaries that agree on the table's keys give the same table.
   */
  lemma UpdateIgnoresExtraKeys(table: map<string, Entry>,
                               l1: map<string, Value>, l2: map<string, Value>,
                               usdaNutrients: Option<map<string, Value>>)
    requires |l1| > 0 && |l2| > 0
    requires forall n :: n in table ==> Get(l1, n) == Get(l2, n)
    ensures Updated(table, Some(l1), usdaNutrients) == Updated(table, Some(l2), usdaNutrients)
  {
  }

  /**
   * A non-empty label dictionary that names none of the table's nutrients still
   * counts as given: it clears every label side.
   */
  lemma UnrelatedLabelsClear(table: map<string, Entry>, labelVals: map<string, Value>, n: string)
    requires |labelVals| > 0 && labelVals.Keys !! table.Keys
    requires n in table
    ensures Updated(table, Some(labelVals), None)[n] == table[n].(labelValue := Null)
  {
  }
}
