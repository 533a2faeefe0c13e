/**
 * The tiered verdict engine (`get_audit_details` of renal_app/logic.py).
 * It walks the critical nutrients in their fixed order, flags every label or
 * USDA value above the nutrient's safety limit, notes every nutrient whose
 * USDA value lies more than 20 percent above its label value, and derives a
 * colour: red when anything was flagged, yellow when only discrepancies were
 * noted, green otherwise.
 *
 * The lists are defined over a `Reader`, the amount the audit reads for each
 * nutrient and side; the verdict on a table uses the reader that applies
 * `to_float` to the table's rows.
 */
module Audit {
  import opened Wrappers
  import opened PyValues
  import opened Coercion
  import opened Delta
  import opened Comparison

  /** `CRITICAL_NUTRIENTS`, in the order they are examined. */
  const CriticalNutrients: seq<string> :=
    ["Protein", "Sodium", "Potassium", "Phosphorus", "Sugar", "Saturated Fat", "Trans Fat"]

  /** `SAFETY_LIMITS`: the largest safe amount per serving (g, or mg for the minerals). */
  const SafetyLimits: map<string, real> := map[
    "Protein" := 15.0, "Sodium" := 140.0, "Potassium" := 200.0, "Phosphorus" := 100.0,
    "Sugar" := 15.0, "Saturated Fat" := 5.0, "Trans Fat" := 0.1]

  /**
   * Every critical nutrient has a safety limit and every limit belongs to a
   * critical nutrient; each is listed once, and calories are in neither.
   */
  lemma CriticalNutrientsHaveLimits()
    ensures forall n :: n in CriticalNutrients <==> n in SafetyLimits
    ensures "Calories" !in SafetyLimits && "Calories" !in CriticalNutrients
  {
  }

  /** `units`: the unit each nutrient is measured in. */
  const Units: map<string, string> := map[
    "Protein" := "g", "Sodium" := "mg", "Potassium" := "mg", "Phosphorus" := "mg",
    "Sugar" := "g", "Saturated Fat" := "g", "Trans Fat" := "g", "Calories" := "kcal"]

  /** A delta above this many percent is a discrepancy. */
  const DiscrepancyThreshold: real := 20.0

  const SafeStatus := "Renal Safe"
  const HighLoadStatus := "High Renal Load"
  const MismatchStatus := "Data Mismatch"

  datatype Color = Green | Yellow | Red

  /** Where a flagged value came from. */
  datatype Side = LabelSide | UsdaSide

  /** A safety-limit violation: the value, the limit it exceeds, the excess and the unit. */
  datatype Flag = Flag(side: Side, nutrient: string, amount: real, limit: real, excess: real, unit: string)

  /** A label-versus-USDA mismatch, citing both values. */
  datatype Discrepancy = Discrepancy(nutrient: string, labelAmount: real, usdaAmount: real)

  datatype AuditReport = AuditReport(status: string, color: Color, flags: seq<Flag>, discrepancies: seq<Discrepancy>)

  /** `data.get(nutrient, {"label": None, "usda": None})`. */
  function Info(data: map<string, Entry>, nutrient: string): Entry {
    if nutrient in data then data[nutrient] else Blank
  }

  /** `units.get(nutrient, '')`. */
  function UnitOf(nutrient: string): string {
    if nutrient in Units then Units[nutrient] else ""
  }

  /** `SAFETY_LIMITS.get(nutrient)`. */
  function LimitOf(nutrient: string): Option<real> {
    if nutrient in SafetyLimits then Some(SafetyLimits[nutrient]) else None
  }

  /** The limit when it is truthy: present and non-zero. */
  function ActiveLimit(nutrient: string): Option<real> {
    var limit := LimitOf(nutrient);
    if limit.Some? && limit.value != 0.0 then limit else None
  }

  /** `to_float` of one side of a nutrient's row: the value the audit compares. */
  function Amount(data: map<string, Entry>, nutrient: string, side: Side): real {
    match side
    case LabelSide => ToFloat(Info(data, nutrient).labelValue)
    case UsdaSide => ToFloat(Info(data, nutrient).usdaValue)
  }

  /** The amount read for each nutrient and side. */
  type Reader = (string, Side) -> real

  /** The reader of a comparison table. */
  function ReaderOf(data: map<string, Entry>): (read: Reader)
    ensures forall nutrient, side :: read(nutrient, side) == Amount(data, nutrient, side)
  {
    (nutrient: string, side: Side) => Amount(data, nutrient, side)
  }

  /** The flag for one side of one nutrient, when its amount exceeds the limit. */
  function FlagFor(side: Side, nutrient: string, amount: real): seq<Flag> {
    var limit := ActiveLimit(nutrient);
    if limit.Some? && amount > limit.value
    then [Flag(side, nutrient, amount, limit.value, amount - limit.value, UnitOf(nutrient))]
    else []
  }

  /** The flags one nutrient raises: first for its label value, then for its USDA value. */
  function NutrientFlags(read: Reader, nutrient: string): (r: seq<Flag>)
    ensures |r| <= 2
    ensures forall f :: f in r ==> f.nutrient == nutrient && ActiveLimit(nutrient) == Some(f.limit)
    ensures forall f :: f in r ==> f.amount > f.limit && f.excess == f.amount - f.limit
    ensures |r| == 2 ==> r[0].side == LabelSide && r[1].side == UsdaSide
  {
    FlagFor(LabelSide, nutrient, read(nutrient, LabelSide)) + FlagFor(UsdaSide, nutrient, read(nutrient, UsdaSide))
  }

  /** Whether `delta and delta > 20` holds for the zero-safe label and USDA values. */
  predicate Mismatch(labelAmount: real, usdaAmount: real) {
    var delta := CalculateDelta(Float(labelAmount), Float(usdaAmount));
    delta.Some? && delta.value != 0.0 && delta.value > DiscrepancyThreshold
  }

  /** The discrepancy one nutrient raises, if any. */
  function NutrientDiscrepancies(read: Reader, nutrient: string): seq<Discrepancy> {
    var l := read(nutrient, LabelSide);
    var u := read(nutrient, UsdaSide);
    if Mismatch(l, u) then [Discrepancy(nutrient, l, u)] else []
  }

  /** All flags of the nutrients `ns`, in their order. */
  function FlagsOf(read: Reader, ns: seq<string>): seq<Flag> {
    if ns == [] then [] else FlagsOf(read, ns[..|ns| - 1]) + NutrientFlags(read, ns[|ns| - 1])
  }

  /** All discrepancies of the nutrients `ns`, in their order. */
  function DiscrepanciesOf(read: Reader, ns: seq<string>): seq<Discrepancy> {
    if ns == [] then [] else DiscrepanciesOf(read, ns[..|ns| - 1]) + NutrientDiscrepancies(read, ns[|ns| - 1])
  }

  /** The severity tier: red for any flag, else yellow for any discrepancy, else green. */
  function ColorFor(flags: seq<Flag>, discrepancies: seq<Discrepancy>): Color {
    if flags != [] then Red else if discrepancies != [] then Yellow else Green
  }

  function StatusFor(c: Color): string {
    match c
    case Red => HighLoadStatus
    case Yellow => MismatchStatus
    case Green => SafeStatus
  }

  /** The report after the first `k` critical nutrients have been examined. */
  function ReportAfter(read: Reader, k: nat): AuditReport
    requires k <= |CriticalNutrients|
  {
    var flags := FlagsOf(read, CriticalNutrients[..k]);
    var discrepancies := DiscrepanciesOf(read, CriticalNutrients[..k]);
    var c := ColorFor(flags, discrepancies);
    AuditReport(StatusFor(c), c, flags, discrepancies)
  }

  /** The report once every critical nutrient of the table has been examined. */
  function Verdict(data: map<string, Entry>): (r: AuditReport)
    ensures r.color == Red <==> r.flags != []
    ensures r.color == Yellow <==> r.flags == [] && r.discrepancies != []
    ensures r.color == Green <==> r.flags == [] && r.discrepancies == []
    ensures r.status == match r.color
      case Red => "High Renal Load"
      case Yellow => "Data Mismatch"
      case Green => "Renal Safe"
  {
    ReportAfter(ReaderOf(data), |CriticalNutrients|)
  }

  /** `get_audit_details(data)`. */
  method GetAuditDetails(data: map<string, Entry>) returns (report: AuditReport)
    ensures report == Verdict(data)
    ensures report.color == Red <==> report.flags != []
    ensures report.color == Yellow <==> report.flags == [] && report.discrepancies != []
    ensures report.color == Green <==> report.flags == [] && report.discrepancies == []
    ensures report.color == Green ==> report.status == "Renal Safe"
    ensures report.color == Red ==> report.status == "High Renal Load"
  {
    var status := SafeStatus;
    var color := Green;
    var flags: seq<Flag> := [];
    var discrepancies: seq<Discrepancy> := [];
    for i := 0 to |CriticalNutrients|
      invariant flags == FlagsOf(ReaderOf(data), CriticalNutrients[..i])
      invariant discrepancies == DiscrepanciesOf(ReaderOf(data), CriticalNutrients[..i])
      invariant color == ColorFor(flags, discrepancies)
      invariant status == StatusFor(color)
    {
      ExamineOneMore(ReaderOf(data), i);
      flags, discrepancies, color, status := ExamineNutrient(data, CriticalNutrients[i], flags, discrepancies, color, status);
    }
    assert CriticalNutrients[..|CriticalNutrients|] == CriticalNutrients;
    report := AuditReport(status, color, flags, discrepancies);
  }

  /** The body of the loop of `get_audit_details`: one nutrient examined, the verdict so far updated. */
  method ExamineNutrient(data: map<string, Entry>, nutrient: string,
                         flags0: seq<Flag>, discrepancies0: seq<Discrepancy>, color0: Color, status0: string)
    returns (flags: seq<Flag>, discrepancies: seq<Discrepancy>, color: Color, status: string)
    requires color0 == ColorFor(flags0, discrepancies0) && status0 == StatusFor(color0)
    ensures flags == flags0 + NutrientFlags(ReaderOf(data), nutrient)
    ensures discrepancies == discrepancies0 + NutrientDiscrepancies(ReaderOf(data), nutrient)
    ensures color == ColorFor(flags, discrepancies) && status == StatusFor(color)
  {
    var info := Info(data, nutrient);
    var lVal := ToFloat(info.labelValue);
    var uVal := ToFloat(info.usdaValue);
    var limit := LimitOf(nutrient);
    assert ReaderOf(data)(nutrient, LabelSide) == lVal && ReaderOf(data)(nutrient, UsdaSide) == uVal;

    var flags1;
    flags1, color, status := CheckLimit(LabelSide, nutrient, lVal, limit, flags0, color0, status0);
    flags, color, status := CheckLimit(UsdaSide, nutrient, uVal, limit, flags1, color, status);
    AppendAssoc(flags0, FlagFor(LabelSide, nutrient, lVal), FlagFor(UsdaSide, nutrient, uVal));

    discrepancies, color, status := CheckDelta(nutrient, lVal, uVal, discrepancies0, color, status);
  }

  /** The `if delta and delta > 20` block: a discrepancy, and yellow unless already red. */
  method CheckDelta(nutrient: string, lVal: real, uVal: real,
                    discrepancies0: seq<Discrepancy>, color0: Color, status0: string)
    returns (discrepancies: seq<Discrepancy>, color: Color, status: string)
    ensures discrepancies == discrepancies0 + (if Mismatch(lVal, uVal) then [Discrepancy(nutrient, lVal, uVal)] else [])
    ensures Mismatch(lVal, uVal) && color0 != Red ==> color == Yellow && status == MismatchStatus
    ensures !Mismatch(lVal, uVal) || color0 == Red ==> color == color0 && status == status0
  {
    discrepancies, color, status := discrepancies0, color0, status0;
    var delta := CalculateDelta(Float(lVal), Float(uVal));
    if delta.Some? && delta.value != 0.0 && delta.value > 20.0 {
      discrepancies := discrepancies + [Discrepancy(nutrient, lVal, uVal)];
      if color != Red {
        status := MismatchStatus;
        color := Yellow;
      }
    }
  }

  /** One `if limit and value > limit` block: a flag for an amount over the limit, and the status turned red. */
  method CheckLimit(side: Side, nutrient: string, amount: real, limit: Option<real>,
                    flags0: seq<Flag>, color0: Color, status0: string)
    returns (flags: seq<Flag>, color: Color, status: string)
    requires limit == LimitOf(nutrient)
    ensures flags == flags0 + FlagFor(side, nutrient, amount)
    ensures FlagFor(side, nutrient, amount) != [] ==> color == Red && status == HighLoadStatus
    ensures FlagFor(side, nutrient, amount) == [] ==> color == color0 && status == status0
  {
    flags, color, status := flags0, color0, status0;
    if limit.Some? && limit.value != 0.0 && amount > limit.value {
      var excess := amount - limit.value;
      flags := flags + [Flag(side, nutrient, amount, limit.value, excess, UnitOf(nutrient))];
      status := HighLoadStatus;
      color := Red;
    }
  }

  /** On numbers `_coerce_number` and `to_float` agree; they differ only in what they make of the rest. */
  lemma CoerceNumberAgreesWithToFloat(v: Value)
    ensures CoerceNumber(v).Some? ==> CoerceNumber(v).value == ToFloat(v)
    ensures CoerceNumber(v).None? && !v.Str? ==> ToFloat(v) == 0.0
  {
  }

  /** The lists after `i + 1` nutrients are those after `i`, extended by nutrient `i`'s own. */
  lemma ExamineOneMore(read: Reader, i: nat)
    requires i < |CriticalNutrients|
    ensures FlagsOf(read, CriticalNutrients[..i + 1])
         == FlagsOf(read, CriticalNutrients[..i]) + NutrientFlags(read, CriticalNutrients[i])
    ensures DiscrepanciesOf(read, CriticalNutrients[..i + 1])
         == DiscrepanciesOf(read, CriticalNutrients[..i]) + NutrientDiscrepancies(read, CriticalNutrients[i])
  {
    assert CriticalNutrients[..i + 1] == CriticalNutrients[..i] + [CriticalNutrients[i]];
    ExtendByOne(read, CriticalNutrients[..i], CriticalNutrients[i]);
  }

  /** Appending a nutrient appends its own flags and discrepancies. */
  lemma ExtendByOne(read: Reader, ns: seq<string>, nutrient: string)
    ensures FlagsOf(read, ns + [nutrient]) == FlagsOf(read, ns) + NutrientFlags(read, nutrient)
    ensures DiscrepanciesOf(read, ns + [nutrient]) == DiscrepanciesOf(read, ns) + NutrientDiscrepancies(read, nutrient)
  {
    assert (ns + [nutrient])[..|ns|] == ns;
  }

  lemma AppendAssoc<T>(a: seq<T>, b: seq<T>, c: seq<T>)
    ensures (a + b) + c == a + (b + c)
  {
  }

  function Severity(c: Color): nat {
    match c
    case Green => 0
    case Yellow => 1
    case Red => 2
  }

  /** Examining more nutrients only extends the lists found so far. */
  lemma {:induction false} ReportsGrow(read: Reader, i: nat, j: nat)
    requires i <= j <= |CriticalNutrients|
    ensures FlagsOf(read, CriticalNutrients[..i]) <= FlagsOf(read, CriticalNutrients[..j])
    ensures DiscrepanciesOf(read, CriticalNutrients[..i]) <= DiscrepanciesOf(read, CriticalNutrients[..j])
  {
    if i < j {
      ReportsGrow(read, i, j - 1);
      ExamineOneMore(read, j - 1);
    }
  }

  /**
   * The colour never improves while the nutrients are examined: once red it
   * stays red, and yellow never turns back to green.
   */
  lemma RedIsSticky(read: Reader, i: nat, j: nat)
    requires i <= j <= |CriticalNutrients|
    ensures Severity(ReportAfter(read, i).color) <= Severity(ReportAfter(read, j).color)
    ensures ReportAfter(read, i).color == Red ==>
      ReportAfter(read, j).color == Red && ReportAfter(read, j).status == "High Renal Load"
  {
    ReportsGrow(read, i, j);
  }

  /** Whether one side of a nutrient exceeds its (truthy) safety limit. */
  predicate Exceeds(read: Reader, nutrient: string, side: Side) {
    ActiveLimit(nutrient).Some? && read(nutrient, side) > ActiveLimit(nutrient).value
  }

  /** What a flag of the audit says: the side's amount, its limit, the excess and the unit. */
  predicate Describes(read: Reader, f: Flag) {
    && Exceeds(read, f.nutrient, f.side)
    && f.amount == read(f.nutrient, f.side)
    && f.limit == ActiveLimit(f.nutrient).value
    && f.excess == f.amount - f.limit
    && f.unit == UnitOf(f.nutrient)
  }

  /** Each flag of one nutrient describes that nutrient, and one side is flagged exactly when it exceeds the limit. */
  lemma NutrientFlagsExact(read: Reader, nutrient: string, side: Side)
    ensures forall f :: f in NutrientFlags(read, nutrient) ==> f.nutrient == nutrient && Describes(read, f)
    ensures (exists f :: f in NutrientFlags(read, nutrient) && f.side == side) <==> Exceeds(read, nutrient, side)
  {
    var a := FlagFor(LabelSide, nutrient, read(nutrient, LabelSide));
    var b := FlagFor(UsdaSide, nutrient, read(nutrient, UsdaSide));
    assert NutrientFlags(read, nutrient) == a + b;
    if Exceeds(read, nutrient, side) {
      var f := if side == LabelSide then a[0] else b[0];
      assert f in NutrientFlags(read, nutrient) && f.side == side;
    }
  }

  /**
   * Soundness and completeness of the flags of the nutrients `ns`: every flag
   * describes a nutrient of `ns`, and a nutrient of `ns` is flagged on a side
   * exactly when that side exceeds the limit.
   */
  lemma {:induction false} FlagsOfExact(read: Reader, ns: seq<string>, nutrient: string, side: Side)
    ensures forall f :: f in FlagsOf(read, ns) ==> f.nutrient in ns && Describes(read, f)
    ensures (exists f :: f in FlagsOf(read, ns) && f.nutrient == nutrient && f.side == side)
        <==> nutrient in ns && Exceeds(read, nutrient, side)
  {
    if ns != [] {
      var init, last := ns[..|ns| - 1], ns[|ns| - 1];
      assert ns == init + [last];
      FlagsOfExact(read, init, nutrient, side);
      NutrientFlagsExact(read, last, side);
      if nutrient in ns && Exceeds(read, nutrient, side) && nutrient !in init {
        assert nutrient == last;
        var f :| f in NutrientFlags(read, last) && f.side == side;
        assert f in FlagsOf(read, ns);
      }
    }
  }

  /**
   * The verdict's flags are exactly the sides of critical nutrients whose
   * `to_float` value is above their limits, each with its amount, limit,
   * excess and unit.
   */
  lemma VerdictFlags(data: map<string, Entry>, nutrient: string, side: Side)
    ensures forall f :: f in Verdict(data).flags ==>
      f.nutrient in CriticalNutrients && Describes(ReaderOf(data), f) && f.amount == Amount(data, f.nutrient, f.side)
    ensures (exists f :: f in Verdict(data).flags && f.nutrient == nutrient && f.side == side)
        <==> nutrient in CriticalNutrients && ActiveLimit(nutrient).Some?
             && Amount(data, nutrient, side) > ActiveLimit(nutrient).value
  {
    assert CriticalNutrients[..|CriticalNutrients|] == CriticalNutrients;
    FlagsOfExact(ReaderOf(data), CriticalNutrients, nutrient, side);
  }

  /**
   * What "the delta exceeds 20 percent" means: a positive label value with the
   * USDA value above 1.2 times it, or a negative label value with the USDA value
   * below 1.2 times it. A zero label never mismatches.
   */
  lemma MismatchMeaning(labelAmount: real, usdaAmount: real)
    ensures Mismatch(labelAmount, usdaAmount) <==>
      (labelAmount > 0.0 && usdaAmount > 1.2 * labelAmount)
      || (labelAmount < 0.0 && usdaAmount < 1.2 * labelAmount)
  {
    if labelAmount != 0.0 {
      var d := CalculateDelta(Float(labelAmount), Float(usdaAmount)).value;
      assert usdaAmount == labelAmount * (1.0 + d / 100.0);
      assert usdaAmount - 1.2 * labelAmount == labelAmount * (d - 20.0) / 100.0;
      if labelAmount > 0.0 {
        DeltaAbove(labelAmount, usdaAmount, 20.0);
      } else if d > 20.0 {
        assert labelAmount * (d - 20.0) < 0.0;
      } else {
        assert labelAmount * (d - 20.0) >= 0.0;
      }
    }
  }

  /** Whether the audit notes a discrepancy for the nutrient. */
  predicate Mismatched(read: Reader, nutrient: string) {
    Mismatch(read(nutrient, LabelSide), read(nutrient, UsdaSide))
  }

  /**
   * Soundness and completeness of the discrepancies of the nutrients `ns`: each
   * cites both amounts of a nutrient of `ns` that mismatches, and every such
   * nutrient is cited.
   */
  lemma {:induction false} DiscrepanciesOfExact(read: Reader, ns: seq<string>, nutrient: string)
    ensures forall d :: d in DiscrepanciesOf(read, ns) ==>
      && d.nutrient in ns && Mismatched(read, d.nutrient)
      && d.labelAmount == read(d.nutrient, LabelSide)
      && d.usdaAmount == read(d.nutrient, UsdaSide)
    ensures (exists d :: d in DiscrepanciesOf(read, ns) && d.nutrient == nutrient)
        <==> nutrient in ns && Mismatched(read, nutrient)
  {
    if ns != [] {
      var init, last := ns[..|ns| - 1], ns[|ns| - 1];
      assert ns == init + [last];
      DiscrepanciesOfExact(read, init, nutrient);
      if nutrient in ns && Mismatched(read, nutrient) && nutrient !in init {
        assert nutrient == last;
        assert NutrientDiscrepancies(read, last)[0] in DiscrepanciesOf(read, ns);
      }
    }
  }

  /** The verdict's discrepancies are exactly the critical nutrients whose delta exceeds 20 percent. */
  lemma VerdictDiscrepancies(data: map<string, Entry>, nutrient: string)
    ensures forall d :: d in Verdict(data).discrepancies ==>
      && d.nutrient in CriticalNutrients
      && d.labelAmount == Amount(data, d.nutrient, LabelSide)
      && d.usdaAmount == Amount(data, d.nutrient, UsdaSide)
      && Mismatch(d.labelAmount, d.usdaAmount)
    ensures (exists d :: d in Verdict(data).discrepancies && d.nutrient == nutrient)
        <==> nutrient in CriticalNutrients
             && Mismatch(Amount(data, nutrient, LabelSide), Amount(data, nutrient, UsdaSide))
  {
    assert CriticalNutrients[..|CriticalNutrients|] == CriticalNutrients;
    DiscrepanciesOfExact(ReaderOf(data), CriticalNutrients, nutrient);
  }

  /** At most two flags and one discrepancy per nutrient examined. */
  lemma {:induction false} ReportBounds(read: Reader, ns: seq<string>)
    ensures |FlagsOf(read, ns)| <= 2 * |ns|
    ensures |DiscrepanciesOf(read, ns)| <= |ns|
  {
    if ns != [] {
      ReportBounds(read, ns[..|ns| - 1]);
    }
  }

  /** A verdict has at most 14 flags and 7 discrepancies. */
  lemma VerdictBounds(data: map<string, Entry>)
    ensures |Verdict(data).flags| <= 14 && |Verdict(data).discrepancies| <= 7
  {
    ReportBounds(ReaderOf(data), CriticalNutrients[..|CriticalNutrients|]);
  }

  /** Readers that agree on the nutrients `ns` give the same flags and discrepancies for them. */
  lemma {:induction false} SameReadingsSameReport(r1: Reader, r2: Reader, ns: seq<string>)
    requires forall n, side :: n in ns ==> r1(n, side) == r2(n, side)
    ensures FlagsOf(r1, ns) == FlagsOf(r2, ns)
    ensures DiscrepanciesOf(r1, ns) == DiscrepanciesOf(r2, ns)
  {
    if ns != [] {
      SameReadingsSameReport(r1, r2, ns[..|ns| - 1]);
      var last := ns[|ns| - 1];
      assert last in ns;
      assert r1(last, LabelSide) == r2(last, LabelSide) && r1(last, UsdaSide) == r2(last, UsdaSide);
    }
  }

  /** Only the rows of the critical nutrients matter to the verdict. */
  lemma OnlyCriticalMatter(d1: map<string, Entry>, d2: map<string, Entry>)
    requires forall n :: n in CriticalNutrients ==> Info(d1, n) == Info(d2, n)
    ensures Verdict(d1) == Verdict(d2)
  {
    assert CriticalNutrients[..|CriticalNutrients|] == CriticalNutrients;
    forall n, side | n in CriticalNutrients
      ensures ReaderOf(d1)(n, side) == ReaderOf(d2)(n, side)
    {
      assert Info(d1, n) == Info(d2, n);
    }
    SameReadingsSameReport(ReaderOf(d1), ReaderOf(d2), CriticalNutrients);
  }

  /** Calories is never examined: changing or removing its row changes no verdict. */
  lemma CaloriesNeverExamined(data: map<string, Entry>, e: Entry)
    ensures Verdict(data["Calories" := e]) == Verdict(data)
    ensures Verdict(data - {"Calories"}) == Verdict(data)
  {
    assert "Calories" !in CriticalNutrients;
    OnlyCriticalMatter(data["Calories" := e], data);
    OnlyCriticalMatter(data - {"Calories"}, data);
  }

  /** Every safety limit is positive, so every limit is truthy. */
  lemma LimitsArePositive(nutrient: string)
    ensures LimitOf(nutrient).Some? ==> LimitOf(nutrient).value > 0.0
    ensures ActiveLimit(nutrient) == LimitOf(nutrient)
  {
  }

  /** A nutrient read as zero on both sides raises neither flag nor discrepancy. */
  lemma ZeroReadingIsQuiet(read: Reader, nutrient: string)
    requires read(nutrient, LabelSide) == 0.0 && read(nutrient, UsdaSide) == 0.0
    ensures NutrientFlags(read, nutrient) == []
    ensures NutrientDiscrepancies(read, nutrient) == []
  {
    LimitsArePositive(nutrient);
  }

  /** A row that is absent, or has both sides None, reads as zero on both sides. */
  lemma BlankRowReadsZero(data: map<string, Entry>, nutrient: string)
    requires Info(data, nutrient) == Blank
    ensures ReaderOf(data)(nutrient, LabelSide) == 0.0 && ReaderOf(data)(nutrient, UsdaSide) == 0.0
  {
    ToFloatOfNumbers(0, 0.0);
  }

  /** When every nutrient but one reads as zero, the others stay quiet. */
  lemma OnlyOneRow(read: Reader, ns: seq<string>, nutrient: string)
    requires forall n, side :: n in ns && n != nutrient ==> read(n, side) == 0.0
    requires forall i, j :: 0 <= i < j < |ns| ==> ns[i] != ns[j]
    ensures FlagsOf(read, ns) == if nutrient in ns then NutrientFlags(read, nutrient) else []
    ensures DiscrepanciesOf(read, ns) == if nutrient in ns then NutrientDiscrepancies(read, nutrient) else []
  {
    OnlyOneRowFlags(read, ns, nutrient);
    OnlyOneRowDiscrepancies(read, ns, nutrient);
  }

  lemma {:induction false} OnlyOneRowFlags(read: Reader, ns: seq<string>, nutrient: string)
    requires forall n, side :: n in ns && n != nutrient ==> read(n, side) == 0.0
    requires forall i, j :: 0 <= i < j < |ns| ==> ns[i] != ns[j]
    ensures FlagsOf(read, ns) == if nutrient in ns then NutrientFlags(read, nutrient) else []
  {
    if ns != [] {
      var init, last := ns[..|ns| - 1], ns[|ns| - 1];
      assert ns == init + [last];
      InitOfDistinct(ns);
      OnlyOneRowFlags(read, init, nutrient);
      if last != nutrient {
        assert read(last, LabelSide) == 0.0 && read(last, UsdaSide) == 0.0;
        ZeroReadingIsQuiet(read, last);
      } else {
        assert nutrient !in init;
      }
    }
  }

  lemma {:induction false} OnlyOneRowDiscrepancies(read: Reader, ns: seq<string>, nutrient: string)
    requires forall n, side :: n in ns && n != nutrient ==> read(n, side) == 0.0
    requires forall i, j :: 0 <= i < j < |ns| ==> ns[i] != ns[j]
    ensures DiscrepanciesOf(read, ns) == if nutrient in ns then NutrientDiscrepancies(read, nutrient) else []
  {
    if ns != [] {
      var init, last := ns[..|ns| - 1], ns[|ns| - 1];
      assert ns == init + [last];
      InitOfDistinct(ns);
      OnlyOneRowDiscrepancies(read, init, nutrient);
      assert DiscrepanciesOf(read, ns) == DiscrepanciesOf(read, init) + NutrientDiscrepancies(read, last);
      if last != nutrient {
        ZeroReadingIsQuiet(read, last);
      } else {
        assert nutrient !in init;
      }
    }
  }

  /** Dropping the last element of a list without repetitions keeps it so; what remains is drawn from the list and misses its last element. */
  lemma InitOfDistinct(ns: seq<string>)
    requires ns != []
    requires forall i, j :: 0 <= i < j < |ns| ==> ns[i] != ns[j]
    ensures var init := ns[..|ns| - 1];
      && (forall i, j :: 0 <= i < j < |init| ==> init[i] != init[j])
      && (forall n :: n in init ==> n in ns)
      && ns[|ns| - 1] !in init
  {
    var init := ns[..|ns| - 1];
    forall i, j | 0 <= i < j < |init| ensures init[i] != init[j] {
      assert init[i] == ns[i] && init[j] == ns[j];
    }
    forall i | 0 <= i < |init| ensures init[i] != ns[|ns| - 1] {
      assert init[i] == ns[i];
    }
  }

  /** With every critical row but one blank, the verdict is that nutrient's own findings. */
  lemma VerdictOfOneRow(data: map<string, Entry>, nutrient: string)
    requires nutrient in CriticalNutrients
    requires forall n :: n in CriticalNutrients && n != nutrient ==> Info(data, n) == Blank
    ensures Verdict(data).flags == NutrientFlags(ReaderOf(data), nutrient)
    ensures Verdict(data).discrepancies == NutrientDiscrepancies(ReaderOf(data), nutrient)
  {
    assert CriticalNutrients[..|CriticalNutrients|] == CriticalNutrients;
    forall n, side | n in CriticalNutrients && n != nutrient
      ensures ReaderOf(data)(n, side) == 0.0
    {
      BlankRowReadsZero(data, n);
    }
    OnlyOneRow(ReaderOf(data), CriticalNutrients, nutrient);
  }

  /** The empty table and the template table give the green "Renal Safe" verdict. */
  lemma EmptyTablesAreSafe(data: map<string, Entry>)
    requires data == map[] || data == ComparisonTemplate
    ensures Verdict(data) == AuditReport("Renal Safe", Green, [], [])
  {
    forall n | n in CriticalNutrients
      ensures Info(data, n) == Blank
    {
    }
    VerdictOfOneRow(data, "Protein");
    BlankRowReadsZero(data, "Protein");
    ZeroReadingIsQuiet(ReaderOf(data), "Protein");
  }

  /** Sodium at 300 mg on the label and 250 mg in USDA, no other critical data: both sides flagged, red. */
  lemma SodiumOverBothLimits(data: map<string, Entry>)
    requires Info(data, "Sodium") == Entry(Int(250), Int(300))
    requires forall n :: n in CriticalNutrients && n != "Sodium" ==> Info(data, n) == Blank
    ensures var v := Verdict(data);
      && v.flags == [Flag(LabelSide, "Sodium", 300.0, 140.0, 160.0, "mg"),
                     Flag(UsdaSide, "Sodium", 250.0, 140.0, 110.0, "mg")]
      && v.discrepancies == []
      && v.color == Red && v.status == "High Renal Load"
  {
    ReadsWhole(data, "Sodium", 250, 300);
    VerdictOfOneRow(data, "Sodium");
    SodiumFlags(ReaderOf(data));
  }

  /** The sodium row of that scenario, whatever table it was read from. */
  lemma SodiumFlags(read: Reader)
    requires read("Sodium", LabelSide) == 300.0 && read("Sodium", UsdaSide) == 250.0
    ensures NutrientFlags(read, "Sodium") == [Flag(LabelSide, "Sodium", 300.0, 140.0, 160.0, "mg"),
                                              Flag(UsdaSide, "Sodium", 250.0, 140.0, 110.0, "mg")]
    ensures NutrientDiscrepancies(read, "Sodium") == []
  {
    MismatchMeaning(300.0, 250.0);
  }

  /** A row holding two whole numbers reads as those numbers. */
  lemma ReadsWhole(data: map<string, Entry>, nutrient: string, inUsda: int, onLabel: int)
    requires Info(data, nutrient) == Entry(Int(inUsda), Int(onLabel))
    ensures ReaderOf(data)(nutrient, LabelSide) == onLabel as real
    ensures ReaderOf(data)(nutrient, UsdaSide) == inUsda as real
  {
    ToFloatOfNumbers(onLabel, 0.0);
    ToFloatOfNumbers(inUsda, 0.0);
  }

  /** Sugar at 10 g on the label and 13 g in USDA, no other critical data: under the limit but 30 percent apart, yellow. */
  lemma SugarMismatch(data: map<string, Entry>)
    requires Info(data, "Sugar") == Entry(Int(13), Int(10))
    requires forall n :: n in CriticalNutrients && n != "Sugar" ==> Info(data, n) == Blank
    ensures var v := Verdict(data);
      && v.flags == []
      && v.discrepancies == [Discrepancy("Sugar", 10.0, 13.0)]
      && v.color == Yellow && v.status == "Data Mismatch"
  {
    ReadsWhole(data, "Sugar", 13, 10);
    VerdictOfOneRow(data, "Sugar");
    SugarFlags(ReaderOf(data));
  }

  /** The sugar row of that scenario, whatever table it was read from. */
  lemma SugarFlags(read: Reader)
    requires read("Sugar", LabelSide) == 10.0 && read("Sugar", UsdaSide) == 13.0
    ensures NutrientFlags(read, "Sugar") == []
    ensures NutrientDiscrepancies(read, "Sugar") == [Discrepancy("Sugar", 10.0, 13.0)]
  {
    MismatchMeaning(10.0, 13.0);
  }

  /** Protein missing on the label and 12 g in USDA, no other critical data: no delta is taken, green. */
  lemma MissingLabelIsNoMismatch(data: map<string, Entry>)
    requires Info(data, "Protein") == Entry(Int(12), Null)
    requires forall n :: n in CriticalNutrients && n != "Protein" ==> Info(data, n) == Blank
    ensures Verdict(data) == AuditReport("Renal Safe", Green, [], [])
  {
    ToFloatOfNumbers(12, 0.0);
    assert ReaderOf(data)("Protein", LabelSide) == 0.0;
    assert ReaderOf(data)("Protein", UsdaSide) == 12.0;
    VerdictOfOneRow(data, "Protein");
    ProteinQuiet(ReaderOf(data));
  }

  /** The protein row of that scenario, whatever table it was read from. */
  lemma ProteinQuiet(read: Reader)
    requires read("Protein", LabelSide) == 0.0 && read("Protein", UsdaSide) == 12.0
    ensures NutrientFlags(read, "Protein") == []
    ensures NutrientDiscrepancies(read, "Protein") == []
  {
    MismatchMeaning(0.0, 12.0);
  }
}
