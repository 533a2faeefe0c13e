/**
 * The signed percentage delta between a label value and a USDA value
 * (`_coerce_number` and `calculate_delta` of renal_app/logic.py).
 * Unlike `to_float`, this coercion keeps "missing" apart from zero: anything
 * that is not already a number gives no delta at all.
 */
module Delta {
  import opened Wrappers
  import opened PyValues

  /** `_coerce_number`: ints and floats are numbers; anything else, None included, is not. */
  function CoerceNumber(v: Value): (r: Option<real>)
    ensures r.Some? <==> v.Int? || v.Float?
    ensures v.Int? ==> r == Some(v.i as real)
    ensures v.Float? ==> r == Some(v.x)
  {
    match v
    case Int(i) => Some(i as real)
    case Float(x) => Some(x)
    case _ => None
  }

  /**
   * `calculate_delta(labelValue, usdaValue)`: how far, in percent of the label value,
   * the USDA value lies above it; None when either side is no number or the
   * label value is zero.
   */
  function CalculateDelta(labelValue: Value, usdaValue: Value): (r: Option<real>)
    ensures r.None? <==>
      CoerceNumber(labelValue).None? || CoerceNumber(usdaValue).None? || CoerceNumber(labelValue).value == 0.0
    ensures r.Some? ==>
      CoerceNumber(usdaValue).value == CoerceNumber(labelValue).value * (1.0 + r.value / 100.0)
  {
    var l := CoerceNumber(labelValue);
    var u := CoerceNumber(usdaValue);
    if l.None? || u.None? || l.value == 0.0 then None
    else
      var d := ((u.value - l.value) / l.value) * 100.0;
      assert l.value * (1.0 + d / 100.0) == u.value by {
        assert d / 100.0 == (u.value - l.value) / l.value;
        assert l.value * ((u.value - l.value) / l.value) == u.value - l.value;
      }
      Some(d)
  }

  /** A zero label value never yields a delta, whatever the USDA value. */
  lemma DeltaOfZeroLabel(usdaValue: Value)
    ensures CalculateDelta(Int(0), usdaValue) == None
    ensures CalculateDelta(Float(0.0), usdaValue) == None
  {
  }

  /**
   * For a positive label value the delta has the sign of `usda - label`;
   * for a negative one the opposite sign.
   */
  lemma {:induction false} DeltaSign(labelValue: real, usdaValue: real)
    requires labelValue != 0.0
    ensures CalculateDelta(Float(labelValue), Float(usdaValue)).Some?
    ensures var d := CalculateDelta(Float(labelValue), Float(usdaValue)).value;
      && (d == 0.0 <==> usdaValue == labelValue)
      && (labelValue > 0.0 ==> (d > 0.0 <==> usdaValue > labelValue))
      && (labelValue < 0.0 ==> (d > 0.0 <==> usdaValue < labelValue))
  {
    var d := CalculateDelta(Float(labelValue), Float(usdaValue)).value;
    assert usdaValue - labelValue == labelValue * d / 100.0;
    if labelValue > 0.0 {
      assert d > 0.0 ==> labelValue * d > 0.0;
      assert d < 0.0 ==> labelValue * d < 0.0;
    } else {
      assert d > 0.0 ==> labelValue * d < 0.0;
      assert d < 0.0 ==> labelValue * d > 0.0;
    }
  }

  /** For a positive label value the delta exceeds `t` percent exactly when USDA exceeds the label by that share. */
  lemma {:induction false} DeltaAbove(labelValue: real, usdaValue: real, t: real)
    requires labelValue > 0.0
    ensures CalculateDelta(Float(labelValue), Float(usdaValue)).Some?
    ensures CalculateDelta(Float(labelValue), Float(usdaValue)).value > t <==> usdaValue > labelValue * (1.0 + t / 100.0)
  {
    var d := CalculateDelta(Float(labelValue), Float(usdaValue)).value;
    assert usdaValue == labelValue * (1.0 + d / 100.0);
    assert usdaValue - labelValue * (1.0 + t / 100.0) == labelValue * (d - t) / 100.0;
    if d > t {
      assert labelValue * (d - t) > 0.0;
    } else {
      assert labelValue * (d - t) <= 0.0;
    }
  }
}
