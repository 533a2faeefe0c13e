/**
 * Zero-safe numeric coercion (`to_float` of renal_app/logic.py): any input,
 * a number, a string typed by a user, a null or something else, becomes a
 * number, and whatever cannot be read as one becomes 0.0.
 *
 * Python's `float(str)` is modelled by a decimal reader for
 * `[+|-] digits [. digits]`; `str(int)` by its decimal writer.
 */
module Coercion {
  import opened Wrappers
  import opened PyValues
  import opened Text

  predicate IsDigit(c: char) { '0' <= c <= '9' }

  predicate AllDigits(s: string) {
    forall k :: 0 <= k < |s| ==> IsDigit(s[k])
  }

  function DigitChar(d: nat): (c: char)
    requires d < 10
    ensures IsDigit(c) && c as int - '0' as int == d
  {
    ('0' as int + d) as char
  }

  /** The value of a string of decimal digits, most significant first. */
  function DigitsValue(s: string): nat
    requires AllDigits(s)
  {
    if s == [] then 0 else DigitsValue(s[..|s| - 1]) * 10 + (s[|s| - 1] as int - '0' as int)
  }

  function Pow10(n: nat): (p: nat)
    ensures p >= 1
  {
    if n == 0 then 1 else 10 * Pow10(n - 1)
  }

  /** The value of digits is additive over concatenation, shifted by the length of the tail. */
  lemma {:induction false} DigitsValueAppend(a: string, b: string)
    requires AllDigits(a) && AllDigits(b)
    ensures AllDigits(a + b)
    ensures DigitsValue(a + b) == DigitsValue(a) * Pow10(|b|) + DigitsValue(b)
  {
    if b == [] {
      assert a + b == a;
    } else {
      var b' := b[..|b| - 1];
      assert (a + b)[..|a + b| - 1] == a + b';
      DigitsValueAppend(a, b');
      ShiftDigit(DigitsValue(a), Pow10(|b'|), DigitsValue(b'), b[|b| - 1] as int - '0' as int);
    }
  }

  lemma ShiftDigit(x: int, p: int, y: int, d: int)
    ensures (x * p + y) * 10 + d == x * (10 * p) + (y * 10 + d)
  {
  }

  /** `str(n)` for a natural number: its shortest decimal digits. */
  function NatToDecimal(n: nat): (s: string)
    ensures |s| > 0 && AllDigits(s)
    ensures DigitsValue(s) == n
    ensures s == "0" || s[0] != '0'
  {
    if n < 10 then [DigitChar(n)]
    else
      var s := NatToDecimal(n / 10) + [DigitChar(n % 10)];
      assert s[..|s| - 1] == NatToDecimal(n / 10);
      s
  }

  function Abs(i: int): nat {
    if i < 0 then -i else i
  }

  /** `str(i)` for any integer. */
  function IntToDecimal(i: int): (s: string)
    ensures |s| > 0
    ensures s[0] == '-' <==> i < 0
    ensures var digits := if i < 0 then s[1..] else s;
      && digits != [] && AllDigits(digits) && DigitsValue(digits) == Abs(i)
      && (digits == "0" || digits[0] != '0')
  {
    if i < 0 then "-" + NatToDecimal(-i) else NatToDecimal(i)
  }

  /** The position of the first occurrence of `c` in `s`. */
  function IndexOf(s: string, c: char): (k: nat)
    requires c in s
    ensures k < |s| && s[k] == c && c !in s[..k]
  {
    if s[0] == c then 0 else 1 + IndexOf(s[1..], c)
  }

  /** The value of `whole.frac`. */
  function DecimalValue(whole: string, frac: string): real
    requires AllDigits(whole) && AllDigits(frac)
  {
    DigitsValue(whole) as real + DigitsValue(frac) as real / Pow10(|frac|) as real
  }

  /** An unsigned decimal: digits, optionally followed by a point and more digits; at least one digit. */
  function ParseUnsigned(s: string): (r: Option<real>)
    ensures r.Some? ==> r.value >= 0.0
    ensures r.Some? ==> forall k :: 0 <= k < |s| ==> IsDigit(s[k]) || s[k] == '.'
    ensures r.Some? ==> exists k :: 0 <= k < |s| && IsDigit(s[k])
    ensures s != [] && AllDigits(s) ==> r == Some(DigitsValue(s) as real)
  {
    if '.' in s then
      var k := IndexOf(s, '.');
      var whole, frac := s[..k], s[k + 1..];
      if AllDigits(whole) && AllDigits(frac) && |whole| + |frac| > 0 then
        assert forall j :: 0 <= j < |s| ==> IsDigit(s[j]) || s[j] == '.' by {
          forall j | 0 <= j < |s| ensures IsDigit(s[j]) || s[j] == '.' {
            if j < k {
              assert s[j] == whole[j];
            } else if j > k {
              assert s[j] == frac[j - k - 1];
            }
          }
        }
        var w := if whole != [] then 0 else k + 1;
        assert s[w] == if whole != [] then whole[0] else frac[0];
        Some(DecimalValue(whole, frac))
      else None
    else if s != [] && AllDigits(s) then
      assert IsDigit(s[0]);
      Some(DigitsValue(s) as real)
    else None
  }

  /**
   * `float(s)` on an already stripped string; `None` where Python raises ValueError.
   * A number holds a digit, an optional sign first and otherwise only digits and a point.
   */
  function ParseFloat(s: string): (r: Option<real>)
    ensures r.Some? ==> exists k :: 0 <= k < |s| && IsDigit(s[k])
    ensures r.Some? ==> forall k :: 0 < k < |s| ==> IsDigit(s[k]) || s[k] == '.'
    ensures r.Some? && r.value < 0.0 ==> s[0] == '-'
    ensures r.Some? && s[0] == '-' ==> r.value <= 0.0
    ensures s != [] && AllDigits(s) ==> r == Some(DigitsValue(s) as real)
  {
    if |s| > 0 && (s[0] == '+' || s[0] == '-') then
      match ParseUnsigned(s[1..])
      case None => None
      case Some(v) =>
        assert forall k :: 0 < k < |s| ==> s[k] == s[1..][k - 1];
        Some(if s[0] == '-' then -v else v)
    else ParseUnsigned(s)
  }

  /** A string that starts with neither a sign, a point nor a digit is not a number. */
  lemma ParseRejectsNonNumeric(s: string)
    requires s != [] && !IsDigit(s[0]) && s[0] != '+' && s[0] != '-' && s[0] != '.'
    ensures ParseFloat(s) == None
  {
    if '.' in s {
      assert IndexOf(s, '.') > 0;
    }
  }

  /** Reading back what `str` writes for an integer gives the integer. */
  lemma ParseIntToDecimal(i: int)
    ensures ParseFloat(IntToDecimal(i)) == Some(i as real)
  {
    var n := if i < 0 then -i else i;
    var d := NatToDecimal(n);
    assert '.' !in d;
    assert ParseUnsigned(d) == Some(n as real);
    if i < 0 {
      assert IntToDecimal(i)[1..] == d;
    }
  }

  /**
   * `to_float(val)`: None, a blank string or "null" in any case gives 0.0;
   * a string loses its commas and surrounding whitespace and is read as a
   * decimal, 0.0 when it is not one; a number is kept; anything else is 0.0.
   */
  function ToFloat(v: Value): (r: real)
    ensures v.Int? ==> r == v.i as real
    ensures v.Float? ==> r == v.x
    ensures v.Null? || v.Dict? ==> r == 0.0
    ensures v.Str? ==> r == ReadString(v.s)
  {
    match v
    case Null => 0.0
    case Int(i) => i as real
    case Float(x) => x
    case Str(s) => ReadString(s)
    case Dict(_) => 0.0
  }

  /** The string case of `to_float`. */
  function ReadString(s: string): (r: real)
    ensures AllSpace(s) || Lower(s) == "null" ==> r == 0.0
    ensures ParseFloat(Strip(RemoveAll(s, ','))).None? ==> r == 0.0
    ensures r != 0.0 ==> ParseFloat(Strip(RemoveAll(s, ','))) == Some(r)
    ensures !AllSpace(s) && Lower(s) != "null" && ParseFloat(Strip(RemoveAll(s, ','))).Some? ==>
      r == ParseFloat(Strip(RemoveAll(s, ','))).value
  {
    if Strip(s) == "" || Lower(s) == "null" then 0.0
    else ParseFloat(Strip(RemoveAll(s, ','))).GetOr(0.0)
  }

  /** Numbers pass through `to_float` unchanged, and None becomes 0.0. */
  lemma ToFloatOfNumbers(i: int, x: real)
    ensures ToFloat(Int(i)) == i as real
    ensures ToFloat(Float(x)) == x
    ensures ToFloat(Null) == 0.0
  {
  }

  /** A string of whitespace only, the empty string included, reads as 0.0. */
  lemma ToFloatOfBlank(s: string)
    requires AllSpace(s)
    ensures ToFloat(Str(s)) == 0.0
  {
  }

  /** "null", in any mix of upper and lower case, reads as 0.0. */
  lemma ToFloatOfNull(s: string)
    requires Lower(s) == "null"
    ensures ToFloat(Str(s)) == 0.0
  {
  }

  /** A string that is no decimal, such as "N/A", reads as 0.0 instead of failing. */
  lemma ToFloatOfNotANumber()
    ensures ToFloat(Str("N/A")) == 0.0
  {
    NotANumber("N/A");
  }

  /** Any string that starts with a letter, has no commas and is not "null" reads as 0.0. */
  lemma NotANumber(s: string)
    requires s != [] && IsLetter(s[0]) && !IsSpace(s[|s| - 1]) && "null" != Lower(s)
    requires forall k :: 0 <= k < |s| ==> s[k] != ','
    ensures ReadString(s) == 0.0
  {
    ParseRejectsNonNumeric(s);
    ReadUnpadded(s);
  }

  /** A spelling of "null" is itself no decimal. */
  lemma NullIsNotANumber(t: string)
    requires Lower(t) == "null"
    ensures ParseFloat(Strip(t)) == None
  {
    assert LowerChar(t[0]) == 'n' && LowerChar(t[3]) == 'l';
    StripUnpadded(t);
    ParseRejectsNonNumeric(t);
  }

  /** Removing characters from a blank string leaves it blank. */
  lemma RemoveAllKeepsBlank(s: string, c: char)
    requires AllSpace(s)
    ensures AllSpace(RemoveAll(s, c))
  {
    var t := RemoveAll(s, c);
    forall k | 0 <= k < |t| ensures IsSpace(t[k]) {
      RemoveAllKeeps(s, c, k);
    }
  }

  /** Commas make no difference, wherever in the string they stand. */
  lemma CommasAreIgnored(s: string)
    ensures ToFloat(Str(s)) == ToFloat(Str(RemoveAll(s, ',')))
  {
    var t := RemoveAll(s, ',');
    if AllSpace(s) {
      RemoveAllKeepsBlank(s, ',');
      assert ReadString(t) == 0.0;
    } else if Lower(s) == "null" {
      assert forall k :: 0 <= k < |s| ==> s[k] != ',' by {
        forall k | 0 <= k < |s| ensures s[k] != ',' {
          assert LowerChar(s[k]) == "null"[k];
        }
      }
      RemoveAllAbsent(s, ',');
    } else {
      assert ReadString(s) == ParseFloat(Strip(t)).GetOr(0.0);
      assert ParseFloat("") == None;
      if Strip(t) != "" && Lower(t) == "null" {
        NullIsNotANumber(t);
      } else if Strip(t) != "" {
        RemoveAllAbsent(t, ',');
        assert ReadString(t) == ParseFloat(Strip(t)).GetOr(0.0);
      }
    }
  }

  /** Writing an integer and reading it back with `to_float` gives the integer. */
  lemma ToFloatOfIntToDecimal(i: int)
    ensures ToFloat(Str(IntToDecimal(i))) == i as real
  {
    IntToDecimalIsPlain(i);
    ReadUnpadded(IntToDecimal(i));
    ParseIntToDecimal(i);
  }

  /** What `str` writes for an integer is neither padded, nor "null", nor holds a comma. */
  lemma IntToDecimalIsPlain(i: int)
    ensures var s := IntToDecimal(i);
      && s != [] && !IsSpace(s[0]) && !IsSpace(s[|s| - 1])
      && (forall k :: 0 <= k < |s| ==> s[k] != ',')
      && Lower(s) != "null"
  {
    var s := IntToDecimal(i);
    IntToDecimalShape(i);
    assert Lower(s)[0] == LowerChar(s[0]);
  }

  /** What `str` writes for an integer: a digit or a minus sign first, a digit last, no commas. */
  lemma IntToDecimalShape(i: int)
    ensures var s := IntToDecimal(i);
      && (IsDigit(s[0]) || s[0] == '-') && IsDigit(s[|s| - 1])
      && forall k :: 0 <= k < |s| ==> s[k] != ','
  {
    var s := IntToDecimal(i);
    var d := NatToDecimal(if i < 0 then -i else i);
    assert s[|s| - 1] == d[|d| - 1];
    forall k | 0 <= k < |s| ensures s[k] != ',' {
      if i < 0 && k > 0 {
        assert s[k] == d[k - 1];
      }
    }
  }

  /** Three digits with leading zeros: the group after a thousands separator. */
  function Pad3(n: nat): (s: string)
    requires n < 1000
    ensures |s| == 3 && AllDigits(s) && DigitsValue(s) == n
  {
    var s := [DigitChar(n / 100), DigitChar(n / 10 % 10), DigitChar(n % 10)];
    assert s[..2][..1] == s[..1];
    assert s[..1][..0] == [];
    assert DigitsValue(s[..1]) == n / 100;
    assert DigitsValue(s[..2]) == n / 100 * 10 + n / 10 % 10 == n / 10;
    assert DigitsValue(s) == n / 10 * 10 + n % 10 == n;
    s
  }

  /** A natural number written with commas between groups of three digits, as in "1,200". */
  function GroupThousands(n: nat): (s: string)
    ensures |s| > 0 && IsDigit(s[0]) && IsDigit(s[|s| - 1])
  {
    if n < 1000 then NatToDecimal(n)
    else
      GroupThousands(n / 1000) + "," + Pad3(n % 1000)
  }

  lemma {:induction false} GroupThousandsDigits(n: nat)
    ensures AllDigits(RemoveAll(GroupThousands(n), ','))
    ensures DigitsValue(RemoveAll(GroupThousands(n), ',')) == n
  {
    if n < 1000 {
      RemoveAllAbsent(NatToDecimal(n), ',');
    } else {
      var head := GroupThousands(n / 1000);
      var tail := Pad3(n % 1000);
      RemoveAllAppend(head + ",", tail, ',');
      RemoveAllAppend(head, ",", ',');
      assert RemoveAll(",", ',') == [];
      RemoveAllAbsent(tail, ',');
      GroupThousandsDigits(n / 1000);
      var r := RemoveAll(head, ',');
      assert RemoveAll(GroupThousands(n), ',') == r + tail;
      DigitsValueAppend(r, tail);
      assert Pow10(|tail|) == 1000;
      assert DigitsValue(r + tail) == (n / 1000) * 1000 + n % 1000;
    }
  }

  /** A plain string of digits reads as its value. */
  lemma ReadDigits(d: string)
    requires d != [] && AllDigits(d)
    ensures ReadString(d) == DigitsValue(d) as real
  {
    assert forall k :: 0 <= k < |d| ==> d[k] != ',' by {
      forall k | 0 <= k < |d| ensures d[k] != ',' { assert IsDigit(d[k]); }
    }
    ParseDigits(d);
    ReadPlain(d);
  }

  /** `float` reads a plain string of digits as its value. */
  lemma ParseDigits(d: string)
    requires d != [] && AllDigits(d)
    ensures ParseFloat(d) == Some(DigitsValue(d) as real)
  {
    assert IsDigit(d[0]);
    assert '.' !in d;
  }

  /** A number written with thousands separators reads back as that number. */
  lemma ToFloatOfGroupThousands(n: nat)
    ensures ToFloat(Str(GroupThousands(n))) == n as real
  {
    var s := GroupThousands(n);
    var d := RemoveAll(s, ',');
    CommasAreIgnored(s);
    GroupThousandsDigits(n);
    assert d != [] by {
      assert s[0] != ',';
      assert d == [s[0]] + RemoveAll(s[1..], ',');
    }
    ReadDigits(d);
  }

  /** "1,200" reads as 1200.0. */
  lemma ToFloatOfThousandsExample()
    ensures ToFloat(Str("1,200")) == 1200.0
  {
    assert GroupThousands(1200) == "1,200" by {
      assert GroupThousands(1) == "1";
      assert Pad3(200) == "200";
    }
    ToFloatOfGroupThousands(1200);
  }

  /** A comma-free string with a digit in front and no trailing blank is read by `float` directly. */
  lemma ReadPlain(s: string)
    requires s != [] && IsDigit(s[0]) && !IsSpace(s[|s| - 1])
    requires forall k :: 0 <= k < |s| ==> s[k] != ','
    ensures ReadString(s) == ParseFloat(s).GetOr(0.0)
  {
    assert Lower(s)[0] == s[0];
    ReadUnpadded(s);
  }

  /** A comma-free string other than "null", with no blank at either end, is read by `float` directly. */
  lemma ReadUnpadded(s: string)
    requires s != [] && !IsSpace(s[0]) && !IsSpace(s[|s| - 1])
    requires forall k :: 0 <= k < |s| ==> s[k] != ','
    requires Lower(s) != "null"
    ensures ReadString(s) == ParseFloat(s).GetOr(0.0)
  {
    StripUnpadded(s);
    RemoveAllAbsent(s, ',');
  }

  /** Digits, a point and digits are read as the decimal they spell. */
  lemma ParseDecimal(whole: string, frac: string)
    requires whole != [] && AllDigits(whole) && AllDigits(frac)
    ensures ParseFloat(whole + "." + frac) == Some(DecimalValue(whole, frac))
  {
    var s := whole + "." + frac;
    assert s[0] == whole[0];
    assert '.' !in whole;
    assert IndexOf(s, '.') == |whole| by {
      assert s[..|whole|] == whole;
    }
    assert s[..|whole|] == whole && s[|whole| + 1..] == frac;
  }

  /** Digits, a point and digits read as the decimal they spell. */
  lemma ReadDecimal(whole: string, frac: string)
    requires whole != [] && AllDigits(whole) && AllDigits(frac)
    ensures ReadString(whole + "." + frac) == DecimalValue(whole, frac)
  {
    var s := whole + "." + frac;
    assert s[0] == whole[0] && s[|s| - 1] == (if frac == [] then '.' else frac[|frac| - 1]);
    forall k | 0 <= k < |s| ensures s[k] != ',' {
      if k < |whole| { assert s[k] == whole[k]; }
      else if k > |whole| { assert s[k] == frac[k - |whole| - 1]; }
    }
    ReadPlain(s);
    ParseDecimal(whole, frac);
  }

  /** "12.5" reads as 12.5. */
  lemma ToFloatOfFractionExample()
    ensures ToFloat(Str("12.5")) == 12.5
  {
    var whole, frac := "12", "5";
    assert DigitsValue(whole) == 12 by { assert whole[..1] == "1"; }
    assert DigitsValue(frac) == 5 by { assert frac[..0] == ""; }
    assert Pow10(|frac|) == 10;
    assert DecimalValue(whole, frac) == 12.5;
    assert "12.5" == whole + "." + frac;
    ReadDecimal(whole, frac);
  }
}
