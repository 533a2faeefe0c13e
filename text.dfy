/**
 * The string operations of Python's `str` that the audit relies on:
 * `strip()`, `lower()`, `title()` and `replace(c, "")`.
 * Case mapping covers the ASCII letters only.
 */
module Text {

  /** The characters for which Python's `str.isspace()` holds. */
  predicate IsSpace(c: char) {
    || c == ' '
    || ('\t' <= c <= '\r')
    || ('\U{1C}' <= c <= '\U{1F}')
    || c == '\U{85}' || c == '\U{A0}' || c == '\U{1680}'
    || ('\U{2000}' <= c <= '\U{200A}')
    || c == '\U{2028}' || c == '\U{2029}' || c == '\U{202F}'
    || c == '\U{205F}' || c == '\U{3000}'
  }

  predicate AllSpace(s: string) {
    forall k :: 0 <= k < |s| ==> IsSpace(s[k])
  }

  /** `s.lstrip()`: the suffix of `s` left after dropping its leading whitespace. */
  function TrimStart(s: string): (r: string)
    ensures |r| <= |s| && r == s[|s| - |r|..]
    ensures AllSpace(s[..|s| - |r|])
    ensures r == [] || !IsSpace(r[0])
  {
    if |s| > 0 && IsSpace(s[0]) then
      var r := TrimStart(s[1..]);
      assert AllSpace(s[..|s| - |r|]) by {
        var p := s[..|s| - |r|];
        forall k | 0 <= k < |p| ensures IsSpace(p[k]) {
          if k > 0 {
            assert p[k] == s[1..][..|s| - 1 - |r|][k - 1];
          }
        }
      }
      r
    else s
  }

  /** `s.rstrip()`: the prefix of `s` left after dropping its trailing whitespace. */
  function TrimEnd(s: string): (r: string)
    ensures |r| <= |s| && r == s[..|r|]
    ensures AllSpace(s[|r|..])
    ensures r == [] || !IsSpace(r[|r| - 1])
    ensures r == [] <==> AllSpace(s)
  {
    if |s| > 0 && IsSpace(s[|s| - 1]) then
      var r := TrimEnd(s[..|s| - 1]);
      assert AllSpace(s[|r|..]) by {
        var q := s[|r|..];
        forall k | 0 <= k < |q| ensures IsSpace(q[k]) {
          if k < |q| - 1 {
            assert q[k] == s[..|s| - 1][|r|..][k];
          }
        }
      }
      r
    else s
  }

  /** `s.strip()`. */
  function Strip(s: string): (r: string)
    ensures r == [] <==> AllSpace(s)
    ensures r != [] ==> !IsSpace(r[0]) && !IsSpace(r[|r| - 1])
  {
    TrimBlank(s);
    TrimEnds(s);
    TrimEnd(TrimStart(s))
  }

  lemma TrimBlank(s: string)
    ensures TrimEnd(TrimStart(s)) == [] <==> AllSpace(s)
  {
    var t := TrimStart(s);
    var i := |s| - |t|;
    var r := TrimEnd(t);
    if r == [] {
      assert s == s[..i];
    }
    if t != [] {
      assert s[i] == t[0];
    }
  }

  lemma TrimEnds(s: string)
    ensures var r := TrimEnd(TrimStart(s)); r != [] ==> !IsSpace(r[0]) && !IsSpace(r[|r| - 1])
  {
    var t := TrimStart(s);
    var r := TrimEnd(t);
    if r != [] {
      assert r[0] == t[0];
    }
  }

  /** `s.strip()` is the run of `s` that starts after its leading whitespace. */
  lemma StripIsInfix(s: string)
    ensures var i := |s| - |TrimStart(s)|; var r := Strip(s);
      && i + |r| <= |s| && forall k :: 0 <= k < |r| ==> r[k] == s[i + k]
  {
  }

  /** Stripping a string with no whitespace at either end leaves it as it is. */
  lemma StripUnpadded(s: string)
    requires s == [] || (!IsSpace(s[0]) && !IsSpace(s[|s| - 1]))
    ensures Strip(s) == s
  {
    assert TrimStart(s) == s;
  }

  /** `strip()` is idempotent. */
  lemma StripIdempotent(s: string)
    ensures Strip(Strip(s)) == Strip(s)
  {
    StripUnpadded(Strip(s));
  }

  predicate IsUpper(c: char) { 'A' <= c <= 'Z' }
  predicate IsLower(c: char) { 'a' <= c <= 'z' }
  predicate IsLetter(c: char) { IsUpper(c) || IsLower(c) }

  function LowerChar(c: char): (d: char)
    ensures IsLetter(d) <==> IsLetter(c)
    ensures !IsUpper(d)
  {
    if IsUpper(c) then (c as int + 32) as char else c
  }

  function UpperChar(c: char): (d: char)
    ensures IsLetter(d) <==> IsLetter(c)
    ensures !IsLower(d)
  {
    if IsLower(c) then (c as int - 32) as char else c
  }

  /** `s.lower()`. */
  function Lower(s: string): (r: string)
    ensures |r| == |s|
    ensures forall k :: 0 <= k < |s| ==> r[k] == LowerChar(s[k])
  {
    seq(|s|, k requires 0 <= k < |s| => LowerChar(s[k]))
  }

  /**
   * `s.title()`: a letter that follows a letter becomes lower case, any other
   * letter upper case; every other character is kept.
   */
  function Title(s: string): (r: string)
    ensures |r| == |s|
    ensures forall k :: 0 <= k < |s| ==> IsLetter(r[k]) == IsLetter(s[k])
    ensures forall k :: 0 <= k < |s| && !IsLetter(s[k]) ==> r[k] == s[k]
    ensures forall k :: 0 <= k < |s| && IsLetter(s[k]) ==> LowerChar(r[k]) == LowerChar(s[k])
    ensures forall k :: 0 <= k < |s| && IsLetter(s[k]) ==>
      if StartsWord(s, k) then !IsLower(r[k]) else !IsUpper(r[k])
  {
    seq(|s|, k requires 0 <= k < |s| =>
      if !IsLetter(s[k]) then s[k]
      else if StartsWord(s, k) then UpperChar(s[k])
      else LowerChar(s[k]))
  }

  /** Position `k` of `s` does not follow a letter. */
  predicate StartsWord(s: string, k: int)
    requires 0 <= k < |s|
  {
    k == 0 || !IsLetter(s[k - 1])
  }

  /** Two letters that agree under `LowerChar` and are in the same case are the same letter. */
  lemma SameLetter(c: char, d: char)
    requires IsLetter(c) && IsLetter(d) && LowerChar(c) == LowerChar(d)
    requires (!IsUpper(c) && !IsUpper(d)) || (!IsLower(c) && !IsLower(d))
    ensures c == d
  {
  }

  /** The contract of `Title` determines its result: any string meeting it is `Title(s)`. */
  lemma TitleIsDetermined(s: string, t: string)
    requires |t| == |s|
    requires forall k :: 0 <= k < |s| && !IsLetter(s[k]) ==> t[k] == s[k]
    requires forall k :: 0 <= k < |s| && IsLetter(s[k]) ==> IsLetter(t[k]) && LowerChar(t[k]) == LowerChar(s[k])
    requires forall k :: 0 <= k < |s| && IsLetter(s[k]) ==>
      if StartsWord(s, k) then !IsLower(t[k]) else !IsUpper(t[k])
    ensures t == Title(s)
  {
    var r := Title(s);
    forall k | 0 <= k < |s| ensures t[k] == r[k] {
      if IsLetter(s[k]) {
        SameLetter(t[k], r[k]);
      }
    }
  }

  /** A run of letters, such as "GREEK", becomes its first letter upper-cased and the rest lower-cased. */
  lemma TitleOfWord(w: string)
    requires w != [] && forall k :: 0 <= k < |w| ==> IsLetter(w[k])
    ensures Title(w)[0] == UpperChar(w[0])
    ensures forall k :: 0 < k < |w| ==> Title(w)[k] == LowerChar(w[k])
  {
    var t := Title(w);
    forall k | 0 < k < |w| ensures t[k] == LowerChar(w[k]) {
      assert IsLetter(w[k - 1]);
    }
  }

  /** Words separated by a non-letter are title-cased independently. */
  lemma TitleSplits(a: string, c: char, b: string)
    requires !IsLetter(c)
    ensures Title(a + [c] + b) == Title(a) + [c] + Title(b)
  {
    var s := a + [c] + b;
    var r := Title(a) + [c] + Title(b);
    forall k | 0 <= k < |s| ensures Title(s)[k] == r[k] {
      if k < |a| {
        assert s[k] == a[k];
        if k > 0 {
          assert s[k - 1] == a[k - 1];
        }
      } else if k > |a| {
        var j := k - |a| - 1;
        assert s[k] == b[j] && r[k] == Title(b)[j];
        if j > 0 {
          assert s[k - 1] == b[j - 1];
        }
      }
    }
  }

  lemma CaseRoundTrip(c: char)
    requires IsLetter(c)
    ensures LowerChar(UpperChar(c)) == LowerChar(c)
    ensures UpperChar(LowerChar(c)) == UpperChar(c)
    ensures LowerChar(LowerChar(c)) == LowerChar(c)
    ensures UpperChar(UpperChar(c)) == UpperChar(c)
  {
  }

  /** Title-casing twice is the same as title-casing once. */
  lemma TitleIdempotent(s: string)
    ensures Title(Title(s)) == Title(s)
  {
    var t := Title(s);
    forall k | 0 <= k < |s|
      ensures Title(t)[k] == t[k]
    {
      if IsLetter(s[k]) {
        CaseRoundTrip(s[k]);
      }
    }
  }

  /** `s.replace(c, "")`: every occurrence of `c` removed, the rest kept in order. */
  function RemoveAll(s: string, c: char): (r: string)
    ensures |r| <= |s|
    ensures forall k :: 0 <= k < |r| ==> r[k] != c
  {
    if s == [] then []
    else if s[0] == c then RemoveAll(s[1..], c)
    else [s[0]] + RemoveAll(s[1..], c)
  }

  /** Removing a character that does not occur changes nothing. */
  lemma {:induction false} RemoveAllAbsent(s: string, c: char)
    requires forall k :: 0 <= k < |s| ==> s[k] != c
    ensures RemoveAll(s, c) == s
  {
    if s != [] {
      RemoveAllAbsent(s[1..], c);
      assert s == [s[0]] + s[1..];
    }
  }

  /** Removal distributes over concatenation. */
  lemma {:induction false} RemoveAllAppend(a: string, b: string, c: char)
    ensures RemoveAll(a + b, c) == RemoveAll(a, c) + RemoveAll(b, c)
  {
    if a != [] {
      assert (a + b)[1..] == a[1..] + b;
      RemoveAllAppend(a[1..], b, c);
    } else {
      assert a + b == b;
    }
  }

  /** Every character kept by the removal occurs in the input. */
  lemma {:induction false} RemoveAllKeeps(s: string, c: char, k: nat)
    requires k < |RemoveAll(s, c)|
    ensures exists j :: 0 <= j < |s| && s[j] == RemoveAll(s, c)[k]
  {
    if s[0] == c {
      RemoveAllKeeps(s[1..], c, k);
      var j :| 0 <= j < |s[1..]| && s[1..][j] == RemoveAll(s[1..], c)[k];
      assert s[j + 1] == RemoveAll(s, c)[k];
    } else if k > 0 {
      RemoveAllKeeps(s[1..], c, k - 1);
      var j :| 0 <= j < |s[1..]| && s[1..][j] == RemoveAll(s[1..], c)[k - 1];
      assert s[j + 1] == RemoveAll(s, c)[k];
    } else {
      assert s[0] == RemoveAll(s, c)[0];
    }
  }
}
