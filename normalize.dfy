/**
 * Value normalisation (src/etl.py, clean_val and clean_num).
 *
 * A raw cell is `None` when pandas holds no value there (Python None or a
 * float NaN) and `Some(text)` otherwise, where `text` is what `str()` gives
 * for the value.
 */
module Normalize {
  import opened Wrappers

  type Cell = Option<string>

  /** The fixed sentinel list NULL_VALUES. */
  const NullMarkers: seq<string> := ["<Other>", "NULL", "null", "(not set)", "not set", "", "NaN"]

  /** Python's `str.isspace` for one character: the characters `str.strip()` removes. */
  predicate IsSpace(c: char) {
    var n := c as int;
    (9 <= n <= 13) || (28 <= n <= 32) || n == 0x85 || n == 0xA0 || n == 0x1680
    || (0x2000 <= n <= 0x200A) || n == 0x2028 || n == 0x2029 || n == 0x202F
    || n == 0x205F || n == 0x3000
  }

  predicate NoSpace(s: string) {
    forall k :: 0 <= k < |s| ==> !IsSpace(s[k])
  }

  function TrimStart(s: string): (r: string)
    ensures |r| <= |s| && r == s[|s| - |r|..]
    ensures forall k :: 0 <= k < |s| - |r| ==> IsSpace(s[k])
    ensures r == [] || !IsSpace(r[0])
  {
    if s != [] && IsSpace(s[0]) then TrimStart(s[1..]) else s
  }

  function TrimEnd(s: string): (r: string)
    ensures |r| <= |s| && r == s[..|r|]
    ensures forall k :: |r| <= k < |s| ==> IsSpace(s[k])
    ensures r == [] || !IsSpace(r[|r| - 1])
  {
    if s != [] && IsSpace(s[|s| - 1]) then TrimEnd(s[..|s| - 1]) else s
  }

  /** `str.strip()`: the string without its leading and trailing whitespace. */
  function Trim(s: string): (r: string)
    ensures |r| <= |s|
    ensures r == [] || (!IsSpace(r[0]) && !IsSpace(r[|r| - 1]))
  {
    TrimEnd(TrimStart(s))
  }

  /** Trim keeps exactly one contiguous slice of its input and drops only whitespace around it. */
  lemma TrimIsSlice(s: string) returns (i: nat)
    ensures i + |Trim(s)| <= |s| && s[i..i + |Trim(s)|] == Trim(s)
    ensures forall k :: 0 <= k < i ==> IsSpace(s[k])
    ensures forall k :: i + |Trim(s)| <= k < |s| ==> IsSpace(s[k])
  {
    var t := TrimStart(s);
    i := |s| - |t|;
    var r := TrimEnd(t);
    assert Trim(s) == r;
    assert s[i..i + |r|] == r by {
      assert t == s[i..];
      assert r == t[..|r|];
    }
    TrailingSpaces(s, t, r, i);
  }

  lemma TrailingSpaces(s: string, t: string, r: string, i: nat)
    requires i <= |s| && t == s[i..] && |r| <= |t|
    requires forall k :: |r| <= k < |t| ==> IsSpace(t[k])
    ensures forall k :: i + |r| <= k < |s| ==> IsSpace(s[k])
  {
    forall k | i + |r| <= k < |s|
      ensures IsSpace(s[k])
    {
      assert s[k] == t[k - i];
    }
  }

  /** Stripping is idempotent. */
  lemma TrimIdempotent(s: string)
    ensures Trim(Trim(s)) == Trim(s)
  {
    var r := Trim(s);
    if r != [] {
      assert TrimStart(r) == r;
      assert TrimEnd(r) == r;
    }
  }

  /** A string with no whitespace at either end is left as it is. */
  lemma TrimNoSpace(s: string)
    requires s == [] || (!IsSpace(s[0]) && !IsSpace(s[|s| - 1]))
    ensures Trim(s) == s
  {
    if s != [] {
      assert TrimStart(s) == s;
      assert TrimEnd(s) == s;
    }
  }

  /** True when `t` (already stripped) is read as absent: a sentinel or the text 'nan'. */
  predicate IsNullText(t: string) {
    t in NullMarkers || t == "nan"
  }

  /** clean_val: absent for a missing cell, for a sentinel and for 'nan'; otherwise the stripped text. */
  function CleanVal(c: Cell): (r: Option<string>)
    ensures r.None? <==> c.None? || IsNullText(Trim(c.value))
    ensures r.Some? ==> r.value == Trim(c.value)
    ensures r.Some? ==> r.value != [] && !IsSpace(r.value[0]) && !IsSpace(r.value[|r.value| - 1])
  {
    match c
    case None => None
    case Some(v) =>
      var t := Trim(v);
      if IsNullText(t) then None else Some(t)
  }

  /** Cleaning a cleaned value gives it back unchanged. */
  lemma CleanValIdempotent(c: Cell)
    requires CleanVal(c).Some?
    ensures CleanVal(Some(CleanVal(c).value)) == CleanVal(c)
  {
    TrimIdempotent(c.value);
  }

  /** Whitespace around a cell never changes how it is cleaned. */
  lemma CleanValIgnoresPadding(pre: string, v: string, post: string)
    requires forall k :: 0 <= k < |pre| ==> IsSpace(pre[k])
    requires forall k :: 0 <= k < |post| ==> IsSpace(post[k])
    ensures CleanVal(Some(pre + v + post)) == CleanVal(Some(v))
  {
    TrimPadded(pre, v, post);
  }

  lemma {:induction false} TrimPadded(pre: string, v: string, post: string)
    requires forall k :: 0 <= k < |pre| ==> IsSpace(pre[k])
    requires forall k :: 0 <= k < |post| ==> IsSpace(post[k])
    ensures Trim(pre + v + post) == Trim(v)
  {
    assert pre + v + post == pre + (v + post);
    TrimStartPadded(pre, v + post);
    TrimStartAppend(v, post);
    if TrimStart(v) != [] {
      TrimEndPadded(TrimStart(v), post);
    }
  }

  lemma {:induction false} TrimStartPadded(pre: string, s: string)
    requires forall k :: 0 <= k < |pre| ==> IsSpace(pre[k])
    ensures TrimStart(pre + s) == TrimStart(s)
    decreases |pre|
  {
    if pre != [] {
      assert (pre + s)[1..] == pre[1..] + s;
      TrimStartPadded(pre[1..], s);
    } else {
      assert pre + s == s;
    }
  }

  /** Leading whitespace of `v + post` is that of `v`, unless `v` is all whitespace. */
  lemma {:induction false} TrimStartAppend(v: string, post: string)
    requires forall k :: 0 <= k < |post| ==> IsSpace(post[k])
    ensures TrimStart(v) != [] ==> TrimStart(v + post) == TrimStart(v) + post
    ensures TrimStart(v) == [] ==> TrimStart(v + post) == []
    decreases |v|
  {
    if v == [] {
      assert v + post == post;
    } else if IsSpace(v[0]) {
      assert (v + post)[1..] == v[1..] + post;
      TrimStartAppend(v[1..], post);
    }
  }

  lemma {:induction false} TrimEndPadded(x: string, post: string)
    requires forall k :: 0 <= k < |post| ==> IsSpace(post[k])
    ensures TrimEnd(x + post) == TrimEnd(x)
    decreases |post|
  {
    if post == [] {
      assert x + post == x;
    } else {
      var p := post[..|post| - 1];
      assert (x + post)[..|x + post| - 1] == x + p;
      TrimEndPadded(x, p);
    }
  }

  // ---------------------------------------------------------------------
  // Numbers: Python's int() and float() on a stripped string
  // ---------------------------------------------------------------------

  predicate IsDigit(c: char) {
    '0' <= c <= '9'
  }

  predicate AllDigits(s: string) {
    forall k :: 0 <= k < |s| ==> IsDigit(s[k])
  }

  function DigitValue(c: char): nat
    requires IsDigit(c)
  {
    (c as int) - ('0' as int)
  }

  function DigitChar(d: nat): (c: char)
    requires d < 10
    ensures IsDigit(c) && DigitValue(c) == d
  {
    (('0' as int) + d) as char
  }

  /** The number an all-digit string denotes in base 10 (leading zeros allowed, as int() allows them). */
  function DigitsValue(s: string): nat
    requires AllDigits(s)
  {
    if s == [] then 0 else DigitsValue(s[..|s| - 1]) * 10 + DigitValue(s[|s| - 1])
  }

  function Pow10(n: nat): (r: nat)
    ensures r >= 1
  {
    if n == 0 then 1 else 10 * Pow10(n - 1)
  }

  /** The decimal text of a natural number, as str() writes it. */
  function NatText(n: nat): string
  {
    if n < 10 then [DigitChar(n)] else NatText(n / 10) + [DigitChar(n % 10)]
  }

  /** The decimal text of an integer, as str() writes it. */
  function IntText(n: int): string
  {
    if n < 0 then "-" + NatText(-n) else NatText(n)
  }

  lemma {:induction false} NatTextDigits(n: nat)
    ensures NatText(n) != [] && AllDigits(NatText(n)) && DigitsValue(NatText(n)) == n
    decreases n
  {
    if n >= 10 {
      NatTextDigits(n / 10);
      var s := NatText(n);
      assert s[..|s| - 1] == NatText(n / 10);
    }
  }

  /** int() on a stripped string: an optional sign followed by one or more ASCII digits. */
  function ParseInt(s: string): (r: Option<int>)
    ensures r.Some? ==> s != [] && (IsDigit(s[0]) || s[0] == '-' || s[0] == '+')
    ensures r.Some? ==> AllDigits(s[1..])
  {
    if s != [] && (s[0] == '-' || s[0] == '+') then
      var body := s[1..];
      if body != [] && AllDigits(body) then
        var v: int := DigitsValue(body);
        Some(if s[0] == '-' then -v else v)
      else None
    else if s != [] && AllDigits(s) then Some(DigitsValue(s))
    else None
  }

  /** int() of a '-' followed by digits is the negated digit value. */
  lemma ParseNegative(t: string)
    requires t != [] && AllDigits(t)
    ensures ParseInt("-" + t) == Some(-(DigitsValue(t) as int))
  {
    assert ("-" + t)[0] == '-' && ("-" + t)[1..] == t;
  }

  /** int() of plain digits is their value. */
  lemma ParseDigits(t: string)
    requires t != [] && AllDigits(t)
    ensures ParseInt(t) == Some(DigitsValue(t) as int)
  {
    assert IsDigit(t[0]);
  }

  /** int() reads back what str() writes for any integer. */
  lemma ParseIntRoundTrip(n: int)
    ensures ParseInt(IntText(n)) == Some(n)
  {
    if n < 0 {
      NatTextDigits(-n);
      ParseNegative(NatText(-n));
    } else {
      NatTextDigits(n);
      ParseDigits(NatText(n));
    }
  }

  /**
   * The message int() raises with for text it cannot read, quoted as repr()
   * quotes text without quotes or backslashes; repr()'s switch to double quotes
   * and its escapes for other text are not modelled.
   */
  function InvalidIntMessage(t: string): string {
    "invalid literal for int() with base 10: '" + t + "'"
  }

  /** Index of the first '.' in `s`, or |s| when there is none. */
  function FirstDot(s: string): (i: nat)
    ensures i <= |s| && (i < |s| ==> s[i] == '.')
    ensures forall k :: 0 <= k < i ==> s[k] != '.'
  {
    if s == [] then 0 else if s[0] == '.' then 0 else 1 + FirstDot(s[1..])
  }

  /** The value of a decimal literal with digits `whole` before the point and `frac` after it. */
  function DecimalValue(whole: string, frac: string): real
    requires AllDigits(whole) && AllDigits(frac)
  {
    DigitsValue(whole) as real + DigitsValue(frac) as real / Pow10(|frac|) as real
  }

  /** An unsigned decimal literal: digits, optionally a '.' and more digits, at least one digit in all. */
  function ParseUnsignedDecimal(s: string): (r: Option<real>)
    ensures r.Some? ==> r.value >= 0.0
  {
    var dot := FirstDot(s);
    var whole := s[..dot];
    var frac := if dot < |s| then s[dot + 1..] else [];
    if AllDigits(whole) && AllDigits(frac) && (whole != [] || frac != []) then
      Some(DecimalValue(whole, frac))
    else None
  }

  /** float() on a stripped string, for decimal literals with an optional sign. */
  function ParseFloat(s: string): (r: Option<real>)
    ensures r.Some? ==> s != []
    ensures r.Some? && s[0] == '-' ==> r.value <= 0.0
    ensures r.Some? && s[0] != '-' ==> r.value >= 0.0
  {
    if s != [] && s[0] == '-' then
      match ParseUnsignedDecimal(s[1..])
      case Some(v) => Some(-v)
      case None => None
    else if s != [] && s[0] == '+' then ParseUnsignedDecimal(s[1..])
    else ParseUnsignedDecimal(s)
  }

  /** float() reads back the text of a decimal with whole part `whole` and fraction digits `frac`. */
  lemma DecimalLiteral(whole: nat, frac: string)
    requires AllDigits(frac)
    ensures AllDigits(NatText(whole)) && DigitsValue(NatText(whole)) == whole
    ensures ParseFloat(NatText(whole) + "." + frac) == Some(DecimalValue(NatText(whole), frac))
  {
    NatTextDigits(whole);
    var w := NatText(whole);
    var s := w + "." + frac;
    assert s[|w|] == '.';
    assert forall k :: 0 <= k < |w| ==> s[k] == w[k];
    FirstDotAt(s, |w|);
    assert s[..|w|] == w;
    assert s[|w| + 1..] == frac;
    assert ParseUnsignedDecimal(s) == Some(DecimalValue(w, frac));
    ParseFloatUnsigned(s);
  }

  /** A literal that starts with a digit has no sign to strip. */
  lemma ParseFloatUnsigned(s: string)
    requires s != [] && IsDigit(s[0])
    ensures ParseFloat(s) == ParseUnsignedDecimal(s)
  {
  }

  lemma FirstDotAt(s: string, i: nat)
    requires i <= |s| && (i < |s| ==> s[i] == '.')
    requires forall k :: 0 <= k < i ==> s[k] != '.'
    ensures FirstDot(s) == i
  {
  }

  /** float() reads an integer's digits as that integer. */
  lemma UnsignedOfDigits(w: string)
    requires w != [] && AllDigits(w)
    ensures ParseUnsignedDecimal(w) == Some(DigitsValue(w) as real)
  {
    FirstDotAt(w, |w|);
    assert w[..|w|] == w;
    assert DecimalValue(w, []) == DigitsValue(w) as real;
  }

  /** clean_num: absent when clean_val is absent or float() fails; never raises. */
  function CleanNum(c: Cell): (r: Option<real>)
    ensures r.None? <==> CleanVal(c).None? || ParseFloat(CleanVal(c).value).None?
    ensures r.Some? ==> r == ParseFloat(CleanVal(c).value)
  {
    match CleanVal(c)
    case None => None
    case Some(t) => ParseFloat(t)
  }

  /** Every sentinel (and 'nan') is empty or starts with one of '<', 'N', 'n', '('. */
  lemma NotNullText(s: string)
    requires s != [] && s[0] != '<' && s[0] != 'N' && s[0] != 'n' && s[0] != '('
    ensures !IsNullText(s)
  {
    forall m | m in NullMarkers + ["nan"]
      ensures s != m
    {
      if m != [] {
        assert m[0] in "<Nn(";
      }
    }
  }

  /** A cell holding the text of an integer, possibly padded with whitespace, cleans to that integer. */
  lemma CleanNumOfInteger(n: int, pre: string, post: string)
    requires forall k :: 0 <= k < |pre| ==> IsSpace(pre[k])
    requires forall k :: 0 <= k < |post| ==> IsSpace(post[k])
    ensures CleanNum(Some(pre + IntText(n) + post)) == Some(n as real)
  {
    var t := IntText(n);
    CleanValIgnoresPadding(pre, t, post);
    CleanValOfIntText(n);
    var m := if n < 0 then -n else n;
    NatTextDigits(m);
    var w := NatText(m);
    UnsignedOfDigits(w);
    if n < 0 {
      assert t[1..] == w;
      assert ParseFloat(t) == Some(n as real);
    } else {
      assert ParseFloat(t) == Some(n as real) by { assert IsDigit(t[0]); }
    }
  }

  /** The text of an integer is already clean. */
  lemma CleanValOfIntText(n: int)
    ensures CleanVal(Some(IntText(n))) == Some(IntText(n))
  {
    var t := IntText(n);
    var m := if n < 0 then -n else n;
    NatTextDigits(m);
    var w := NatText(m);
    assert t[|t| - 1] == w[|w| - 1];
    assert IsDigit(w[|w| - 1]);
    assert !IsSpace(t[|t| - 1]);
    if n < 0 {
      assert t[0] == '-';
    } else {
      assert IsDigit(t[0]);
    }
    assert !IsSpace(t[0]);
    TrimNoSpace(t);
    NotNullText(t);
  }
}
