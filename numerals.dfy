/**
 * Decimal text of integers, as the cart uses it: `str(product_id)` turns a product id
 * into the cart's session key, and `int(...)` turns a session key back into a product id
 * (view_cart) and a posted quantity field into a quantity (update_cart).
 */
module Numerals {
  import opened Wrappers

  predicate IsDigit(c: char) {
    '0' <= c <= '9'
  }

  function DigitValue(c: char): (d: nat)
    requires IsDigit(c)
    ensures d < 10
  {
    c as int - '0' as int
  }

  function DigitChar(d: nat): (c: char)
    requires d < 10
    ensures IsDigit(c) && DigitValue(c) == d
  {
    ('0' as int + d) as char
  }

  predicate AllDigits(s: string) {
    forall i | 0 <= i < |s| :: IsDigit(s[i])
  }

  /** A run of one or more decimal digits. */
  predicate IsNumeral(s: string) {
    |s| > 0 && AllDigits(s)
  }

  /** The value of a run of decimal digits, most significant first; leading zeros are allowed. */
  function DigitsValue(s: string): nat
    requires AllDigits(s)
  {
    if s == [] then 0 else 10 * DigitsValue(s[..|s| - 1]) + DigitValue(s[|s| - 1])
  }

  /** `str(n)` for a non-negative integer: its shortest decimal numeral. */
  function NatText(n: nat): (s: string)
    ensures IsNumeral(s)
    ensures n != 0 ==> s[0] != '0'
    decreases n
  {
    if n < 10 then [DigitChar(n)] else NatText(n / 10) + [DigitChar(n % 10)]
  }

  /** `str(i)` for any integer: a minus sign before the numeral of a negative value. */
  function IntText(i: int): (s: string)
    ensures |s| > 0 && IsDigit(s[|s| - 1])
    ensures i < 0 <==> s[0] == '-'
  {
    if i < 0 then "-" + NatText(-i) else NatText(i)
  }

  /**
   * The ASCII whitespace `int()` strips around its argument: tab, line feed, vertical
   * tab, form feed, carriage return and space.
   */
  predicate IsSpace(c: char) {
    var v := c as int;
    v == 32 || 9 <= v <= 13
  }

  function TrimStart(s: string): string {
    if |s| > 0 && IsSpace(s[0]) then TrimStart(s[1..]) else s
  }

  function TrimEnd(s: string): string {
    if |s| > 0 && IsSpace(s[|s| - 1]) then TrimEnd(s[..|s| - 1]) else s
  }

  /** The argument with surrounding whitespace removed, as `int()` reads it. */
  function Trim(s: string): string {
    TrimEnd(TrimStart(s))
  }

  /**
   * `int(s)` on a string: after stripping whitespace, an optional sign followed by one or
   * more decimal digits. Anything else is the `ValueError` case, here `None`.
   */
  function ParseInt(s: string): Option<int> {
    var t := Trim(s);
    if |t| > 0 && (t[0] == '+' || t[0] == '-') then
      if IsNumeral(t[1..]) then
        var v: int := DigitsValue(t[1..]);
        Some(if t[0] == '-' then -v else v)
      else
        None
    else if IsNumeral(t) then
      Some(DigitsValue(t))
    else
      None
  }

  /** The digits of `str(n)` have the value `n`. */
  lemma {:induction false} NatTextValue(n: nat)
    ensures DigitsValue(NatText(n)) == n
    decreases n
  {
    var s := NatText(n);
    if n < 10 {
      assert s[..|s| - 1] == [];
    } else {
      NatTextValue(n / 10);
      assert s[..|s| - 1] == NatText(n / 10);
    }
  }

  /** Stripping leading whitespace keeps a suffix of the text. */
  lemma {:induction false} TrimStartSlice(s: string)
    ensures |TrimStart(s)| <= |s| && TrimStart(s) == s[|s| - |TrimStart(s)|..]
  {
    if |s| > 0 && IsSpace(s[0]) {
      TrimStartSlice(s[1..]);
    }
  }

  /** Stripping trailing whitespace keeps a prefix of the text. */
  lemma {:induction false} TrimEndSlice(s: string)
    ensures |TrimEnd(s)| <= |s| && TrimEnd(s) == s[..|TrimEnd(s)|]
  {
    if |s| > 0 && IsSpace(s[|s| - 1]) {
      TrimEndSlice(s[..|s| - 1]);
    }
  }

  /** A string with no whitespace at either end is left alone by `Trim`. */
  lemma TrimUnspaced(s: string)
    requires |s| > 0 && !IsSpace(s[0]) && !IsSpace(s[|s| - 1])
    ensures Trim(s) == s
  {
  }

  /** `int(str(n)) == n` for every non-negative integer. */
  lemma ParseNatText(n: nat)
    ensures ParseInt(NatText(n)) == Some(n)
  {
    var s := NatText(n);
    TrimUnspaced(s);
    NatTextValue(n);
  }

  /** `int(str(i)) == i` for every integer: `IntText` is a right inverse of `ParseInt`. */
  lemma ParseIntText(i: int)
    ensures ParseInt(IntText(i)) == Some(i)
  {
    if i < 0 {
      var d := NatText(-i);
      var s := "-" + d;
      assert s[0] == '-' && s[1..] == d && s[|s| - 1] == d[|d| - 1];
      TrimUnspaced(s);
      NatTextValue(-i);
    } else {
      ParseNatText(i);
    }
  }

  /** Leading whitespace before a text that starts with no whitespace is stripped. */
  lemma {:induction false} TrimStartSpaces(pre: string, s: string)
    requires forall i | 0 <= i < |pre| :: IsSpace(pre[i])
    requires |s| > 0 && !IsSpace(s[0])
    ensures TrimStart(pre + s) == s
  {
    if pre != [] {
      assert (pre + s)[1..] == pre[1..] + s;
      TrimStartSpaces(pre[1..], s);
    }
  }

  /** Trailing whitespace after a text that ends with no whitespace is stripped. */
  lemma {:induction false} TrimEndSpaces(s: string, post: string)
    requires |s| > 0 && !IsSpace(s[|s| - 1])
    requires forall i | 0 <= i < |post| :: IsSpace(post[i])
    ensures TrimEnd(s + post) == s
  {
    if post == [] {
      assert s + post == s;
    } else {
      var init := post[..|post| - 1];
      assert (s + post)[..|s + post| - 1] == s + init;
      TrimEndSpaces(s, init);
    }
  }

  /** `int()` strips any run of whitespace on either side of a text that has none at its ends. */
  lemma TrimPadded(pre: string, m: string, post: string)
    requires forall i | 0 <= i < |pre| :: IsSpace(pre[i])
    requires forall i | 0 <= i < |post| :: IsSpace(post[i])
    requires |m| > 0 && !IsSpace(m[0]) && !IsSpace(m[|m| - 1])
    ensures Trim(pre + m + post) == m
  {
    assert pre + m + post == pre + (m + post);
    TrimStartSpaces(pre, m + post);
    TrimEndSpaces(m, post);
  }

  /** A run of zeros has the value 0. */
  lemma {:induction false} ZerosValue(z: string)
    requires forall i | 0 <= i < |z| :: z[i] == '0'
    ensures AllDigits(z) && DigitsValue(z) == 0
  {
    if z != [] {
      ZerosValue(z[..|z| - 1]);
    }
  }

  /** Leading zeros do not change the value of a numeral. */
  lemma {:induction false} LeadingZerosValue(z: string, d: string)
    requires forall i | 0 <= i < |z| :: z[i] == '0'
    requires AllDigits(d)
    ensures AllDigits(z + d) && DigitsValue(z + d) == DigitsValue(d)
  {
    ZerosValue(z);
    if d == [] {
      assert z + d == z;
    } else {
      var init := d[..|d| - 1];
      LeadingZerosValue(z, init);
      assert (z + d)[..|z + d| - 1] == z + init;
    }
  }

  /** What `int()` allows around the digits of `str(n)`: whitespace before (`pre`) and after
    * (`post`), an optional sign and leading zeros (`z`). */
  predicate IsPadding(pre: string, sign: string, z: string, post: string) {
    && (forall i | 0 <= i < |pre| :: IsSpace(pre[i]))
    && (forall i | 0 <= i < |post| :: IsSpace(post[i]))
    && (sign == "" || sign == "+" || sign == "-")
    && (forall i | 0 <= i < |z| :: z[i] == '0')
  }

  /** `int()` of a text that strips to an optional sign and a numeral is the signed value. */
  lemma ParseTrimmed(s: string, sign: string, numeral: string)
    requires sign == "" || sign == "+" || sign == "-"
    requires IsNumeral(numeral) && Trim(s) == sign + numeral
    ensures ParseInt(s) == Some((if sign == "-" then -1 else 1) * DigitsValue(numeral))
  {
    var t := sign + numeral;
    if sign == "" {
      assert t == numeral;
    } else {
      assert t[1..] == numeral;
    }
  }

  /** Regrouping the pieces of a text split at its whitespace, sign and zeros. */
  lemma Reassemble(pre: string, t: string, post: string, sign: string, d: string, z: string, tail: string)
    requires t == sign + d && d == z + tail
    ensures pre + t + post == pre + sign + z + tail + post
  {
  }

  /** A numeral with an optional sign starts and ends with no whitespace. */
  lemma SignedNumeralEnds(sign: string, numeral: string)
    requires sign == "" || sign == "+" || sign == "-"
    requires IsNumeral(numeral)
    ensures var m := sign + numeral; |m| > 0 && !IsSpace(m[0]) && !IsSpace(m[|m| - 1])
  {
    var m := sign + numeral;
    assert m[|m| - 1] == numeral[|numeral| - 1];
    assert m[0] == '+' || m[0] == '-' || m[0] == numeral[0];
  }

  /**
   * `int()` reads every spelling of `n` it accepts as `n`: whitespace on either side, an
   * optional sign and any number of leading zeros, as in " +007 " or "-0".
   */
  lemma ParseIntPadded(pre: string, sign: string, z: string, n: nat, post: string)
    requires IsPadding(pre, sign, z, post)
    ensures ParseInt(pre + sign + z + NatText(n) + post) == Some((if sign == "-" then -1 else 1) * n)
  {
    var d := NatText(n);
    var numeral := z + d;
    var m := sign + numeral;
    LeadingZerosValue(z, d);
    NatTextValue(n);
    SignedNumeralEnds(sign, numeral);
    Reassemble(pre, m, post, sign, numeral, z, d);
    TrimPadded(pre, m, post);
    ParseTrimmed(pre + m + post, sign, numeral);
  }

  /** What `TrimStart` strips is a run of whitespace in front of what it keeps. */
  lemma {:induction false} TrimStartPrefix(s: string)
    ensures |TrimStart(s)| <= |s|
    ensures s == s[..|s| - |TrimStart(s)|] + TrimStart(s)
    ensures forall i | 0 <= i < |s| - |TrimStart(s)| :: IsSpace(s[i])
  {
    if |s| > 0 && IsSpace(s[0]) {
      var tail, r := s[1..], TrimStart(s[1..]);
      TrimStartPrefix(tail);
      var m := |tail| - |r|;
      assert TrimStart(s) == r;
      assert s == [s[0]] + tail;
      assert s[..m + 1] == [s[0]] + tail[..m];
      forall i | 1 <= i < m + 1
        ensures IsSpace(s[i])
      {
        assert s[i] == tail[i - 1];
      }
    }
  }

  /** What `TrimEnd` strips is a run of whitespace after what it keeps. */
  lemma {:induction false} TrimEndSuffix(s: string)
    ensures |TrimEnd(s)| <= |s|
    ensures s == TrimEnd(s) + s[|TrimEnd(s)|..]
    ensures forall i | |TrimEnd(s)| <= i < |s| :: IsSpace(s[i])
  {
    if |s| > 0 && IsSpace(s[|s| - 1]) {
      var init := s[..|s| - 1];
      TrimEndSuffix(init);
      var m := |TrimEnd(init)|;
      assert s[m..] == init[m..] + [s[|s| - 1]];
      forall i | m <= i < |s| - 1
        ensures IsSpace(s[i])
      {
        assert s[i] == init[i];
      }
    }
  }

  /** The value of a numeral is at least the value of its first digit. */
  lemma {:induction false} LeadingDigitBound(d: string)
    requires IsNumeral(d)
    ensures DigitsValue(d) >= DigitValue(d[0])
  {
    var init := d[..|d| - 1];
    if |init| > 0 {
      assert init[0] == d[0];
      LeadingDigitBound(init);
    }
  }

  /** A numeral without a leading zero, or the single digit 0, is `str` of its value. */
  lemma {:induction false} CanonicalNatText(d: string)
    requires IsNumeral(d) && (d[0] != '0' || |d| == 1)
    ensures NatText(DigitsValue(d)) == d
  {
    var init, last := d[..|d| - 1], d[|d| - 1];
    assert d == init + [last];
    if |init| == 0 {
      assert DigitsValue(d) == DigitValue(last);
    } else {
      assert init[0] == d[0];
      CanonicalNatText(init);
      LeadingDigitBound(init);
      var v := DigitsValue(init);
      var n := 10 * v + DigitValue(last);
      assert DigitsValue(d) == n;
      assert n / 10 == v && n % 10 == DigitValue(last);
    }
  }

  /** The number of leading zeros of a numeral that can go while one digit stays. */
  function ZeroRun(d: string): (j: nat)
    requires |d| > 0
    ensures j < |d|
    ensures forall i | 0 <= i < j :: d[i] == '0'
    ensures d[j] != '0' || j == |d| - 1
  {
    if |d| > 1 && d[0] == '0' then
      var j := 1 + ZeroRun(d[1..]);
      assert forall i | 1 <= i < j :: d[i] == d[1..][i - 1];
      j
    else 0
  }

  /** `Trim` keeps the middle of its argument, between two runs of whitespace. */
  lemma TrimSplit(s: string) returns (pre: string, post: string)
    ensures s == pre + Trim(s) + post
    ensures forall i | 0 <= i < |pre| :: IsSpace(pre[i])
    ensures forall i | 0 <= i < |post| :: IsSpace(post[i])
  {
    var u := TrimStart(s);
    TrimStartPrefix(s);
    TrimEndSuffix(u);
    pre, post := s[..|s| - |u|], u[|Trim(s)|..];
  }

  /** Text `int()` accepts strips to an optional sign and a numeral. */
  lemma SignSplit(s: string) returns (sign: string, d: string)
    requires ParseInt(s).Some?
    ensures sign == "" || sign == "+" || sign == "-"
    ensures IsNumeral(d) && Trim(s) == sign + d
  {
    var t := Trim(s);
    sign := if |t| > 0 && (t[0] == '+' || t[0] == '-') then t[..1] else "";
    d := t[|sign|..];
    assert t == sign + d;
  }

  /** A numeral is a run of zeros followed by `str` of its value. */
  lemma NumeralSplit(d: string) returns (z: string, n: nat)
    requires IsNumeral(d)
    ensures forall i | 0 <= i < |z| :: z[i] == '0'
    ensures d == z + NatText(n) && DigitsValue(d) == n
  {
    var j := ZeroRun(d);
    var rest := d[j..];
    z := d[..j];
    assert d == z + rest;
    assert rest[0] == d[j];
    CanonicalNatText(rest);
    LeadingZerosValue(z, rest);
    n := DigitsValue(rest);
  }

  /**
   * The converse of `ParseIntPadded`: `int()` accepts only whitespace, an optional sign,
   * leading zeros and `str(n)`, then whitespace, and reads it as the signed `n`. So "5a",
   * "1 2", "+-5", "1.0" and "- 5" are all `ValueError`.
   */
  lemma ParseIntShape(s: string)
    requires ParseInt(s).Some?
    ensures exists pre, sign, z, n: nat, post ::
      (&& IsPadding(pre, sign, z, post)
       && s == pre + sign + z + NatText(n) + post
       && ParseInt(s) == Some((if sign == "-" then -1 else 1) * n))
  {
    var pre, post := TrimSplit(s);
    var sign, d := SignSplit(s);
    var z, n := NumeralSplit(d);
    ParseTrimmed(s, sign, d);
    Reassemble(pre, Trim(s), post, sign, d, z, NatText(n));
    assert IsPadding(pre, sign, z, post);
  }

  /** `str` is injective on product ids: two ids with the same text are the same id. */
  lemma NatTextInjective(a: nat, b: nat)
    ensures NatText(a) == NatText(b) ==> a == b
  {
    ParseNatText(a);
    ParseNatText(b);
  }

  /** Stripping whitespace from a string with no digit leaves a string with no digit. */
  lemma TrimDigitless(s: string)
    requires forall i | 0 <= i < |s| :: !IsDigit(s[i])
    ensures forall i | 0 <= i < |Trim(s)| :: !IsDigit(Trim(s)[i])
  {
    var u := TrimStart(s);
    TrimStartSlice(s);
    TrimEndSlice(u);
    assert forall i | 0 <= i < |u| :: u[i] == s[|s| - |u| + i];
  }

  /** `int()` rejects every string that holds no decimal digit, such as "abc" or "". */
  lemma ParseRejectsDigitless(s: string)
    requires forall i | 0 <= i < |s| :: !IsDigit(s[i])
    ensures ParseInt(s) == None
  {
    var t := Trim(s);
    TrimDigitless(s);
    if |t| > 0 {
      assert !IsDigit(t[0]);
      if |t| > 1 {
        assert !IsDigit(t[1..][0]);
      }
    }
  }
}
