/** Text helpers behind the profile's f-strings: Python's `str()` of a
    non-negative integer (as used for `len(...)` inside an f-string) and the
    prefix/suffix splitting needed to read such a string back. Every renderer
    here has a parser beside it, and the lemmas prove that parsing undoes
    rendering. */
module Format {

  datatype Option<T> = None | Some(value: T)

  predicate IsDigit(c: char) {
    '0' <= c <= '9'
  }

  predicate AllDigits(s: string) {
    forall i :: 0 <= i < |s| ==> IsDigit(s[i])
  }

  /** True when `s` is empty or its last character is not a decimal digit, so
      that a number written right after it can be found again. */
  predicate NoTrailingDigit(s: string) {
    s == [] || !IsDigit(s[|s| - 1])
  }

  function DigitValue(c: char): (d: nat)
    requires IsDigit(c)
    ensures d < 10
  {
    c as int - '0' as int
  }

  function DigitChar(d: nat): (c: char)
    requires d < 10
    ensures IsDigit(c) && DigitValue(c) == d
  {
    (d + '0' as int) as char
  }

  /** Python's `str(n)` for `n >= 0`: decimal digits, most significant first,
      with no leading zero except for `0` itself. */
  function NatToString(n: nat): (s: string)
    ensures |s| >= 1 && AllDigits(s)
    ensures s[0] == '0' <==> n == 0
    ensures n < 10 <==> |s| == 1
  {
    if n < 10 then [DigitChar(n)] else NatToString(n / 10) + [DigitChar(n % 10)]
  }

  /** The value of a string of decimal digits, most significant first. */
  function DigitsValue(s: string): (n: nat)
    requires AllDigits(s)
  {
    if s == [] then 0 else 10 * DigitsValue(s[..|s| - 1]) + DigitValue(s[|s| - 1])
  }

  /** Reading back what `NatToString` wrote gives the number it was given. */
  lemma {:induction false} DigitsRoundTrip(n: nat)
    ensures DigitsValue(NatToString(n)) == n
  {
    var s := NatToString(n);
    if n >= 10 {
      assert s[..|s| - 1] == NatToString(n / 10);
      DigitsRoundTrip(n / 10);
    } else {
      assert s[..|s| - 1] == [];
    }
  }

  /** The length of the longest run of digits that `s` ends with. */
  function TrailingDigits(s: string): (k: nat)
    ensures k <= |s|
    ensures forall i :: |s| - k <= i < |s| ==> IsDigit(s[i])
    ensures NoTrailingDigit(s[..|s| - k])
  {
    if s == [] || !IsDigit(s[|s| - 1]) then 0
    else
      var k := 1 + TrailingDigits(s[..|s| - 1]);
      assert s[..|s| - k] == s[..|s| - 1][..|s| - k];
      k
  }

  /** A digit string as Python's `str()` writes a number: non-empty, and no
      leading zero unless it is the single digit `0`. */
  predicate Canonical(d: string) {
    |d| >= 1 && AllDigits(d) && (|d| > 1 ==> d[0] != '0')
  }

  /** Every canonical digit string is what `NatToString` writes for its value. */
  lemma {:induction false} CanonicalRoundTrip(d: string)
    requires Canonical(d)
    ensures NatToString(DigitsValue(d)) == d
    ensures |d| > 1 ==> DigitsValue(d) >= 10
  {
    var init, c := d[..|d| - 1], d[|d| - 1];
    assert d == init + [c];
    if |d| == 1 {
      assert init == [];
      assert DigitChar(DigitValue(c)) == c;
    } else {
      assert init[0] == d[0];
      CanonicalRoundTrip(init);
      var w := DigitsValue(init);
      if |init| == 1 {
        assert w == DigitValue(init[0]);
      }
      assert w >= 1;
      var v := 10 * w + DigitValue(c);
      assert DigitsValue(d) == v;
      assert v / 10 == w && v % 10 == DigitValue(c);
      assert DigitChar(DigitValue(c)) == c;
    }
  }

  /** Splits the number a string ends with off it: the text before the number
      and the number's value. None when the string does not end in a digit,
      or when the digits are not written as `str()` writes a number (a
      leading zero). What it returns puts the string back together. */
  function SplitTrailingNumber(s: string): (r: Option<(string, nat)>)
    ensures NoTrailingDigit(s) ==> r.None?
    ensures r.Some? ==> NoTrailingDigit(r.value.0) && s == r.value.0 + NatToString(r.value.1)
  {
    var k := TrailingDigits(s);
    if k == 0 || (k > 1 && s[|s| - k] == '0') then None
    else
      var d := s[|s| - k..];
      assert Canonical(d);
      CanonicalRoundTrip(d);
      assert s == s[..|s| - k] + d;
      Some((s[..|s| - k], DigitsValue(d)))
  }

  lemma {:induction false} TrailingDigitsAfter(p: string, d: string)
    requires NoTrailingDigit(p) && AllDigits(d)
    ensures TrailingDigits(p + d) == |d|
  {
    if d == [] {
      assert p + d == p;
    } else {
      var d' := d[..|d| - 1];
      assert (p + d)[..|p + d| - 1] == p + d';
      TrailingDigitsAfter(p, d');
    }
  }

  /** A number written after text that does not end in a digit is split off
      again exactly: the text and the number come back. */
  lemma SplitAfterNumber(p: string, n: nat)
    requires NoTrailingDigit(p)
    ensures SplitTrailingNumber(p + NatToString(n)) == Some((p, n))
  {
    var d := NatToString(n);
    TrailingDigitsAfter(p, d);
    assert (p + d)[..|p + d| - |d|] == p;
    assert (p + d)[|p + d| - |d|..] == d;
    DigitsRoundTrip(n);
  }

  function StripPrefix(s: string, prefix: string): (r: Option<string>)
    ensures r.Some? <==> prefix <= s
    ensures r.Some? ==> s == prefix + r.value
  {
    if prefix <= s then Some(s[|prefix|..]) else None
  }

  function StripSuffix(s: string, suffix: string): (r: Option<string>)
    ensures r.Some? <==> |suffix| <= |s| && s[|s| - |suffix|..] == suffix
    ensures r.Some? ==> s == r.value + suffix
  {
    if |suffix| <= |s| && s[|s| - |suffix|..] == suffix then Some(s[..|s| - |suffix|]) else None
  }

  lemma StripPrefixOfConcat(prefix: string, t: string)
    ensures StripPrefix(prefix + t, prefix) == Some(t)
  {
  }

  lemma StripSuffixOfConcat(t: string, suffix: string)
    ensures StripSuffix(t + suffix, suffix) == Some(t)
  {
  }
}
