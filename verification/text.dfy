/** The string operations the scripts rely on: Python's substring test `sub in s`,
    the suffix-dropping slice `s[:-n]`, and `int(...)` on the remaining text. */
module Text {
  import opened Results

  /** Python's `sub in s`. */
  predicate Contains(s: string, sub: string) {
    exists i :: 0 <= i <= |s| - |sub| && sub <= s[i..]
  }

  lemma ContainsAt(s: string, sub: string, i: nat)
    requires i + |sub| <= |s| && s[i..i + |sub|] == sub
    ensures Contains(s, sub)
  {
    assert sub <= s[i..];
  }

  /** A marker that uses a character the key lacks cannot occur in the key. */
  lemma MissingCharNotContained(s: string, sub: string, c: char)
    requires c in sub && c !in s
    ensures !Contains(s, sub)
  {
  }

  /** Python's `s[:-n]` for a positive `n`: the last `n` characters removed, or
      the empty string when `s` is shorter than `n`. */
  function DropLast(s: string, n: nat): (r: string)
    requires n >= 1
    ensures n <= |s| ==> |r| == |s| - n && r + s[|s| - n..] == s
    ensures |s| < n ==> r == []
  {
    if |s| < n then [] else s[..|s| - n]
  }

  predicate IsDigit(c: char) {
    '0' <= c <= '9'
  }

  predicate AllDigits(s: string) {
    forall i :: 0 <= i < |s| ==> IsDigit(s[i])
  }

  function DigitValue(c: char): (d: nat)
    requires IsDigit(c)
    ensures d < 10
  {
    (c as int) - ('0' as int)
  }

  function DigitChar(d: nat): (c: char)
    requires d < 10
    ensures IsDigit(c) && DigitValue(c) == d
  {
    (('0' as int) + d) as char
  }

  /** Value of a run of decimal digits, most significant first. */
  function DigitsValue(s: string): nat
    requires AllDigits(s)
  {
    if |s| == 0 then 0 else 10 * DigitsValue(s[..|s| - 1]) + DigitValue(s[|s| - 1])
  }

  /** The text Python's `int` accepts in this model: an optional sign followed
      by one or more ASCII digits. */
  predicate IsIntegerText(s: string) {
    var digits := if |s| > 0 && (s[0] == '-' || s[0] == '+') then s[1..] else s;
    |digits| > 0 && AllDigits(digits)
  }

  /** Python's `int(s)` on a string. */
  function ParseInt(s: string): (r: Result<int>)
    ensures r.Ok? <==> IsIntegerText(s)
    ensures r.Err? ==> r.failure == BadInteger
    ensures r.Ok? && '-' !in s ==> r.value >= 0
  {
    var negative := |s| > 0 && s[0] == '-';
    var digits := if |s| > 0 && (s[0] == '-' || s[0] == '+') then s[1..] else s;
    if |digits| == 0 || !AllDigits(digits) then Err(BadInteger)
    else
      var magnitude: int := DigitsValue(digits);
      Ok(if negative then -magnitude else magnitude)
  }

  /** Python's `int(s[:-unit])`: a numeric value followed by a unit suffix of
      `unit` characters, such as `100MiB` (3) or `7s` (1). */
  function ParseSuffixed(s: string, unit: nat): (r: Result<int>)
    requires unit >= 1
    ensures r.Ok? <==> IsIntegerText(DropLast(s, unit))
    ensures r.Err? ==> r.failure == BadInteger
    ensures r.Ok? && '-' !in s ==> r.value >= 0
  {
    var stripped := DropLast(s, unit);
    assert '-' !in s ==> '-' !in stripped by {
      if '-' in stripped {
        var i :| 0 <= i < |stripped| && stripped[i] == '-';
        assert s[i] == '-';
      }
    }
    ParseInt(stripped)
  }

  /** Decimal rendering of a natural number, the inverse of `DigitsValue`. */
  function ShowNat(n: nat): (r: string)
    ensures |r| > 0 && AllDigits(r)
  {
    if n < 10 then [DigitChar(n)] else ShowNat(n / 10) + [DigitChar(n % 10)]
  }

  /** Decimal rendering of an integer as Python's `str` gives it. */
  function ShowInt(x: int): string {
    if x < 0 then "-" + ShowNat(-x) else ShowNat(x)
  }

  lemma {:induction false} DigitsValueShowNat(n: nat)
    ensures DigitsValue(ShowNat(n)) == n
  {
    if n >= 10 {
      var s := ShowNat(n);
      assert s[..|s| - 1] == ShowNat(n / 10);
      DigitsValueShowNat(n / 10);
    }
  }

  lemma ParseShowInt(x: int)
    ensures ParseInt(ShowInt(x)) == Ok(x)
  {
    var s := ShowInt(x);
    if x < 0 {
      assert s[0] == '-' && s[1..] == ShowNat(-x);
      DigitsValueShowNat(-x);
    } else {
      assert s == ShowNat(x) && IsDigit(s[0]);
      DigitsValueShowNat(x);
    }
  }

  /** Unit stripping round trip: a rendered number followed by any unit of the
      stripped width parses back to that number. */
  lemma ParseSuffixedShow(x: int, unit: string)
    requires |unit| >= 1
    ensures ParseSuffixed(ShowInt(x) + unit, |unit|) == Ok(x)
  {
    var s := ShowInt(x) + unit;
    assert DropLast(s, |unit|) == ShowInt(x);
    ParseShowInt(x);
  }
}
