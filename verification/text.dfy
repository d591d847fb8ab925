/** String helpers used by the prompt builders: JavaScript's `Array.join`,
    the decimal rendering of a step number inside a template literal, and
    prefix/suffix tests. Strings are sequences of characters. */
module Text {

  predicate StartsWith(s: string, prefix: string)
  {
    prefix <= s
  }

  lemma PrefixExtend(prefix: string, s: string, t: string)
    requires StartsWith(s, prefix)
    ensures StartsWith(s + t, prefix)
  {
  }

  predicate EndsWith(s: string, suffix: string)
  {
    |suffix| <= |s| && s[|s| - |suffix|..] == suffix
  }

  lemma EndsWithAppend(s: string, suffix: string)
    ensures EndsWith(s + suffix, suffix)
  {
    assert (s + suffix)[|s|..] == suffix;
  }

  /** Text in front keeps a suffix. */
  lemma EndsWithPrepend(s: string, t: string, suffix: string)
    requires EndsWith(t, suffix)
    ensures EndsWith(s + t, suffix)
  {
    assert (s + t)[|s + t| - |suffix|..] == t[|t| - |suffix|..];
  }

  /** A string whose second-to-last character differs from the suffix's does
      not end with it, whatever stands in front. */
  lemma PenultimateDiffers(s: string, t: string, suffix: string)
    requires |t| >= 2 && |suffix| >= 2 && t[|t| - 2] != suffix[|suffix| - 2]
    ensures !EndsWith(s + t, suffix)
  {
    var r := s + t;
    assert r[|r| - 2] == t[|t| - 2];
    assert |suffix| <= |r| ==> r[|r| - |suffix|..][|suffix| - 2] == r[|r| - 2];
  }

  /** The parts of a concatenation are found at their offsets. */
  lemma ConcatParts(h: string, b: string, q: string, t: string)
    ensures StartsWith(h + (b + q + t), h)
    ensures (h + (b + q + t))[|h|..] == b + q + t
    ensures |h| + |b| + |q| <= |h + (b + q + t)|
    ensures (h + (b + q + t))[|h| + |b|..|h| + |b| + |q|] == q
  {
    var r := h + (b + q + t);
    assert r[|h|..] == b + q + t;
    assert r[|h| + |b|..|h| + |b| + |q|] == (b + q + t)[|b|..|b| + |q|];
  }

  /** `xs.join(sep)`: the elements in order, with `sep` between neighbours. */
  function Join(xs: seq<string>, sep: string): (r: string)
    ensures |xs| == 0 ==> r == ""
    ensures |xs| == 1 ==> r == xs[0]
    ensures |xs| > 0 ==> StartsWith(r, xs[0])
  {
    if |xs| == 0 then ""
    else if |xs| == 1 then xs[0]
    else xs[0] + sep + Join(xs[1..], sep)
  }

  predicate IsDigit(c: char)
  {
    '0' as int <= c as int <= '9' as int
  }

  function DigitChar(d: nat): (c: char)
    requires d < 10
    ensures IsDigit(c) && (c as int) - ('0' as int) == d
  {
    (('0' as int) + d) as char
  }

  /** Value of a string of decimal digits, most significant first. */
  function DecimalValue(s: string): nat
    requires forall i :: 0 <= i < |s| ==> IsDigit(s[i])
  {
    if |s| == 0 then 0
    else
      assert IsDigit(s[|s| - 1]);
      DecimalValue(s[..|s| - 1]) * 10 + ((s[|s| - 1] as int) - ('0' as int))
  }

  /** `${n}` for a non-negative integer: shortest decimal numeral, reading back as `n`. */
  function NatToDecimal(n: nat): (s: string)
    ensures |s| >= 1
    ensures forall i :: 0 <= i < |s| ==> IsDigit(s[i])
    ensures |s| > 1 ==> s[0] != '0'
    ensures DecimalValue(s) == n
  {
    if n < 10 then [DigitChar(n)]
    else
      var prefix := NatToDecimal(n / 10);
      var s := prefix + [DigitChar(n % 10)];
      assert s[..|s| - 1] == prefix;
      s
  }

  lemma NatToDecimalInjective(m: nat, n: nat)
    requires NatToDecimal(m) == NatToDecimal(n)
    ensures m == n
  {
  }
}
