/** Option/Result wrappers and the small real-number and sequence helpers the
    reasoning engine's formulas are built from. */
module Common {

  datatype Option<+T> = None | Some(value: T)

  datatype Result<+T, +E> = Ok(value: T) | Err(error: E)

  function Abs(x: real): (r: real)
    ensures r >= 0.0
    ensures r == x || r == -x
  {
    if x < 0.0 then -x else x
  }

  /** Math.min of two numbers. */
  function Min(a: real, b: real): (r: real)
    ensures r <= a && r <= b
    ensures r == a || r == b
  {
    if a <= b then a else b
  }

  /** Math.max of two numbers. */
  function Max(a: real, b: real): (r: real)
    ensures r >= a && r >= b
    ensures r == a || r == b
  {
    if a >= b then a else b
  }

  /** Left-to-right sum, the order in which `reduce((a, b) => a + b, 0)` adds. */
  function Sum(xs: seq<real>): real
  {
    if |xs| == 0 then 0.0 else Sum(xs[..|xs| - 1]) + xs[|xs| - 1]
  }

  function Square(x: real): (r: real)
    ensures r >= 0.0
  {
    x * x
  }

  /** Sum of squares, the radicand of the "std" metric. */
  function SumOfSquares(xs: seq<real>): (r: real)
    ensures r >= 0.0
  {
    if |xs| == 0 then 0.0 else SumOfSquares(xs[..|xs| - 1]) + xs[|xs| - 1] * xs[|xs| - 1]
  }

  /** Math.min(...xs) of a non-empty list. */
  function SeqMin(xs: seq<real>): (r: real)
    requires |xs| > 0
    ensures forall i :: 0 <= i < |xs| ==> r <= xs[i]
  {
    if |xs| == 1 then xs[0]
    else
      var m := SeqMin(xs[..|xs| - 1]);
      assert forall i :: 0 <= i < |xs| - 1 ==> xs[..|xs| - 1][i] == xs[i];
      Min(m, xs[|xs| - 1])
  }

  /** The minimum is one of the list's elements. */
  lemma {:induction false} SeqMinAttained(xs: seq<real>)
    requires |xs| > 0
    ensures exists i :: 0 <= i < |xs| && SeqMin(xs) == xs[i]
  {
    if |xs| > 1 {
      var init := xs[..|xs| - 1];
      SeqMinAttained(init);
      var i :| 0 <= i < |init| && SeqMin(init) == init[i];
      assert init[i] == xs[i];
      assert SeqMin(xs) == SeqMin(init) || SeqMin(xs) == xs[|xs| - 1];
    } else {
      assert SeqMin(xs) == xs[0];
    }
  }

  /** Math.max(...xs) of a non-empty list. */
  function SeqMax(xs: seq<real>): (r: real)
    requires |xs| > 0
    ensures forall i :: 0 <= i < |xs| ==> xs[i] <= r
  {
    if |xs| == 1 then xs[0]
    else
      var m := SeqMax(xs[..|xs| - 1]);
      assert forall i :: 0 <= i < |xs| - 1 ==> xs[..|xs| - 1][i] == xs[i];
      Max(m, xs[|xs| - 1])
  }

  /** The maximum is one of the list's elements. */
  lemma {:induction false} SeqMaxAttained(xs: seq<real>)
    requires |xs| > 0
    ensures exists i :: 0 <= i < |xs| && SeqMax(xs) == xs[i]
  {
    if |xs| > 1 {
      var init := xs[..|xs| - 1];
      SeqMaxAttained(init);
      var i :| 0 <= i < |init| && SeqMax(init) == init[i];
      assert init[i] == xs[i];
      assert SeqMax(xs) == SeqMax(init) || SeqMax(xs) == xs[|xs| - 1];
    } else {
      assert SeqMax(xs) == xs[0];
    }
  }

  /** A sum of n terms that all lie in [lo, hi] lies in [n*lo, n*hi]. */
  lemma {:induction false} SumBounds(xs: seq<real>, lo: real, hi: real)
    requires forall i :: 0 <= i < |xs| ==> lo <= xs[i] <= hi
    ensures (|xs| as real) * lo <= Sum(xs) <= (|xs| as real) * hi
  {
    if |xs| > 0 {
      var init := xs[..|xs| - 1];
      assert forall i :: 0 <= i < |init| ==> init[i] == xs[i];
      SumBounds(init, lo, hi);
      assert (|xs| as real) * lo == (|init| as real) * lo + lo;
      assert (|xs| as real) * hi == (|init| as real) * hi + hi;
    }
  }

  lemma QuotientBounds(s: real, n: real, lo: real, hi: real)
    requires n > 0.0
    requires n * lo <= s <= n * hi
    ensures lo <= s / n <= hi
  {
    var q := s / n;
    assert q * n == s;
    assert n * (q - lo) >= 0.0;
    assert n * (hi - q) >= 0.0;
  }

  /** Arithmetic mean of a non-empty list: reduce-sum divided by the length.
      It lies between the list's minimum and maximum. */
  function Mean(xs: seq<real>): (r: real)
    requires |xs| > 0
    ensures SeqMin(xs) <= r <= SeqMax(xs)
  {
    SumBounds(xs, SeqMin(xs), SeqMax(xs));
    QuotientBounds(Sum(xs), |xs| as real, SeqMin(xs), SeqMax(xs));
    Sum(xs) / (|xs| as real)
  }

  /** A list whose entries all equal `c` sums to `n * c`, and its squares to `n * c * c`. */
  lemma {:induction false} ConstantSums(xs: seq<real>, c: real)
    requires forall i :: 0 <= i < |xs| ==> xs[i] == c
    ensures Sum(xs) == (|xs| as real) * c
    ensures SumOfSquares(xs) == (|xs| as real) * (c * c)
  {
    if |xs| > 0 {
      var init := xs[..|xs| - 1];
      assert forall i :: 0 <= i < |init| ==> init[i] == xs[i];
      ConstantSums(init, c);
      assert (|xs| as real) * c == (|init| as real) * c + c;
      assert (|xs| as real) * (c * c) == (|init| as real) * (c * c) + c * c;
    }
  }

  /** Every statistic of a non-empty constant list is the constant (its square
      for the mean square). */
  lemma ConstantStats(xs: seq<real>, c: real)
    requires |xs| > 0 && forall i :: 0 <= i < |xs| ==> xs[i] == c
    ensures Mean(xs) == c && SeqMin(xs) == c && SeqMax(xs) == c
    ensures SumOfSquares(xs) / (|xs| as real) == Square(c)
  {
    var n := |xs| as real;
    var sq := c * c;
    assert Square(c) == sq;
    ConstantSums(xs, c);
    ScaledQuotient(n, c);
    ScaledQuotient(n, sq);
    assert SumOfSquares(xs) == n * sq;
    SeqMinAttained(xs);
    SeqMaxAttained(xs);
  }

  lemma ScaledQuotient(n: real, c: real)
    requires n > 0.0
    ensures (n * c) / n == c
  {
  }

  /** Taking one element out of a sequence takes one occurrence out of its multiset. */
  lemma RemoveAt<T>(s: seq<T>, k: nat)
    requires k < |s|
    ensures multiset(s[..k] + s[k + 1..]) == multiset(s) - multiset{s[k]}
  {
    assert s == s[..k] + [s[k]] + s[k + 1..];
  }

  /** Where the last element of `p` sits in a rearrangement `q`: taking it out
      of both leaves rearrangements of each other. */
  lemma PickOccurrence<T>(p: seq<T>, q: seq<T>) returns (k: nat)
    requires |p| > 0 && multiset(p) == multiset(q)
    ensures k < |q| && q[k] == p[|p| - 1]
    ensures multiset(p[..|p| - 1]) == multiset(q[..k] + q[k + 1..])
  {
    assert p[|p| - 1] in multiset(q);
    k :| 0 <= k < |q| && q[k] == p[|p| - 1];
    RemoveAt(q, k);
    RemoveAt(p, |p| - 1);
    assert p[..|p| - 1] + p[|p|..] == p[..|p| - 1];
  }
}
