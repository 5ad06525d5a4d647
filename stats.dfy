/**
 * Exact arithmetic means, as Enumerable.Average computes them over decimals
 * (without decimal rounding), and the running-mean update the reporting
 * projection performs.
 */
module Stats {

  function Sum(s: seq<real>): real
  {
    if s == [] then 0.0 else Sum(s[..|s| - 1]) + s[|s| - 1]
  }

  /** The mean of s; 0 for the empty sequence (the callers' "Any() ? Average : 0"). */
  function Mean(s: seq<real>): real
  {
    if s == [] then 0.0 else Sum(s) / (|s| as real)
  }

  /** Every element lies in [lo, hi]. */
  ghost predicate Within(s: seq<real>, lo: real, hi: real)
  {
    forall i :: 0 <= i < |s| ==> lo <= s[i] <= hi
  }

  lemma SumSnoc(s: seq<real>, x: real)
    ensures Sum(s + [x]) == Sum(s) + x
  {
    assert (s + [x])[..|s + [x]| - 1] == s;
  }

  lemma {:induction false} SumBounds(s: seq<real>, lo: real, hi: real)
    requires Within(s, lo, hi)
    ensures (|s| as real) * lo <= Sum(s) <= (|s| as real) * hi
    decreases |s|
  {
    if s != [] {
      var init := s[..|s| - 1];
      assert Within(init, lo, hi) by {
        forall i | 0 <= i < |init| ensures lo <= init[i] <= hi {
          assert init[i] == s[i];
        }
      }
      SumBounds(init, lo, hi);
      assert lo <= s[|s| - 1] <= hi;
      assert (|s| as real) * lo == (|init| as real) * lo + lo;
      assert (|s| as real) * hi == (|init| as real) * hi + hi;
    }
  }

  /** The mean of a non-empty sequence lies between any lower and upper bound
      of its elements, in particular between its smallest and largest element. */
  lemma MeanBounds(s: seq<real>, lo: real, hi: real)
    requires s != [] && Within(s, lo, hi)
    ensures lo <= Mean(s) <= hi
  {
    SumBounds(s, lo, hi);
    var n := |s| as real;
    assert n > 0.0;
    assert Mean(s) * n == Sum(s);
    assert (Mean(s) - lo) * n >= 0.0;
    assert (hi - Mean(s)) * n >= 0.0;
  }

  /** The mean scaled by the count gives back the sum. */
  lemma MeanTimesCount(s: seq<real>)
    ensures Mean(s) * (|s| as real) == Sum(s)
  {
  }

  /** Appending x to s of mean m and length n gives mean (m * n + x) / (n + 1):
      the update a running mean performs after incrementing its count. */
  lemma MeanSnoc(s: seq<real>, x: real)
    ensures Mean(s + [x]) == (Mean(s) * (|s| as real) + x) / ((|s| + 1) as real)
  {
    SumSnoc(s, x);
    MeanTimesCount(s);
  }

  /** The mean of a constant sequence is that constant. */
  lemma {:induction false} MeanConstant(s: seq<real>, c: real)
    requires s != [] && forall i :: 0 <= i < |s| ==> s[i] == c
    ensures Mean(s) == c
  {
    MeanBounds(s, c, c);
  }
}
