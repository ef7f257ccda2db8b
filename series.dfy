/** Sums and means over real-valued series: the `sum(...)` and `sum(...) / n`
    that the indicator and digest code use. */
module Series {

  /** `sum(s)`. */
  function Sum(s: seq<real>): real {
    if |s| == 0 then 0.0 else s[0] + Sum(s[1..])
  }

  /** `sum(v)` of an integer series (volumes). */
  function IntSum(v: seq<int>): int {
    if |v| == 0 then 0 else v[0] + IntSum(v[1..])
  }

  lemma {:induction false} IntSumConstant(v: seq<int>, c: int)
    requires forall i :: 0 <= i < |v| ==> v[i] == c
    ensures IntSum(v) == |v| * c
  {
    if |v| > 0 {
      IntSumConstant(v[1..], c);
    }
  }

  /** Arithmetic mean of a non-empty series. */
  function Mean(s: seq<real>): real
    requires |s| > 0
  {
    Sum(s) / |s| as real
  }

  lemma {:induction false} SumAppend(a: seq<real>, b: seq<real>)
    ensures Sum(a + b) == Sum(a) + Sum(b)
  {
    if |a| == 0 {
      assert a + b == b;
    } else {
      assert (a + b)[1..] == a[1..] + b;
      SumAppend(a[1..], b);
    }
  }

  /** A series of non-negative elements has a non-negative sum, and a
      positive one when some element is positive. */
  lemma {:induction false} SumNonnegative(s: seq<real>)
    requires forall i :: 0 <= i < |s| ==> 0.0 <= s[i]
    ensures 0.0 <= Sum(s)
    ensures (exists i :: 0 <= i < |s| && 0.0 < s[i]) ==> 0.0 < Sum(s)
  {
    if |s| > 0 {
      SumNonnegative(s[1..]);
      if exists i :: 0 <= i < |s| && 0.0 < s[i] {
        var i :| 0 <= i < |s| && 0.0 < s[i];
        if i > 0 {
          assert s[1..][i - 1] == s[i];
        }
      }
    }
  }

  /** Every element lies in [lo, hi], so the sum lies in [n*lo, n*hi]. */
  lemma {:induction false} SumBounds(s: seq<real>, lo: real, hi: real)
    requires forall i :: 0 <= i < |s| ==> lo <= s[i] <= hi
    ensures |s| as real * lo <= Sum(s) <= |s| as real * hi
  {
    if |s| > 0 {
      SumBounds(s[1..], lo, hi);
    }
  }

  /** A series whose elements are all `c` sums to n*c. */
  lemma {:induction false} SumConstant(s: seq<real>, c: real)
    requires forall i :: 0 <= i < |s| ==> s[i] == c
    ensures Sum(s) == |s| as real * c
  {
    if |s| > 0 {
      SumConstant(s[1..], c);
    }
  }

  /** Every element lies in [lo, hi], so the mean does too. */
  lemma MeanBounds(s: seq<real>, lo: real, hi: real)
    requires |s| > 0
    requires forall i :: 0 <= i < |s| ==> lo <= s[i] <= hi
    ensures lo <= Mean(s) <= hi
  {
    SumBounds(s, lo, hi);
    var n := |s| as real;
    assert Mean(s) * n == Sum(s);
  }

  /** The mean of a constant series is that constant. */
  lemma MeanConstant(s: seq<real>, c: real)
    requires |s| > 0
    requires forall i :: 0 <= i < |s| ==> s[i] == c
    ensures Mean(s) == c
  {
    SumConstant(s, c);
  }
}
