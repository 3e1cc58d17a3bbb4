/**
 * The series `plot_country` derives from one country's date-sorted rows: running sums
 * (`cumsum`), pointwise quotients (`/`), and the centred rolling mean
 * (`rolling(window, center=True).mean()`). Quotients and means are exact reals; an
 * absent value (`None`) stands for pandas' NaN or infinity.
 */
module Series {
  import opened Common
  import opened Seqs

  /** Running totals of `xs` on top of `acc`, accumulated front to back. */
  function RunningFrom(acc: int, xs: seq<int>): (r: seq<int>)
    ensures |r| == |xs|
    decreases |xs|
  {
    if xs == [] then [] else [acc + xs[0]] + RunningFrom(acc + xs[0], xs[1..])
  }

  /** pandas' `cumsum`. */
  function CumSum(xs: seq<int>): (r: seq<int>)
    ensures |r| == |xs|
  {
    RunningFrom(0, xs)
  }

  lemma {:induction false} RunningFromAt(acc: int, xs: seq<int>, i: nat)
    requires i < |xs|
    ensures RunningFrom(acc, xs)[i] == acc + Sum(xs[..i + 1])
    decreases |xs|
  {
    assert xs[..i + 1] == [xs[0]] + xs[1..][..i];
    if i > 0 {
      RunningFromAt(acc + xs[0], xs[1..], i - 1);
    }
  }

  /** Position i of the running sum is the total of the first i + 1 values; the last is the total. */
  lemma CumSumIsPrefixSums(xs: seq<int>)
    ensures forall i :: 0 <= i < |xs| ==> CumSum(xs)[i] == Sum(xs[..i + 1])
    ensures |xs| > 0 ==> CumSum(xs)[|xs| - 1] == Sum(xs)
  {
    forall i | 0 <= i < |xs| ensures CumSum(xs)[i] == Sum(xs[..i + 1]) {
      RunningFromAt(0, xs, i);
    }
    if |xs| > 0 {
      assert xs[..|xs|] == xs;
    }
  }

  /** Running sums of non-negative counts never decrease and never drop below the start. */
  lemma {:induction false} RunningFromNonDecreasing(acc: int, xs: seq<int>)
    requires forall k :: 0 <= k < |xs| ==> xs[k] >= 0
    ensures forall i :: 0 <= i < |xs| ==> acc <= RunningFrom(acc, xs)[i]
    ensures forall i, j :: 0 <= i < j < |xs| ==> RunningFrom(acc, xs)[i] <= RunningFrom(acc, xs)[j]
    decreases |xs|
  {
    if xs != [] {
      RunningFromNonDecreasing(acc + xs[0], xs[1..]);
    }
  }

  lemma CumSumNonDecreasing(xs: seq<int>)
    requires forall k :: 0 <= k < |xs| ==> xs[k] >= 0
    ensures forall i :: 0 <= i < |xs| ==> 0 <= CumSum(xs)[i]
    ensures forall i, j :: 0 <= i < j < |xs| ==> CumSum(xs)[i] <= CumSum(xs)[j]
  {
    RunningFromNonDecreasing(0, xs);
  }

  /** Running sums keep a pointwise ordering of their inputs. */
  lemma {:induction false} RunningFromDominated(acc: int, xs: seq<int>, ys: seq<int>)
    requires |xs| == |ys|
    requires forall k :: 0 <= k < |xs| ==> xs[k] <= ys[k]
    ensures forall i :: 0 <= i < |xs| ==> RunningFrom(acc, xs)[i] <= RunningFrom(acc, ys)[i]
    decreases |xs|
  {
    if xs != [] {
      var d := ys[0] - xs[0];
      RunningFromDominated(acc + xs[0], xs[1..], ys[1..]);
      RunningFromShift(acc + xs[0], d, ys[1..]);
    }
  }

  lemma {:induction false} RunningFromShift(acc: int, d: int, xs: seq<int>)
    ensures forall i :: 0 <= i < |xs| ==> RunningFrom(acc + d, xs)[i] == RunningFrom(acc, xs)[i] + d
    decreases |xs|
  {
    if xs != [] {
      RunningFromShift(acc + xs[0], d, xs[1..]);
    }
  }

  lemma CumSumDominated(xs: seq<int>, ys: seq<int>)
    requires |xs| == |ys|
    requires forall k :: 0 <= k < |xs| ==> xs[k] <= ys[k]
    ensures forall i :: 0 <= i < |xs| ==> CumSum(xs)[i] <= CumSum(ys)[i]
  {
    RunningFromDominated(0, xs, ys);
  }

  /** One point of `a / b` between two integer columns: absent where the divisor is 0. */
  function Div(n: int, d: int): (q: Option<real>)
    ensures q.Some? <==> d != 0
    ensures q.Some? ==> q.value * d as real == n as real
  {
    if d == 0 then None else Some(n as real / d as real)
  }

  /** A non-negative part of a positive whole gives a share in [0, 1], which is 0 only when the part is. */
  lemma DivShare(n: int, d: int)
    requires 0 <= n <= d && d != 0
    ensures Div(n, d).Some?
    ensures 0.0 <= Div(n, d).value <= 1.0
    ensures Div(n, d).value == 0.0 <==> n == 0
  {
  }

  /** Elementwise `ns / ds`. */
  function Quotients(ns: seq<int>, ds: seq<int>): (qs: seq<Option<real>>)
    requires |ns| == |ds|
    ensures |qs| == |ns|
  {
    seq(|ns|, i requires 0 <= i < |ns| => Div(ns[i], ds[i]))
  }

  /** Sum of a window; absent if any value in it is. */
  function Total(ys: seq<Option<real>>): Option<real> {
    if ys == [] then Some(0.0)
    else match (ys[0], Total(ys[1..]))
      case (Some(y), Some(t)) => Some(y + t)
      case _ => None
  }

  lemma {:induction false} TotalDefined(ys: seq<Option<real>>)
    ensures Total(ys).Some? <==> forall k :: 0 <= k < |ys| ==> ys[k].Some?
  {
    if ys != [] {
      TotalDefined(ys[1..]);
      assert forall k :: 1 <= k < |ys| ==> ys[k] == ys[1..][k - 1];
    }
  }

  /** A sum of values that all lie in [lo, hi] lies in [n * lo, n * hi]. */
  lemma {:induction false} TotalBounds(ys: seq<Option<real>>, lo: real, hi: real)
    requires Total(ys).Some?
    requires forall k :: 0 <= k < |ys| && ys[k].Some? ==> lo <= ys[k].value <= hi
    ensures |ys| as real * lo <= Total(ys).value <= |ys| as real * hi
  {
    if ys != [] {
      var tail := ys[1..];
      assert Total(tail).Some? && ys[0].Some?;
      assert forall k :: 0 <= k < |tail| ==> tail[k] == ys[k + 1];
      TotalBounds(tail, lo, hi);
      var n := |tail| as real;
      assert Total(ys).value == ys[0].value + Total(tail).value;
      assert |ys| as real * lo == n * lo + lo && |ys| as real * hi == n * hi + hi;
    }
  }

  /** pandas' centring shift for a window of `w` points. */
  function Offset(w: nat): nat
    requires w >= 1
  {
    (w - 1) / 2
  }

  /** The first position of the window that is centred on position `i`. */
  function WindowStart(i: int, w: nat): int
    requires w >= 1
  {
    i + 1 + Offset(w) - w
  }

  /** Mean of the `w` values from `lo` on; absent unless the whole window exists and is defined. */
  function WindowMean(xs: seq<Option<real>>, lo: int, w: nat): Option<real>
    requires w >= 1
  {
    if lo < 0 || lo + w > |xs| then None
    else match Total(xs[lo..lo + w])
      case None => None
      case Some(t) => Some(t / w as real)
  }

  /** `rolling(w, center=True).mean()` with pandas' default `min_periods = w`. */
  function RollingMean(xs: seq<Option<real>>, w: nat): (r: seq<Option<real>>)
    requires w >= 1
    ensures |r| == |xs|
  {
    seq(|xs|, i requires 0 <= i < |xs| => WindowMean(xs, WindowStart(i, w), w))
  }

  /**
   * Position i of the rolling mean is defined exactly when its whole window
   * `[i - w + 1 + (w - 1) / 2, i + (w - 1) / 2]` lies inside the series and every value
   * in it is defined; the value is then the window's mean.
   */
  lemma RollingMeanDefined(xs: seq<Option<real>>, w: nat, i: nat)
    requires w >= 1 && i < |xs|
    ensures RollingMean(xs, w)[i].Some? <==>
      && 0 <= WindowStart(i, w)
      && i + Offset(w) < |xs|
      && forall k :: WindowStart(i, w) <= k <= i + Offset(w) ==> xs[k].Some?
    ensures RollingMean(xs, w)[i].Some? ==>
      RollingMean(xs, w)[i].value * w as real == Total(xs[WindowStart(i, w)..WindowStart(i, w) + w]).value
  {
    var lo := WindowStart(i, w);
    assert RollingMean(xs, w)[i] == WindowMean(xs, lo, w);
    assert lo + w - 1 == i + Offset(w);
    WindowMeanDefined(xs, lo, w);
  }

  /** The mean of the `w` values from `lo` on is defined exactly when they all exist and are defined. */
  lemma WindowMeanDefined(xs: seq<Option<real>>, lo: int, w: nat)
    requires w >= 1
    ensures WindowMean(xs, lo, w).Some? <==>
      0 <= lo && lo + w <= |xs| && forall k :: lo <= k < lo + w ==> xs[k].Some?
    ensures WindowMean(xs, lo, w).Some? ==>
      WindowMean(xs, lo, w).value * w as real == Total(xs[lo..lo + w]).value
  {
    if 0 <= lo && lo + w <= |xs| {
      var win := xs[lo..lo + w];
      TotalDefined(win);
      assert forall k :: lo <= k < lo + w ==> xs[k] == win[k - lo];
      if Total(win).Some? {
        var t := Total(win).value;
        assert WindowMean(xs, lo, w) == Some(t / w as real);
        assert (t / w as real) * w as real == t;
      }
    }
  }

  /** A rolling mean of values in [lo, hi] stays in [lo, hi]. */
  lemma RollingMeanBounds(xs: seq<Option<real>>, w: nat, lo: real, hi: real)
    requires w >= 1
    requires forall k :: 0 <= k < |xs| && xs[k].Some? ==> lo <= xs[k].value <= hi
    ensures forall i :: 0 <= i < |xs| && RollingMean(xs, w)[i].Some? ==>
      lo <= RollingMean(xs, w)[i].value <= hi
  {
    forall i | 0 <= i < |xs| && RollingMean(xs, w)[i].Some?
      ensures lo <= RollingMean(xs, w)[i].value <= hi
    {
      WindowMeanBounds(xs, WindowStart(i, w), w, lo, hi);
    }
  }

  lemma WindowMeanBounds(xs: seq<Option<real>>, start: int, w: nat, lo: real, hi: real)
    requires w >= 1
    requires forall k :: 0 <= k < |xs| && xs[k].Some? ==> lo <= xs[k].value <= hi
    ensures WindowMean(xs, start, w).Some? ==> lo <= WindowMean(xs, start, w).value <= hi
  {
    if WindowMean(xs, start, w).Some? {
      var win := xs[start..start + w];
      assert forall k :: 0 <= k < |win| ==> win[k] == xs[start + k];
      TotalBounds(win, lo, hi);
      MeanWithin(Total(win).value, w as real, lo, hi);
    }
  }

  lemma MeanWithin(t: real, n: real, lo: real, hi: real)
    requires n > 0.0 && n * lo <= t <= n * hi
    ensures lo <= t / n <= hi
  {
    assert t / n * n == t;
  }

  /** Number of defined points of a series. */
  function CountDefined(s: seq<Option<real>>): nat {
    if s == [] then 0
    else CountDefined(s[..|s| - 1]) + (if s[|s| - 1].Some? then 1 else 0)
  }

  /** Number of integers in [a, b]. */
  function Span(a: int, b: int): nat {
    if a <= b then b - a + 1 else 0
  }

  lemma {:induction false} CountDefinedWithin(s: seq<Option<real>>, a: int, b: int)
    requires 0 <= a && b < |s|
    requires forall i :: 0 <= i < |s| && s[i].Some? ==> a <= i <= b
    ensures CountDefined(s) <= Span(a, b)
  {
    if s != [] {
      var n := |s|;
      var init := s[..n - 1];
      var b' := if b < n - 1 then b else n - 2;
      assert forall i :: 0 <= i < |init| ==> init[i] == s[i];
      CountDefinedWithin(init, a, b');
    }
  }

  lemma {:induction false} CountDefinedExactly(s: seq<Option<real>>, a: int, b: int)
    requires 0 <= a && b < |s|
    requires forall i :: 0 <= i < |s| ==> (s[i].Some? <==> a <= i <= b)
    ensures CountDefined(s) == Span(a, b)
  {
    if s != [] {
      var n := |s|;
      var init := s[..n - 1];
      var b' := if b < n - 1 then b else n - 2;
      assert forall i :: 0 <= i < |init| ==> init[i] == s[i];
      CountDefinedExactly(init, a, b');
    }
  }

  /**
   * At most max(0, n - w + 1) points of a rolling mean are defined, and exactly that many
   * when every input point is.
   */
  lemma RollingMeanCount(xs: seq<Option<real>>, w: nat)
    requires w >= 1
    ensures CountDefined(RollingMean(xs, w)) <= (if |xs| >= w then |xs| - w + 1 else 0)
    ensures (forall k :: 0 <= k < |xs| ==> xs[k].Some?) ==>
      CountDefined(RollingMean(xs, w)) == (if |xs| >= w then |xs| - w + 1 else 0)
  {
    var r := RollingMean(xs, w);
    var a := w - 1 - Offset(w);
    var b := |xs| - 1 - Offset(w);
    forall i | 0 <= i < |xs| ensures r[i].Some? ==> a <= i <= b {
      RollingMeanDefined(xs, w, i);
    }
    if |xs| > 0 {
      CountDefinedWithin(r, a, b);
    }
    if forall k :: 0 <= k < |xs| ==> xs[k].Some? {
      forall i | 0 <= i < |xs| ensures r[i].Some? <==> a <= i <= b {
        RollingMeanDefined(xs, w, i);
      }
      if |xs| > 0 {
        CountDefinedExactly(r, a, b);
      }
    }
  }

  /**
   * Cases 10, 0, 30 with deaths 1, 0, 3: the daily ratio is 0.1, absent, 0.1 and its
   * two-point rolling mean is absent throughout; the cumulative ratio is 0.1 at every
   * date and its rolling mean is absent only at the first.
   */
  lemma RatioExample()
    ensures Quotients([1, 0, 3], [10, 0, 30]) == [Some(0.1), None, Some(0.1)]
    ensures RollingMean([Some(0.1), None, Some(0.1)], 2) == [None, None, None]
    ensures Quotients(CumSum([1, 0, 3]), CumSum([10, 0, 30])) == [Some(0.1), Some(0.1), Some(0.1)]
    ensures RollingMean([Some(0.1), Some(0.1), Some(0.1)], 2) == [None, Some(0.1), Some(0.1)]
  {
    assert CumSum([1, 0, 3]) == [1, 1, 4];
    assert CumSum([10, 0, 30]) == [10, 10, 40];
    var xs := [Some(0.1), Some(0.1), Some(0.1)];
    assert xs[0..2] == [Some(0.1), Some(0.1)] && xs[1..3] == [Some(0.1), Some(0.1)];
    assert Total([Some(0.1), Some(0.1)]) == Some(0.2);
  }
}
