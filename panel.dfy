/**
 * `plot_country`: for each chosen country, four traces on the rows of one figure —
 * Cases, Deaths, Deaths/pop and the smoothed Deaths/Cases ratio — each coloured by the
 * country's position in the `Dark24` palette.
 */
module Panel {
  import opened Common
  import opened Seqs
  import opened Table
  import opened Series

  /** Number of colours in plotly's qualitative `Dark24` palette. */
  const PaletteSize: nat := 24

  /** `window_size` when the caller does not pass one. */
  const DefaultWindow: nat := 2

  /** The y values of a trace: counts on rows 1 and 2, quotients on rows 3 and 4. */
  datatype Values = Counts(counts: seq<int>) | Reals(reals: seq<Option<real>>)

  /**
   * One `go.Scatter` added with `fig.add_trace(..., row=row, col=1)`: its name, the index of
   * its `Dark24` colour, whether it shows in the legend, its dates and its values.
   */
  datatype Trace = Trace(row: nat, name: string, colour: nat, showLegend: bool, x: seq<int>, y: Values)

  function Size(v: Values): nat {
    match v
    case Counts(cs) => |cs|
    case Reals(rs) => |rs|
  }

  /** The ratio series before smoothing: daily deaths/cases, or cumulative over cumulative. */
  function RatioSeries(own: seq<Row>, cum: bool): (r: seq<Option<real>>)
    ensures |r| == |own|
  {
    var cases := Column(own, Cases);
    var deaths := Column(own, Deaths);
    if cum then Quotients(CumSum(deaths), CumSum(cases)) else Quotients(deaths, cases)
  }

  /**
   * What one pass of the loop in `plot_country` adds for country `c` at position `i`,
   * given that country's rows sorted by date (`df_plot`).
   */
  function Traces(own: seq<Row>, c: string, i: nat, w: nat, cum: bool): (ts: seq<Trace>)
    requires w >= 1
    ensures |ts| == 4
  {
    var dates := Dates(own);
    var cases := Column(own, Cases);
    var deaths := Column(own, Deaths);
    [ Trace(1, (if cum then "Cases-" else "Cases - ") + c, i, false, dates,
            Counts(if cum then CumSum(cases) else cases)),
      Trace(2, (if cum then "Deaths-" else "Deaths - ") + c, i, false, dates,
            Counts(if cum then CumSum(deaths) else deaths)),
      Trace(3, "D/pop - " + c, i, false, dates,
            Reals(Quotients(if cum then CumSum(deaths) else deaths, Pops(own)))),
      Trace(4, c, i, true, dates, Reals(RollingMean(RatioSeries(own, cum), w))) ]
  }

  function CountryTraces(rows: seq<Row>, c: string, i: nat, w: nat, cum: bool): (ts: seq<Trace>)
    requires w >= 1
    ensures |ts| == 4
  {
    Traces(CountryRows(rows, c), c, i, w, cum)
  }

  /** The traces of the whole figure, country by country, in the order they are added. */
  function Figure(rows: seq<Row>, countries: seq<string>, w: nat, cum: bool): (fig: seq<Trace>)
    requires w >= 1
    decreases |countries|
  {
    if countries == [] then []
    else
      var n := |countries| - 1;
      Figure(rows, countries[..n], w, cum) + CountryTraces(rows, countries[n], n, w, cum)
  }

  lemma FigureStep(rows: seq<Row>, countries: seq<string>, i: nat, w: nat, cum: bool)
    requires w >= 1 && i < |countries|
    ensures Figure(rows, countries[..i + 1], w, cum)
         == Figure(rows, countries[..i], w, cum) + CountryTraces(rows, countries[i], i, w, cum)
  {
    assert countries[..i + 1][..i] == countries[..i];
  }

  /** One pass of the loop: add the four traces of country `c`, coloured `Dark24[i]`. */
  method AddCountry(traces: seq<Trace>, rows: seq<Row>, c: string, i: nat, windowSize: nat, cum: bool)
    returns (traces': seq<Trace>)
    requires windowSize >= 1
    ensures traces' == traces + CountryTraces(rows, c, i, windowSize, cum)
  {
    var own := CountryRows(rows, c);
    var dates := Dates(own);
    var cases := Column(own, Cases);
    var deaths := Column(own, Deaths);
    var t1, t2, t3, t4;
    traces' := traces;
    if cum {
      t1 := Trace(1, "Cases-" + c, i, false, dates, Counts(CumSum(cases)));
    } else {
      t1 := Trace(1, "Cases - " + c, i, false, dates, Counts(cases));
    }
    traces' := traces' + [t1];
    if cum {
      t2 := Trace(2, "Deaths-" + c, i, false, dates, Counts(CumSum(deaths)));
    } else {
      t2 := Trace(2, "Deaths - " + c, i, false, dates, Counts(deaths));
    }
    traces' := traces' + [t2];
    if cum {
      t3 := Trace(3, "D/pop - " + c, i, false, dates, Reals(Quotients(CumSum(deaths), Pops(own))));
    } else {
      t3 := Trace(3, "D/pop - " + c, i, false, dates, Reals(Quotients(deaths, Pops(own))));
    }
    traces' := traces' + [t3];
    if cum {
      t4 := Trace(4, c, i, true, dates, Reals(RollingMean(Quotients(CumSum(deaths), CumSum(cases)), windowSize)));
    } else {
      t4 := Trace(4, c, i, true, dates, Reals(RollingMean(Quotients(deaths, cases), windowSize)));
    }
    traces' := traces' + [t4];
    assert traces' == traces + [t1, t2, t3, t4];
  }

  /**
   * `plot_country(df, countries, window_size, cum)`: add four traces per country. The
   * 25th country's colour `Dark24[24]` raises an IndexError and the figure is lost.
   */
  method PlotCountry(rows: seq<Row>, countries: seq<string>, windowSize: nat, cum: bool)
    returns (res: Result<seq<Trace>>)
    requires windowSize >= 1
    ensures |countries| <= PaletteSize ==> res == Success(Figure(rows, countries, windowSize, cum))
    ensures |countries| > PaletteSize ==> res == Failure(IndexError)
  {
    var traces: seq<Trace> := [];
    var i := 0;
    while i < |countries|
      invariant 0 <= i <= |countries| && i <= PaletteSize
      invariant traces == Figure(rows, countries[..i], windowSize, cum)
    {
      if i >= PaletteSize {
        return Failure(IndexError);
      }
      traces := AddCountry(traces, rows, countries[i], i, windowSize, cum);
      FigureStep(rows, countries, i, windowSize, cum);
      i := i + 1;
    }
    assert countries[..i] == countries;
    return Success(traces);
  }

  /** Trace k of the figure is trace k % 4 of country k / 4. */
  lemma FigureIndex(rows: seq<Row>, countries: seq<string>, w: nat, cum: bool)
    requires w >= 1
    ensures |Figure(rows, countries, w, cum)| == 4 * |countries|
    ensures forall k :: 0 <= k < |Figure(rows, countries, w, cum)| ==>
      Figure(rows, countries, w, cum)[k] == CountryTraces(rows, countries[k / 4], k / 4, w, cum)[k % 4]
  {
    FigureLength(rows, countries, w, cum);
    forall k | 0 <= k < |Figure(rows, countries, w, cum)|
      ensures Figure(rows, countries, w, cum)[k] == CountryTraces(rows, countries[k / 4], k / 4, w, cum)[k % 4]
    {
      FigureAt(rows, countries, w, cum, k);
    }
  }

  lemma {:induction false} FigureLength(rows: seq<Row>, countries: seq<string>, w: nat, cum: bool)
    requires w >= 1
    ensures |Figure(rows, countries, w, cum)| == 4 * |countries|
    decreases |countries|
  {
    if countries != [] {
      FigureLength(rows, countries[..|countries| - 1], w, cum);
    }
  }

  lemma {:induction false} FigureAt(rows: seq<Row>, countries: seq<string>, w: nat, cum: bool, k: nat)
    requires w >= 1 && k < 4 * |countries|
    ensures k < |Figure(rows, countries, w, cum)|
    ensures Figure(rows, countries, w, cum)[k] == CountryTraces(rows, countries[k / 4], k / 4, w, cum)[k % 4]
    decreases |countries|
  {
    var n := |countries| - 1;
    var init := countries[..n];
    var prev := Figure(rows, init, w, cum);
    var last := CountryTraces(rows, countries[n], n, w, cum);
    assert Figure(rows, countries, w, cum) == prev + last;
    FigureLength(rows, init, w, cum);
    Quarters(k, n);
    if k < 4 * n {
      FigureAt(rows, init, w, cum, k);
      assert init[k / 4] == countries[k / 4];
      assert (prev + last)[k] == prev[k];
    } else {
      assert (prev + last)[k] == last[k - |prev|];
    }
  }

  lemma Quarters(k: nat, n: nat)
    ensures k < 4 * n ==> k / 4 < n
    ensures 4 * n <= k < 4 * n + 4 ==> k / 4 == n && k % 4 == k - 4 * n
  {
  }

  /** The four traces of one country: rows 1 to 4 in order, one colour, legend on row 4 only. */
  lemma TracesLayout(own: seq<Row>, c: string, i: nat, w: nat, cum: bool)
    requires w >= 1
    ensures forall j :: 0 <= j < 4 ==>
      && Traces(own, c, i, w, cum)[j].row == j + 1
      && Traces(own, c, i, w, cum)[j].colour == i
      && (Traces(own, c, i, w, cum)[j].showLegend <==> j == 3)
    ensures Traces(own, c, i, w, cum)[3].name == c
  {
  }

  /**
   * The figure holds four traces per country: trace k belongs to country k / 4, sits on
   * row k % 4 + 1 and takes colour k / 4; only the row-4 trace, named after the country,
   * shows in the legend.
   */
  lemma FigureLayout(rows: seq<Row>, countries: seq<string>, w: nat, cum: bool)
    requires w >= 1
    ensures |Figure(rows, countries, w, cum)| == 4 * |countries|
    ensures forall k :: 0 <= k < |Figure(rows, countries, w, cum)| ==>
      && Figure(rows, countries, w, cum)[k].row == k % 4 + 1
      && Figure(rows, countries, w, cum)[k].colour == k / 4
      && (Figure(rows, countries, w, cum)[k].showLegend <==> k % 4 == 3)
      && (k % 4 == 3 ==> Figure(rows, countries, w, cum)[k].name == countries[k / 4])
  {
    FigureIndex(rows, countries, w, cum);
    var fig := Figure(rows, countries, w, cum);
    forall k | 0 <= k < |fig|
      ensures && fig[k].row == k % 4 + 1
              && fig[k].colour == k / 4
              && (fig[k].showLegend <==> k % 4 == 3)
              && (k % 4 == 3 ==> fig[k].name == countries[k / 4])
    {
      var c := countries[k / 4];
      TracesLayout(CountryRows(rows, c), c, k / 4, w, cum);
    }
  }

  /** Every trace of a country plots its rows' dates, one value per date. */
  lemma TracesAligned(own: seq<Row>, c: string, i: nat, w: nat, cum: bool)
    requires w >= 1
    ensures forall j :: 0 <= j < 4 ==>
      && Traces(own, c, i, w, cum)[j].x == Dates(own)
      && Size(Traces(own, c, i, w, cum)[j].y) == |own|
  {
    var ts := Traces(own, c, i, w, cum);
    assert Size(ts[0].y) == |own| && Size(ts[1].y) == |own|;
    assert Size(ts[2].y) == |own| && Size(ts[3].y) == |own|;
  }

  /**
   * In cumulative mode rows 1 and 2 are running totals of the country's date-sorted
   * Cases and Deaths: value j totals the first j + 1 dates, the last value is the
   * country's total over the table, and with non-negative counts they never decrease.
   */
  lemma CumulativeCounts(rows: seq<Row>, c: string, i: nat, w: nat, m: Metric)
    requires w >= 1
    ensures var own := CountryRows(rows, c);
      var ys := CountryTraces(rows, c, i, w, true)[if m == Cases then 0 else 1].y.counts;
      && |ys| == |own|
      && (forall j :: 0 <= j < |own| ==> ys[j] == Sum(Column(own, m)[..j + 1]))
      && (|own| > 0 ==> ys[|own| - 1] == Sum(Column(OfCountry(rows, c), m)))
      && ((forall r :: r in OfCountry(rows, c) ==> Value(r, m) >= 0) ==>
            forall a, b :: 0 <= a < b < |own| ==> 0 <= ys[a] <= ys[b])
  {
    var own := CountryRows(rows, c);
    ColumnSumPermutation(own, OfCountry(rows, c), m);
    RunningTotals(own, c, i, w, m);
    if forall r :: r in OfCountry(rows, c) ==> Value(r, m) >= 0 {
      forall r | r in own ensures Value(r, m) >= 0 {
        assert r in multiset(own);
      }
    }
  }

  lemma RunningTotals(own: seq<Row>, c: string, i: nat, w: nat, m: Metric)
    requires w >= 1
    ensures var ys := Traces(own, c, i, w, true)[if m == Cases then 0 else 1].y.counts;
      && |ys| == |own|
      && (forall j :: 0 <= j < |own| ==> ys[j] == Sum(Column(own, m)[..j + 1]))
      && (|own| > 0 ==> ys[|own| - 1] == Sum(Column(own, m)))
      && ((forall r :: r in own ==> Value(r, m) >= 0) ==>
            forall a, b :: 0 <= a < b < |own| ==> 0 <= ys[a] <= ys[b])
  {
    var col := Column(own, m);
    assert Traces(own, c, i, w, true)[if m == Cases then 0 else 1].y.counts == CumSum(col);
    CumSumIsPrefixSums(col);
    if forall r :: r in own ==> Value(r, m) >= 0 {
      forall k | 0 <= k < |col| ensures col[k] >= 0 {
        assert own[k] in own;
      }
      CumSumNonDecreasing(col);
    }
  }

  /**
   * Row 3 divides each date's deaths, or the deaths so far in cumulative mode, by that
   * row's `pop`.
   */
  lemma DeathsPerPopTrace(own: seq<Row>, c: string, i: nat, w: nat, cum: bool)
    requires w >= 1
    ensures var ys := Traces(own, c, i, w, cum)[2].y.reals;
      forall j :: 0 <= j < |own| ==>
        ys[j] == Div(if cum then Sum(Column(own, Deaths)[..j + 1]) else own[j].deaths, own[j].pop)
  {
    var deaths := Column(own, Deaths);
    CumSumIsPrefixSums(deaths);
    var ys := Traces(own, c, i, w, cum)[2].y.reals;
    assert ys == Quotients(if cum then CumSum(deaths) else deaths, Pops(own));
  }

  /**
   * Row 4 smooths the deaths/cases ratio: per date, or cumulative deaths over cumulative
   * cases; a point of that ratio is undefined exactly where its divisor is 0.
   */
  lemma RatioTrace(own: seq<Row>, c: string, i: nat, w: nat, cum: bool)
    requires w >= 1
    ensures Traces(own, c, i, w, cum)[3].y.reals == RollingMean(RatioSeries(own, cum), w)
    ensures forall j :: 0 <= j < |own| ==>
      RatioSeries(own, cum)[j] ==
        (if cum then Div(Sum(Column(own, Deaths)[..j + 1]), Sum(Column(own, Cases)[..j + 1]))
         else Div(own[j].deaths, own[j].cases))
  {
    CumSumIsPrefixSums(Column(own, Cases));
    CumSumIsPrefixSums(Column(own, Deaths));
  }

  /**
   * When no row of the country has more deaths than cases (nor negative counts), every
   * defined point of the smoothed ratio lies in [0, 1], and at most n - w + 1 of its n
   * points are defined.
   */
  lemma SmoothedRatioBounds(own: seq<Row>, c: string, i: nat, w: nat, cum: bool)
    requires w >= 1
    ensures var ys := Traces(own, c, i, w, cum)[3].y.reals;
      CountDefined(ys) <= (if |own| >= w then |own| - w + 1 else 0)
    ensures (forall r :: r in own ==> 0 <= r.deaths <= r.cases) ==>
      var ys := Traces(own, c, i, w, cum)[3].y.reals;
      forall j :: 0 <= j < |ys| && ys[j].Some? ==> 0.0 <= ys[j].value <= 1.0
  {
    var ratio := RatioSeries(own, cum);
    assert Traces(own, c, i, w, cum)[3].y.reals == RollingMean(ratio, w);
    RollingMeanCount(ratio, w);
    if forall r :: r in own ==> 0 <= r.deaths <= r.cases {
      RatioShares(own, cum);
      RollingMeanBounds(ratio, w, 0.0, 1.0);
    }
  }

  /** With 0 <= deaths <= cases on every row, every defined point of the ratio lies in [0, 1]. */
  lemma RatioShares(own: seq<Row>, cum: bool)
    requires forall r :: r in own ==> 0 <= r.deaths <= r.cases
    ensures forall k :: 0 <= k < |own| && RatioSeries(own, cum)[k].Some? ==>
      0.0 <= RatioSeries(own, cum)[k].value <= 1.0
  {
    var ratio := RatioSeries(own, cum);
    var cases := Column(own, Cases);
    var deaths := Column(own, Deaths);
    forall k | 0 <= k < |own| ensures 0 <= deaths[k] <= cases[k] {
      assert own[k] in own;
    }
    if cum {
      CumSumDominated(deaths, cases);
      CumSumNonDecreasing(deaths);
      forall k | 0 <= k < |own| && ratio[k].Some? ensures 0.0 <= ratio[k].value <= 1.0 {
        DivShare(CumSum(deaths)[k], CumSum(cases)[k]);
      }
    } else {
      forall k | 0 <= k < |own| && ratio[k].Some? ensures 0.0 <= ratio[k].value <= 1.0 {
        DivShare(deaths[k], cases[k]);
      }
    }
  }

  /**
   * With non-negative cases, the cumulative ratio is undefined only before the country's
   * first case: once the running total of cases is positive it stays defined.
   */
  lemma CumulativeRatioDefinedAfterFirstCase(own: seq<Row>, j0: nat, j: nat)
    requires forall r :: r in own ==> r.cases >= 0
    requires j0 <= j < |own| && CumSum(Column(own, Cases))[j0] != 0
    ensures RatioSeries(own, true)[j].Some?
  {
    var cases := Column(own, Cases);
    forall k | 0 <= k < |own| ensures cases[k] >= 0 {
      assert own[k] in own;
    }
    CumSumNonDecreasing(cases);
  }
}
