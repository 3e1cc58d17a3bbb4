/**
 * The script from top to bottom, on a table that has already been loaded: rank the
 * countries, take the user's choice (or the ranking) as the countries to plot, keep the
 * rows after the start date, and build the figure.
 */
module Script {
  import opened Common
  import opened Seqs
  import opened Table
  import opened Ranking
  import opened Panel

  /**
   * The sidebar's values: "Sort countries by", "Number of days", "Number of countries",
   * "Cummulative values", "Log scale", "Data from:" and the "Choose countries"
   * multiselect (`None` while it still shows its default, the ranking).
   */
  datatype Inputs = Inputs(
    sortType: Criterion,
    lastKDays: int,
    topK: int,
    cum: bool,
    log: bool,
    startDate: int,
    chosen: Option<seq<string>>)

  /** What reaches the page: whether "Please select at least one country." shows, and the figure's traces. */
  datatype Output = Output(emptySelectionNotice: bool, traces: seq<Trace>)

  /** The countries handed to `plot_country`: the user's choice, else the ranking. */
  function Plotted(chosen: Option<seq<string>>, ranked: seq<string>): seq<string> {
    match chosen
    case Some(cs) => cs
    case None => ranked
  }

  /**
   * One run of the script. `ranked` is the outcome of the sort on lines 48-56: any selection
   * the ranking admits (`Ranking.IsTopK`), since pandas leaves the order of tied
   * countries open; `Ranking.Rank` computes one such selection. The ranking uses the
   * whole table; the start-date filter applies only to what is plotted. An empty
   * selection shows a notice and the script goes on to draw an empty figure.
   */
  method RunScript(df: seq<Row>, inp: Inputs, ranked: seq<string>) returns (res: Result<Output>)
    requires inp.sortType != CasesPerPop ==> IsTopK(df, AggregationFor(inp.sortType).value, inp.topK, ranked)
    ensures inp.sortType == CasesPerPop ==> res == Failure(AttributeError)
    ensures inp.sortType != CasesPerPop ==>
      var countries := Plotted(inp.chosen, ranked);
      && (|countries| > PaletteSize ==> res == Failure(IndexError))
      && (|countries| <= PaletteSize ==>
            res == Success(Output(countries == [],
                                  Figure(After(df, inp.startDate), countries, DefaultWindow, inp.cum))))
  {
    var agg := AggregationFor(inp.sortType);
    if agg.Failure? {
      return Failure(agg.error);
    }
    var countries := Plotted(inp.chosen, ranked);
    var notice := countries == [];
    var shown := After(df, inp.startDate);
    var fig := PlotCountry(shown, countries, DefaultWindow, inp.cum);
    match fig
    case Failure(e) =>
      return Failure(e);
    case Success(traces) =>
      return Success(Output(notice, traces));
  }

  /**
   * With between 0 and 24 countries requested, the default selection never runs out of
   * colours, whichever way ties were ordered. A negative count keeps all but that many
   * countries (Python's `[0:-k]`).
   */
  lemma DefaultSelectionFitsPalette(df: seq<Row>, crit: Criterion, topK: int, ranked: seq<string>)
    requires crit != CasesPerPop && IsTopK(df, AggregationFor(crit).value, topK, ranked)
    ensures 0 <= topK <= PaletteSize ==> |ranked| <= PaletteSize
    ensures topK < 0 ==> |ranked| == if |Countries(df)| + topK > 0 then |Countries(df)| + topK else 0
  {
    assert |ranked| == SliceEnd(|Countries(df)|, topK);
  }

  /**
   * The ranking ignores the start date: a country ranked on rows that all precede the
   * start date is still plotted, with no points. With a one-row table dated on or before
   * the start date, that row's country is the ranking's only pick and has no rows left
   * to plot.
   */
  lemma RankedCountryCanHaveNoPlottedRows(r: Row, crit: Criterion, topK: int, d: int, ranked: seq<string>)
    requires crit != CasesPerPop && topK >= 1 && r.date <= d
    requires IsTopK([r], AggregationFor(crit).value, topK, ranked)
    ensures ranked == [r.country]
    ensures CountryRows(After([r], d), r.country) == []
  {
    assert Countries([r]) == {r.country};
    SingleCountryRanking([r], crit, topK, r.country, ranked);
    NoRowsAfterStart([r], d, r.country);
  }

  /** With a single country in the table, any positive count ranks just that country. */
  lemma SingleCountryRanking(df: seq<Row>, crit: Criterion, topK: int, c: string, ranked: seq<string>)
    requires crit != CasesPerPop && topK >= 1 && Countries(df) == {c}
    requires IsTopK(df, AggregationFor(crit).value, topK, ranked)
    ensures ranked == [c]
  {
    assert |ranked| == 1 && ranked[0] in Countries(df);
  }

  /** A country none of whose rows is after the start date gets empty traces. */
  lemma NoRowsAfterStart(df: seq<Row>, d: int, c: string)
    requires forall r :: r in df && r.country == c ==> r.date <= d
    ensures CountryRows(After(df, d), c) == []
  {
    var later := After(df, d);
    FilterMembers(df, Later(d));
    FilterNone(later, InCountry(c));
    assert multiset(CountryRows(later, c)) == multiset(OfCountry(later, c));
  }
}
