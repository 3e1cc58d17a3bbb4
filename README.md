# COVID-19 country comparison dashboard — a Dafny model

This project models the computing core of a one-file Streamlit dashboard (`main.py`) that
compares countries on the ECDC table of daily COVID-19 cases and deaths. The core has two
stages:

1. **Country ranking** (`main.py:44-59`). The table is grouped by `Country`; `Cases` or
   `Deaths` is summed or averaged per country; the aggregates are sorted in descending
   order and the slice `[0:top_k]` becomes the default country selection. Only the four
   count criteria replace the default ranking by total cases. 'cases/population' calls the
   nonexistent `datetime.TimeDelta` and stops the script. 'deaths/population' and
   'deaths/cases' keep the total-cases ranking.
2. **Series and figure** (`plot_country`, `main.py:72-120`). For each chosen country the
   loop takes its rows sorted by date and adds four traces to the figure: Cases and Deaths
   (raw or running totals), deaths per `pop` (raw or cumulative), and the deaths/cases ratio
   (raw, or cumulative over cumulative) smoothed by a centred rolling mean of width 2. Each
   trace is coloured by the country's position in the 24-colour `Dark24` palette. Only the
   row-4 trace appears in the legend.

The script ranks on the whole table. The start-date filter `DateRep > date_input`
(`main.py:122`) applies only to what is plotted.

Modules, one per component:

- `Common`: `Option`, `Result` and the two exceptions the script can raise.
- `Seqs`: distinctness, filtering and sums over sequences.
- `Sorting`: sort by a numeric key. pandas' default quicksort is unstable, so the contract
  promises only what every admissible order shares: a permutation with non-decreasing keys.
  The insertion sort that computes it fixes one order among equal keys; without equal keys
  every admissible order is the same (`Sorting.StrictlySortedUnique`).
- `Table`: the row type and the table operations. These are `unique()`, the per-country
  selection, the start-date filter and the per-country date sort.
- `Ranking`: criteria, aggregates, the `IsTopK` characterisation of every admissible
  outcome, and `Rank`.
- `Series`: `cumsum`, pointwise quotients, and pandas' centred rolling mean.
- `Panel`: traces (`Traces` builds a country's four traces from its date-sorted rows), the specification `Figure`, and the `PlotCountry` method whose loop
  appends traces step by step as `fig.add_trace` does.
- `Script`: one run of the script on an already loaded table.

Ratios and means are exact `real`s; an absent value (`None`) stands for pandas' NaN or
infinity. Dates are day numbers. Counts are unbounded integers and may be negative, as
ECDC corrections are.

Where the code and the dashboard's intended design differ, the model follows the code:

- The daily criteria average over ALL of a country's rows. The "Number of days" window is
  read (`main.py:42`) but never used.
- The per-population and per-cases criteria do not rank by those ratios: one crashes and
  two keep the total-cases ranking.
- Ties are not broken by country name. The unstable sort leaves their order unspecified.
  `Ranking.IsTopK` describes every selection the sort can produce and
  `Ranking.TopKDeterminedUpToTies` shows they differ only among equal aggregates.
  `Ranking.Rank` computes one of them. `Script.RunScript` takes the selection as a
  parameter and holds for every admissible one.
- `top_k` is any integer with Python slice semantics. A negative value keeps all but that
  many countries.
- The ranking runs before the start-date filter, not after it.
- An empty country selection shows a notice, but the script still draws an empty figure.
- Deaths/pop divides by each row's own `pop`.
- The centred window of width `w` at position `i` is `[i - w + 1 + (w - 1) / 2, i + (w - 1) / 2]`
  (pandas' centring), and a point is kept only when that whole window exists and is
  defined. For `w = 2` this is `[i - 1, i]`.

## Model

| member | source | states |
|---|---|---|
| `Table.Unique` | main.py:48 | the group-by's keys, as `df.Country.unique()` also lists them for the multiselect on line 66: every country of the table exactly once and nothing else |
| `Table.CountryRows` | main.py:76 | a country's rows sorted by date: a permutation of exactly its rows, with non-decreasing dates |
| `Table.CountryRowsUnique` | main.py:76 | when no country has two rows on one date, every date-sorted arrangement of a country's rows is `CountryRows`: the sort's tie order cannot show |
| `Sorting.StrictlySortedUnique` | main.py:76 | two permutations of one sequence whose keys strictly increase are equal |
| `Table.ColumnSumPermutation` | main.py:76 | sorting a country's rows by date does not change its Cases or Deaths total |
| `Seqs.FilterMembers` | main.py:76 | a boolean mask keeps exactly the rows it accepts |
| `Seqs.FilterNone` | main.py:76 | a mask that accepts no row selects nothing |
| `Table.AfterKeepsLaterRowsInOrder` | main.py:122 | the start-date filter keeps exactly the rows dated strictly after the start date, in their original order (filtering a concatenation filters each part) |
| `Table.AfterAfter` | main.py:122 | filtering by two start dates in turn is filtering by the later one |
| `Sorting.SortBy` | main.py:48-56 | `sort_values` yields a permutation of its input with ordered keys, and promises no tie order |
| `Ranking.AggregationFor` | main.py:48-58 | which aggregate each criterion ends up ranking by: the call fails with AttributeError exactly for 'cases/population' |
| `Ranking.Aggregate` | main.py:48-56 | the per-country aggregate: the sum of the column over all of the country's rows, or their mean (mean times row count equals the sum, with at least one row), with no lookback window |
| `Ranking.SliceKeeps` | main.py:48 | Python's `[0:top_k]` keeps index `i` of an `n`-item list exactly when `i < top_k`, or `i < n + top_k` for a negative `top_k` (and `Ranking.SliceEnd` never runs past the end) |
| `Ranking.DescendingOrder` | main.py:48-56 | all countries, each once, ordered by non-increasing aggregate |
| `Ranking.TopKOfDescendingOrder` | main.py:48-56 | slicing any descending order of all countries by a score gives a selection of the sliced length, without duplicates, of countries in the table, in non-increasing score order, with every unselected country's score at most every selected one's (`IsTopKBy`) |
| `Ranking.TopK` | main.py:48-56 | the group-by, sort and slice give an admissible top-k selection (`IsTopK`) of the chosen aggregate |
| `Ranking.Rank` | main.py:48-58 | the criterion's ranking fails with AttributeError exactly for 'cases/population'; otherwise it is an admissible top-k selection (`IsTopK`) of the aggregate the criterion selects |
| `Ranking.TopKDeterminedUpToTies` | main.py:48-56 | any two admissible selections have the same length and the same aggregate at every position: they differ only among equal aggregates |
| `Ranking.TopKUniqueWithoutTies` | main.py:48-56 | when no two countries tie on the aggregate, the admissible selection is unique |
| `Ranking.UnhandledCriteriaRankByTotalCases` | main.py:48-58 | 'deaths/population' and 'deaths/cases' rank exactly as 'Total number of cases' |
| `Series.CumSumIsPrefixSums` | main.py:80 | `cumsum` at position i is the sum of the first i + 1 values, and its last value is the total |
| `Series.CumSumNonDecreasing` | main.py:86 | running sums of non-negative counts are non-negative and non-decreasing |
| `Series.CumSumDominated` | main.py:100 | running sums keep a pointwise ordering (cumulative deaths stay at most cumulative cases) |
| `Series.Div` | main.py:77 | a point of `Deaths / Cases` is defined exactly when the divisor is non-zero, and then times the divisor gives the dividend |
| `Series.DivShare` | main.py:77 | a ratio of non-negative deaths to at least as many cases lies in [0, 1] and is 0 only with no deaths |
| `Series.TotalDefined` | main.py:100 | a window's sum is defined exactly when every value in it is |
| `Series.RollingMeanDefined` | main.py:100-102 | a rolling-mean point is defined exactly when its centred window lies inside the series and all its values are defined, and is then the window's mean (for width 2, position 0 never is) |
| `Series.WindowMeanDefined` | main.py:100-102 | the mean of a `w`-value window is defined exactly when the window lies inside the series and all its values are defined, and is then its total over `w` |
| `Series.RollingMeanBounds` | main.py:100-102 | smoothing keeps every defined value inside any bounds the input respects |
| `Series.RollingMeanCount` | main.py:100-102 | at most max(0, n - w + 1) of n smoothed points are defined, exactly that many when all inputs are |
| `Series.RatioExample` | main.py:100-102 | cases 10, 0, 30 with deaths 1, 0, 3: the daily ratio is 0.1, absent, 0.1 and smooths to nothing; the cumulative ratio is 0.1 throughout and smooths to absent, 0.1, 0.1 |
| `Panel.AddCountry` | main.py:76-103 | one loop pass appends exactly the country's four traces, in row order, to those already added |
| `Panel.PlotCountry` | main.py:72-120 | with at most 24 countries the result is the full figure; with more it is an IndexError |
| `Panel.FigureIndex` | main.py:75-103 | the figure has 4 traces per country, trace k being trace k mod 4 of country k div 4 |
| `Panel.TracesLayout` | main.py:80-102 | a country's four traces go to rows 1 to 4 in order, all take its colour index, and only the row-4 trace (named after the country) shows in the legend |
| `Panel.FigureLayout` | main.py:75-103 | trace k of the figure sits on row k mod 4 + 1 with colour index k div 4, is in the legend exactly when on row 4, and is then named after country k div 4 |
| `Panel.TracesAligned` | main.py:76-102 | every trace of a country plots its date-sorted rows' dates, with one value per date |
| `Panel.CumulativeCounts` | main.py:79-86 | in cumulative mode rows 1 and 2 at date j are the sums over the first j + 1 dates, the last equals the country's total over the table, and with non-negative counts they are non-negative and non-decreasing |
| `Panel.DeathsPerPopTrace` | main.py:91-97 | row 3 at date j is that date's deaths, or the deaths over the first j + 1 dates, divided by that row's `pop` |
| `Panel.RatioTrace` | main.py:77-102 | row 4 smooths deaths/cases per date, or deaths over cases summed over the first j + 1 dates, each undefined where its divisor is 0 |
| `Panel.SmoothedRatioBounds` | main.py:99-102 | the smoothed ratio has at most n - w + 1 defined points, and lies in [0, 1] wherever defined when every row's deaths are non-negative and at most its cases |
| `Panel.CumulativeRatioDefinedAfterFirstCase` | main.py:100 | with non-negative cases the cumulative ratio is undefined only before the first case |
| `Script.RunScript` | main.py:44-123 | 'cases/population' stops the run with AttributeError; otherwise, for every admissible ranking of the whole table (whichever way ties fall), the figure is built from the user's countries (or that ranking) on the rows after the start date, with the notice exactly when no country is chosen, and fails with IndexError beyond 24 countries |
| `Script.DefaultSelectionFitsPalette` | main.py:44-48 | for every admissible ranking, a `top_k` from 0 to 24 keeps the default selection within the palette; a negative one keeps all but that many countries |
| `Script.RankedCountryCanHaveNoPlottedRows` | main.py:48-122 | for a one-row table dated on or before the start date, every admissible ranking by a criterion other than 'cases/population' with `top_k` at least 1 is that row's country, which then has no rows to plot |
| `Script.SingleCountryRanking` | main.py:48-56 | with a single country in the table, every admissible ranking for a positive `top_k` is just that country |
| `Script.NoRowsAfterStart` | main.py:122 | a country none of whose rows is after the start date gets no rows to plot |

## Left out

- Loading the data (`get_UN_data`, `get_corona_data`): remote CSV/Excel reads, `st.cache`,
  the column renaming and the initial date sort. The loaded table is a parameter.
- The `URLError` notice and a failed load: the table is assumed loaded.
- Streamlit widgets, the page and `st.plotly_chart`. Their values arrive as `Script.Inputs`.
  A non-numeric "Number of countries" (a `ValueError` in `int()`) and the bounds of the
  unused "Number of days" box are not modelled.
- Plotly layout: the five-row subplot grid and its titles, spacing, sizes, tick format,
  `mode`, and the linear/log axis type (an axis attribute, not a data transform). The
  `log` input therefore changes nothing in the model.
- The colours themselves: a trace records its index into `Dark24`, not the colour string.
- IEEE floats: pandas gives NaN for 0/0 and infinity for d/0 with d > 0. An infinity still
  counts as an observation in the rolling mean. The model has one "absent" value for both.
- NaN countries or populations in the table, which pandas' `groupby` and division treat
  specially.
- `co_list` (computed and never used) and the dead `if False:` block.
- Whether chosen countries occur in the table. The multiselect only offers table countries;
  a country with no rows gets four empty traces.
- `Table.CountryRows`: rows of one country that share a `DateRep` are drawn in the order
  the model's insertion sort leaves them, which pandas' quicksort does not promise. The
  ECDC table has one row per country and date, and `Table.CountryRowsUnique` shows the
  order is then fully determined.
- `Panel.PlotCountry`: requires a window of at least 1. pandas rejects negative windows and
  the script always passes 2.
