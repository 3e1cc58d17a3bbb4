/**
 * The country ranking that fills the default country selection: group the table by
 * Country, aggregate Cases or Deaths by sum or mean, sort the aggregates in descending
 * order and keep the slice `[0:top_k]`.
 */
module Ranking {
  import opened Common
  import opened Seqs
  import opened Sorting
  import opened Table

  /** The seven entries of the "Sort countries by" box, in the order it lists them. */
  datatype Criterion =
    | TotalCases      // 'Total number of cases'
    | DailyCases      // 'Number of daily cases'
    | TotalDeaths     // 'Total number of deaths'
    | DailyDeaths     // 'Number of daily deaths'
    | CasesPerPop     // 'cases/population'
    | DeathsPerPop    // 'deaths/population'
    | DeathsPerCases  // 'deaths/cases'

  /** A group-by aggregate of one count column. */
  datatype Aggregation = SumOf(metric: Metric) | MeanOf(metric: Metric)

  /**
   * The aggregate each criterion ends up ranking by. The ranking by total cases is
   * computed first and only the four count criteria replace it; 'cases/population'
   * then calls `datetime.TimeDelta`, which does not exist.
   */
  function AggregationFor(crit: Criterion): (r: Result<Aggregation>)
    ensures r.Failure? <==> crit == CasesPerPop
    ensures r.Failure? ==> r.error == AttributeError
  {
    match crit
    case DailyCases => Success(MeanOf(Cases))
    case TotalCases => Success(SumOf(Cases))
    case DailyDeaths => Success(MeanOf(Deaths))
    case TotalDeaths => Success(SumOf(Deaths))
    case CasesPerPop => Failure(AttributeError)
    case DeathsPerPop => Success(SumOf(Cases))
    case DeathsPerCases => Success(SumOf(Cases))
  }

  /**
   * A country's aggregate over ALL of its rows: `groupby('Country').<col>.sum()` or
   * `.mean()`. No lookback window is applied. Exact reals stand in for pandas floats.
   */
  function Aggregate(rows: seq<Row>, agg: Aggregation, c: string): (v: real)
    ensures agg.SumOf? ==> v == Sum(Column(OfCountry(rows, c), agg.metric)) as real
    ensures agg.MeanOf? && c in Countries(rows) ==>
      |OfCountry(rows, c)| > 0 &&
      v * |OfCountry(rows, c)| as real == Sum(Column(OfCountry(rows, c), agg.metric)) as real
  {
    var own := OfCountry(rows, c);
    var total := Sum(Column(own, agg.metric)) as real;
    CountryHasRows(rows, c);
    match agg
    case SumOf(_) => total
    case MeanOf(_) => if |own| == 0 then 0.0 else total / |own| as real
  }

  /** Where Python's slice `s[0:k]` ends, for any integer `k`, in an `n`-item sequence. */
  function SliceEnd(n: nat, k: int): (e: nat)
    ensures e <= n
  {
    if k >= 0 then (if k < n then k else n)
    else if n + k > 0 then n + k else 0
  }

  /**
   * `s[0:k]` keeps index `i` exactly when `i` lies before `k`, counting from the end for
   * a negative `k`.
   */
  lemma SliceKeeps(n: nat, k: int, i: int)
    requires 0 <= i < n
    ensures i < SliceEnd(n, k) <==> if k >= 0 then i < k else i < n + k
  {
  }

  /** The score each country is ranked by. */
  function Score(rows: seq<Row>, agg: Aggregation): string -> real {
    c => Aggregate(rows, agg, c)
  }

  ghost predicate Descending(s: seq<string>, score: string -> real) {
    forall i, j :: 0 <= i < j < |s| ==> score(s[i]) >= score(s[j])
  }

  /**
   * What every admissible outcome of ranking `universe` by `score` and slicing `[0:k]`
   * satisfies, whatever order the unstable sort gives to equal scores.
   */
  ghost predicate IsTopKBy(universe: set<string>, score: string -> real, k: int, sel: seq<string>) {
    && |sel| == SliceEnd(|universe|, k)
    && NoDup(sel)
    && (forall i :: 0 <= i < |sel| ==> sel[i] in universe)
    && Descending(sel, score)
    && (forall c, i :: c in universe && c !in sel && 0 <= i < |sel| ==> score(c) <= score(sel[i]))
  }

  /** An admissible default selection of the countries of `rows` by aggregate `agg`. */
  ghost predicate IsTopK(rows: seq<Row>, agg: Aggregation, k: int, sel: seq<string>) {
    IsTopKBy(Countries(rows), Score(rows, agg), k, sel)
  }

  /** Slicing any descending order of the whole universe gives an admissible selection. */
  lemma TopKOfDescendingOrder(universe: set<string>, score: string -> real, order: seq<string>, k: int)
    requires NoDup(order) && Elems(order) == universe
    requires Descending(order, score)
    ensures IsTopKBy(universe, score, k, order[..SliceEnd(|order|, k)])
  {
    NoDupCard(order);
    var sel := order[..SliceEnd(|order|, k)];
    forall c, i | c in universe && c !in sel && 0 <= i < |sel|
      ensures score(c) <= score(sel[i])
    {
      assert c in Elems(order);
      var j :| 0 <= j < |order| && order[j] == c;
    }
  }

  /**
   * Admissible selections differ only in the order of equal scores: position by
   * position, their scores agree.
   */
  lemma TiesOnlyBy(universe: set<string>, score: string -> real, k: int, s1: seq<string>, s2: seq<string>)
    requires IsTopKBy(universe, score, k, s1) && IsTopKBy(universe, score, k, s2)
    ensures |s1| == |s2|
    ensures forall i :: 0 <= i < |s1| ==> score(s1[i]) == score(s2[i])
  {
    forall i | 0 <= i < |s1| ensures score(s1[i]) == score(s2[i]) {
      NotLargerAt(universe, score, k, s1, s2, i);
      NotLargerAt(universe, score, k, s2, s1, i);
    }
  }

  /**
   * The i-th score of one admissible selection cannot exceed that of another: else its
   * first i + 1 countries would all have to sit among the other's first i.
   */
  lemma NotLargerAt(universe: set<string>, score: string -> real, k: int, s1: seq<string>, s2: seq<string>, i: nat)
    requires IsTopKBy(universe, score, k, s1) && IsTopKBy(universe, score, k, s2)
    requires i < |s1|
    ensures score(s1[i]) <= score(s2[i])
  {
    if score(s1[i]) > score(s2[i]) {
      PrefixWithin(universe, score, k, s1, s2, i);
      assert NoDup(s1[..i + 1]);
      NoDupCard(s1[..i + 1]);
      ElemsCard(s2[..i]);
      SubsetCard(Elems(s1[..i + 1]), Elems(s2[..i]));
      assert false;
    }
  }

  lemma PrefixWithin(universe: set<string>, score: string -> real, k: int, s1: seq<string>, s2: seq<string>, i: nat)
    requires IsTopKBy(universe, score, k, s1) && IsTopKBy(universe, score, k, s2)
    requires i < |s1| && score(s1[i]) > score(s2[i])
    ensures Elems(s1[..i + 1]) <= Elems(s2[..i])
  {
    forall x | x in s1[..i + 1] ensures x in s2[..i] {
      var p :| 0 <= p <= i && s1[p] == x;
      assert score(x) >= score(s1[i]);
      assert x in s2;
      var t :| 0 <= t < |s2| && s2[t] == x;
      assert t < i;
      assert s2[..i][t] == x;
    }
  }

  /**
   * Two admissible default selections have the same length and, position by position,
   * the same aggregate.
   */
  lemma TopKDeterminedUpToTies(rows: seq<Row>, agg: Aggregation, k: int, s1: seq<string>, s2: seq<string>)
    requires IsTopK(rows, agg, k, s1) && IsTopK(rows, agg, k, s2)
    ensures |s1| == |s2|
    ensures forall i :: 0 <= i < |s1| ==> Aggregate(rows, agg, s1[i]) == Aggregate(rows, agg, s2[i])
  {
    TiesOnlyBy(Countries(rows), Score(rows, agg), k, s1, s2);
  }

  function Negated(score: string -> real): string -> real {
    c => -score(c)
  }

  lemma DescendingFromSorted(order: seq<string>, score: string -> real)
    requires SortedBy(order, Negated(score))
    ensures Descending(order, score)
  {
    forall i, j | 0 <= i < j < |order| ensures score(order[i]) >= score(order[j]) {
      assert Negated(score)(order[i]) <= Negated(score)(order[j]);
    }
  }

  /** All countries sorted by descending aggregate. */
  function DescendingOrder(rows: seq<Row>, agg: Aggregation): (order: seq<string>)
    ensures NoDup(order) && Elems(order) == Countries(rows)
    ensures Descending(order, Score(rows, agg))
  {
    var groups := Unique(rows);
    var score := Score(rows, agg);
    var order := SortBy(groups, Negated(score));
    NoDupPermutation(groups, order);
    PermutationElems(groups, order);
    DescendingFromSorted(order, score);
    order
  }

  /** `df.groupby('Country').<col>.<agg>().sort_values(ascending=False)[0:top_k].index`. */
  function TopK(rows: seq<Row>, agg: Aggregation, topK: int): (sel: seq<string>)
    ensures IsTopK(rows, agg, topK, sel)
  {
    var order := DescendingOrder(rows, agg);
    TopKOfDescendingOrder(Countries(rows), Score(rows, agg), order, topK);
    order[..SliceEnd(|order|, topK)]
  }

  /** The default country selection once the criterion has chosen the aggregate. */
  function Rank(rows: seq<Row>, crit: Criterion, topK: int): (r: Result<seq<string>>)
    ensures r.Failure? <==> crit == CasesPerPop
    ensures r.Failure? ==> r.error == AttributeError
    ensures r.Success? ==> IsTopK(rows, AggregationFor(crit).value, topK, r.value)
  {
    var agg := AggregationFor(crit);
    if agg.Failure? then Failure(agg.error) else Success(TopK(rows, agg.value, topK))
  }

  /** 'deaths/population' and 'deaths/cases' have no branch and keep the total-cases ranking. */
  lemma UnhandledCriteriaRankByTotalCases(rows: seq<Row>, k: int)
    ensures Rank(rows, DeathsPerPop, k) == Rank(rows, TotalCases, k)
    ensures Rank(rows, DeathsPerCases, k) == Rank(rows, TotalCases, k)
  {
    assert AggregationFor(DeathsPerPop) == AggregationFor(TotalCases);
    assert AggregationFor(DeathsPerCases) == AggregationFor(TotalCases);
  }

  /**
   * When no two countries tie on the aggregate, the selection is fully determined: the
   * unstable sort then has nothing to reorder.
   */
  lemma TopKUniqueWithoutTies(rows: seq<Row>, agg: Aggregation, k: int, s1: seq<string>, s2: seq<string>)
    requires forall c, d :: c in Countries(rows) && d in Countries(rows) && c != d ==>
      Aggregate(rows, agg, c) != Aggregate(rows, agg, d)
    requires IsTopK(rows, agg, k, s1) && IsTopK(rows, agg, k, s2)
    ensures s1 == s2
  {
    TopKDeterminedUpToTies(rows, agg, k, s1, s2);
    forall i | 0 <= i < |s1| ensures s1[i] == s2[i] {
      assert Aggregate(rows, agg, s1[i]) == Aggregate(rows, agg, s2[i]);
    }
  }
}
