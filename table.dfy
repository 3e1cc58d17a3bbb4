/**
 * The in-memory ECDC table the script works on, after the loader renamed its columns:
 * one row per (Country, DateRep) with that day's Cases and Deaths and the country's pop.
 */
module Table {
  import opened Seqs
  import opened Sorting

  /** A date (`DateRep`) is a day number; only its order matters to the model. */
  datatype Row = Row(country: string, date: int, cases: int, deaths: int, pop: int)

  /** The two count columns the script ranks and plots. */
  datatype Metric = Cases | Deaths

  function Value(r: Row, m: Metric): int {
    match m
    case Cases => r.cases
    case Deaths => r.deaths
  }

  /** A count column of the table, as pandas' `df.Cases` or `df.Deaths`. */
  function Column(rows: seq<Row>, m: Metric): (col: seq<int>)
    ensures |col| == |rows|
  {
    seq(|rows|, i requires 0 <= i < |rows| => Value(rows[i], m))
  }

  function Dates(rows: seq<Row>): (ds: seq<int>)
    ensures |ds| == |rows|
  {
    seq(|rows|, i requires 0 <= i < |rows| => rows[i].date)
  }

  function Pops(rows: seq<Row>): (ps: seq<int>)
    ensures |ps| == |rows|
  {
    seq(|rows|, i requires 0 <= i < |rows| => rows[i].pop)
  }

  function Countries(rows: seq<Row>): set<string> {
    set r | r in rows :: r.country
  }

  /** The countries `groupby('Country')` ranks, as `df.Country.unique()` lists them: every country of the table once. */
  function Unique(rows: seq<Row>): (u: seq<string>)
    ensures NoDup(u)
    ensures Elems(u) == Countries(rows)
  {
    if rows == [] then []
    else
      var init := rows[..|rows| - 1];
      var last := rows[|rows| - 1];
      assert rows == init + [last];
      assert Countries(rows) == Countries(init) + {last.country};
      var u := Unique(init);
      if last.country in u then u else u + [last.country]
  }

  /** The mask `df.Country == c`. */
  function InCountry(c: string): Row -> bool {
    (r: Row) => r.country == c
  }

  /** The rows of one country, in table order: `df[df.Country == c]`. */
  function OfCountry(rows: seq<Row>, c: string): seq<Row> {
    Filter(rows, InCountry(c))
  }

  lemma CountryHasRows(rows: seq<Row>, c: string)
    ensures c in Countries(rows) ==> |OfCountry(rows, c)| > 0
  {
    if c in Countries(rows) {
      var r :| r in rows && r.country == c;
      FilterMembers(rows, InCountry(c));
      assert r in OfCountry(rows, c);
    }
  }

  /** The mask `df.DateRep > d`. */
  function Later(d: int): Row -> bool {
    (r: Row) => r.date > d
  }

  /** The start-date filter `df[df.DateRep > date_input]`. */
  function After(rows: seq<Row>, d: int): seq<Row> {
    Filter(rows, Later(d))
  }

  function DateKey(r: Row): real {
    r.date as real
  }

  /** One country's rows sorted by date: `df.loc[df.Country == c].sort_values('DateRep')`. */
  function CountryRows(rows: seq<Row>, c: string): (rs: seq<Row>)
    ensures multiset(rs) == multiset(OfCountry(rows, c))
    ensures forall k :: 0 <= k < |rs| ==> rs[k].country == c
    ensures forall i, j :: 0 <= i < j < |rs| ==> rs[i].date <= rs[j].date
  {
    var own := OfCountry(rows, c);
    var rs := SortBy(own, DateKey);
    PermutationMembers(own, rs);
    FilterMembers(rows, InCountry(c));
    rs
  }

  /** No country has two rows on one date, as in the ECDC table. */
  ghost predicate OneRowPerDate(rows: seq<Row>) {
    forall i, j :: 0 <= i < j < |rows| && rows[i].country == rows[j].country ==> rows[i].date != rows[j].date
  }

  /**
   * With at most one row per country and date, the date sort has a single outcome: every
   * date-sorted arrangement of a country's rows is `CountryRows`, so the order in which
   * the sort breaks ties never shows in the figure.
   */
  lemma CountryRowsUnique(rows: seq<Row>, c: string, rs: seq<Row>)
    requires OneRowPerDate(rows)
    requires multiset(rs) == multiset(OfCountry(rows, c))
    requires forall i, j :: 0 <= i < j < |rs| ==> rs[i].date <= rs[j].date
    ensures rs == CountryRows(rows, c)
  {
    var own := OfCountry(rows, c);
    var sorted := CountryRows(rows, c);
    FilterOneRowPerDate(rows, InCountry(c));
    FilterMembers(rows, InCountry(c));
    OneRowPerDatePermutation(own, rs);
    OneRowPerDatePermutation(own, sorted);
    PermutationMembers(own, rs);
    DatesStrictlyIncrease(rs, c);
    DatesStrictlyIncrease(sorted, c);
    StrictlySortedUnique(rs, sorted, DateKey);
  }

  lemma {:induction false} FilterOneRowPerDate(rows: seq<Row>, keep: Row -> bool)
    requires OneRowPerDate(rows)
    ensures OneRowPerDate(Filter(rows, keep))
  {
    if rows != [] {
      var tail := rows[1..];
      var rest := Filter(tail, keep);
      assert forall k :: 0 <= k < |tail| ==> tail[k] == rows[k + 1];
      FilterOneRowPerDate(tail, keep);
      if keep(rows[0]) {
        FilterMembers(tail, keep);
        var r := [rows[0]] + rest;
        forall i, j | 0 <= i < j < |r| && r[i].country == r[j].country
          ensures r[i].date != r[j].date
        {
          if i == 0 {
            assert r[j] in tail;
            var m :| 0 <= m < |tail| && tail[m] == r[j];
            assert rows[m + 1] == r[j];
          } else {
            assert r[i] == rest[i - 1] && r[j] == rest[j - 1];
          }
        }
      }
    }
  }

  lemma OneRowPerDatePermutation(a: seq<Row>, b: seq<Row>)
    requires OneRowPerDate(a) && multiset(a) == multiset(b)
    ensures OneRowPerDate(b)
  {
    assert NoDup(a);
    forall i, j | 0 <= i < j < |b| && b[i].country == b[j].country
      ensures b[i].date != b[j].date
    {
      if b[i] == b[j] {
        RepeatCount(b, i, j);
        NoDupCount(a, b[i]);
        assert false;
      }
      assert b[i] in multiset(a) && b[j] in multiset(a);
      var p :| 0 <= p < |a| && a[p] == b[i];
      var q :| 0 <= q < |a| && a[q] == b[j];
      assert p != q;
    }
  }

  lemma DatesStrictlyIncrease(rs: seq<Row>, c: string)
    requires OneRowPerDate(rs)
    requires forall k :: 0 <= k < |rs| ==> rs[k].country == c
    requires forall i, j :: 0 <= i < j < |rs| ==> rs[i].date <= rs[j].date
    ensures StrictlySortedBy(rs, DateKey)
  {
  }

  /** The start-date filter keeps exactly the later rows, in their original order. */
  lemma AfterKeepsLaterRowsInOrder(a: seq<Row>, b: seq<Row>, d: int)
    ensures forall r :: r in After(a, d) <==> r in a && r.date > d
    ensures After(a + b, d) == After(a, d) + After(b, d)
  {
    FilterMembers(a, Later(d));
    FilterAppend(a, b, Later(d));
  }

  /** Two start-date filters in a row act as the later of the two dates. */
  lemma {:induction false} AfterAfter(rows: seq<Row>, d1: int, d2: int)
    ensures After(After(rows, d1), d2) == After(rows, if d1 < d2 then d2 else d1)
  {
    if rows != [] {
      AfterAfter(rows[1..], d1, d2);
    }
  }

  lemma ColumnAppend(a: seq<Row>, b: seq<Row>, m: Metric)
    ensures Column(a + b, m) == Column(a, m) + Column(b, m)
  {
  }

  /** Reordering rows does not change a column's total. */
  lemma {:induction false} ColumnSumPermutation(a: seq<Row>, b: seq<Row>, m: Metric)
    requires multiset(a) == multiset(b)
    ensures Sum(Column(a, m)) == Sum(Column(b, m))
  {
    if a == [] {
      assert b == [] by { assert |multiset(b)| == 0; }
    } else {
      assert a[0] in multiset(b);
      var j :| 0 <= j < |b| && b[j] == a[0];
      var rest := b[..j] + b[j + 1..];
      MultisetRemoveAt(b, j);
      assert a == [a[0]] + a[1..];
      assert multiset(a[1..]) == multiset(a) - multiset{a[0]};
      assert multiset(rest) == multiset(a[1..]);
      ColumnSumPermutation(a[1..], rest, m);
      ColumnSumRemoveAt(b, j, m);
      ColumnSumCons(a, m);
    }
  }

  lemma ColumnSumCons(a: seq<Row>, m: Metric)
    requires a != []
    ensures Sum(Column(a, m)) == Value(a[0], m) + Sum(Column(a[1..], m))
  {
    var col := Column(a, m);
    var tail := Column(a[1..], m);
    forall k | 0 <= k < |tail| ensures col[1..][k] == tail[k] {
      assert a[1..][k] == a[k + 1];
    }
    assert col[1..] == tail;
  }

  lemma MultisetRemoveAt<T>(s: seq<T>, j: nat)
    requires j < |s|
    ensures multiset(s[..j] + s[j + 1..]) == multiset(s) - multiset{s[j]}
  {
    assert s == s[..j] + [s[j]] + s[j + 1..];
  }

  lemma ColumnSumRemoveAt(b: seq<Row>, j: nat, m: Metric)
    requires j < |b|
    ensures Sum(Column(b, m)) == Value(b[j], m) + Sum(Column(b[..j] + b[j + 1..], m))
  {
    assert b == b[..j] + [b[j]] + b[j + 1..];
    ColumnAppend(b[..j] + [b[j]], b[j + 1..], m);
    ColumnAppend(b[..j], [b[j]], m);
    ColumnAppend(b[..j], b[j + 1..], m);
    SumAppend(Column(b[..j], m) + Column([b[j]], m), Column(b[j + 1..], m));
    SumAppend(Column(b[..j], m), Column([b[j]], m));
    SumAppend(Column(b[..j], m), Column(b[j + 1..], m));
  }
}
