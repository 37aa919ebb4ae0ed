/**
 * analyze_status_distribution (analysis.py:109-119): a pivot of band counts
 * by country and status with a Total column, largest Total first. The
 * sort by Total raises when no band is 'Active', because Total is only
 * added in that case.
 */
module Status {
  import opened Wrappers
  import opened Counting
  import opened Bands

  /** A row of the pivot: one count per status column, then Total. */
  datatype StatusRow = StatusRow(country: string, counts: seq<nat>, total: nat)

  datatype StatusTable = StatusTable(statuses: seq<string>, rows: seq<StatusRow>)

  /** sort_values('Total') on a frame without a Total column raises KeyError. */
  datatype StatusError = MissingTotalColumn

  function StatusColumn(df: seq<Band>): (col: seq<Option<string>>)
    ensures |col| == |df| && forall i :: 0 <= i < |df| ==> col[i] == df[i].status
  {
    seq(|df|, i requires 0 <= i < |df| => df[i].status)
  }

  predicate HasStatus(b: Band)
  {
    b.status.Some?
  }

  /** The statuses of one country's bands; groupby drops the missing ones. */
  function StatusesOf(df: seq<Band>, country: string): seq<string>
  {
    Present(StatusColumn(FromCountry(df, country)))
  }

  /** The status counts of one country, in column order. */
  function CountsOf(df: seq<Band>, statuses: seq<string>, country: string): seq<nat>
  {
    CountsFor(statuses, StatusesOf(df, country))
  }

  /** The Total of one country: the sum of its status counts. */
  function TotalOf(df: seq<Band>, statuses: seq<string>, country: string): int
  {
    Sum(CountsOf(df, statuses, country))
  }

  function RowsOf(df: seq<Band>, statuses: seq<string>, countries: seq<string>): (rows: seq<StatusRow>)
    ensures |rows| == |countries|
    ensures forall i :: 0 <= i < |countries| ==>
      rows[i] == StatusRow(countries[i], CountsOf(df, statuses, countries[i]), Sum(CountsOf(df, statuses, countries[i])))
  {
    seq(|countries|, i requires 0 <= i < |countries| =>
      StatusRow(countries[i], CountsOf(df, statuses, countries[i]), Sum(CountsOf(df, statuses, countries[i]))))
  }

  function RowCountries(rows: seq<StatusRow>): (cs: seq<string>)
    ensures |cs| == |rows| && forall i :: 0 <= i < |rows| ==> cs[i] == rows[i].country
  {
    seq(|rows|, i requires 0 <= i < |rows| => rows[i].country)
  }

  /** What every row of the pivot says about its country. */
  predicate RowIsCorrect(df: seq<Band>, statuses: seq<string>, row: StatusRow)
  {
    var own := StatusesOf(df, row.country);
    && |row.counts| == |statuses|
    && (forall j :: 0 <= j < |statuses| ==> row.counts[j] == multiset(own)[statuses[j]])
    && row.total == Sum(row.counts) == |own| > 0
  }

  /**
   * The pivot with its Total column, sorted by Total. The status columns
   * are the statuses that occur; the rows are the countries with at least
   * one band whose status is present. Rows with equal Total come in no
   * particular order.
   */
  function Pivot(df: seq<Band>): (t: StatusTable)
    ensures Distinct(t.statuses)
    ensures forall s :: s in t.statuses <==> Some(s) in StatusColumn(df)
    ensures forall i, j :: 0 <= i < j < |t.rows| ==> t.rows[i].total >= t.rows[j].total
    ensures forall c :: c in RowCountries(t.rows) <==> c in CountriesOf(Filter(df, HasStatus))
    ensures Distinct(RowCountries(t.rows))
    ensures forall i :: 0 <= i < |t.rows| ==> RowIsCorrect(df, t.statuses, t.rows[i])
  {
    var statuses := Dedup(Present(StatusColumn(df)));
    var countries := Dedup(CountriesOf(Filter(df, HasStatus)));
    var sorted := SortDesc(countries, c => TotalOf(df, statuses, c));
    var rows := RowsOf(df, statuses, sorted);
    PivotFacts(df, statuses, countries, sorted, rows);
    StatusTable(statuses, rows)
  }

  lemma PivotFacts(df: seq<Band>, statuses: seq<string>, countries: seq<string>, sorted: seq<string>, rows: seq<StatusRow>)
    requires statuses == Dedup(Present(StatusColumn(df)))
    requires countries == Dedup(CountriesOf(Filter(df, HasStatus)))
    requires multiset(sorted) == multiset(countries)
    requires SortedDesc(sorted, c => TotalOf(df, statuses, c))
    requires rows == RowsOf(df, statuses, sorted)
    ensures forall i, j :: 0 <= i < j < |rows| ==> rows[i].total >= rows[j].total
    ensures forall c :: c in RowCountries(rows) <==> c in CountriesOf(Filter(df, HasStatus))
    ensures Distinct(RowCountries(rows))
    ensures forall i :: 0 <= i < |rows| ==> RowIsCorrect(df, statuses, rows[i])
  {
    assert RowCountries(rows) == sorted;
    SortedKeysAreDistinct(countries, sorted);
    forall i, j | 0 <= i < j < |rows| ensures rows[i].total >= rows[j].total {
      assert (c => TotalOf(df, statuses, c))(sorted[i]) >= (c => TotalOf(df, statuses, c))(sorted[j]);
    }
    forall i | 0 <= i < |rows| ensures RowIsCorrect(df, statuses, rows[i]) {
      RowFacts(df, statuses, sorted[i]);
    }
  }

  /** A status some band of the country has is one of the columns. */
  lemma StatusIsColumn(df: seq<Band>, country: string, s: string)
    requires s in StatusesOf(df, country)
    ensures s in Dedup(Present(StatusColumn(df)))
  {
    var mine := FromCountry(df, country);
    assert Some(s) in StatusColumn(mine);
    var i :| 0 <= i < |mine| && StatusColumn(mine)[i] == Some(s);
    assert mine[i] in df;
    var j :| 0 <= j < |df| && df[j] == mine[i];
    assert StatusColumn(df)[j] == Some(s);
  }

  /** A country listed among bands with a status has some status of its own. */
  lemma CountryHasStatus(df: seq<Band>, country: string)
    requires country in CountriesOf(Filter(df, HasStatus))
    ensures |StatusesOf(df, country)| > 0
  {
    var withStatus := Filter(df, HasStatus);
    var i :| 0 <= i < |withStatus| && withStatus[i].country == country;
    var b := withStatus[i];
    assert b in df && HasStatus(b);
    var mine := FromCountry(df, country);
    assert b in mine;
    var k :| 0 <= k < |mine| && mine[k] == b;
    assert StatusColumn(mine)[k] == Some(b.status.value);
    assert b.status.value in StatusesOf(df, country);
  }

  /** One country's row: its counts add up to its bands with a status. */
  lemma RowFacts(df: seq<Band>, statuses: seq<string>, country: string)
    requires statuses == Dedup(Present(StatusColumn(df)))
    requires country in CountriesOf(Filter(df, HasStatus))
    ensures RowIsCorrect(df, statuses, StatusRow(country, CountsOf(df, statuses, country), TotalOf(df, statuses, country)))
  {
    var own := StatusesOf(df, country);
    forall s | s in own ensures s in statuses {
      StatusIsColumn(df, country, s);
    }
    SumOfCounts(statuses, own);
    CountryHasStatus(df, country);
  }

  /**
   * analyze_status_distribution: the sorted pivot when some band is
   * 'Active', and the KeyError of the sort otherwise.
   */
  function AnalyzeStatusDistribution(df: seq<Band>): (r: Result<StatusTable, StatusError>)
    ensures r.Err? <==> forall i :: 0 <= i < |df| ==> df[i].status != Some("Active")
    ensures r.Ok? ==> r.value == Pivot(df) && "Active" in r.value.statuses
  {
    var t := Pivot(df);
    if "Active" in t.statuses then Ok(t)
    else
      assert forall i :: 0 <= i < |df| ==> StatusColumn(df)[i] == df[i].status;
      Err(MissingTotalColumn)
  }

  /** In every row the Active count is at most the Total. */
  lemma ActiveAtMostTotal(df: seq<Band>, i: int, j: int)
    requires AnalyzeStatusDistribution(df).Ok?
    requires 0 <= i < |AnalyzeStatusDistribution(df).value.rows|
    requires 0 <= j < |AnalyzeStatusDistribution(df).value.statuses|
    requires AnalyzeStatusDistribution(df).value.statuses[j] == "Active"
    ensures var row := AnalyzeStatusDistribution(df).value.rows[i]; row.counts[j] <= row.total
  {
    var t := Pivot(df);
    assert AnalyzeStatusDistribution(df).value == t;
    assert RowIsCorrect(df, t.statuses, t.rows[i]);
    SumBound(t.rows[i].counts, j);
  }
}
