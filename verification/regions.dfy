/**
 * analyze_genre_by_region (analysis.py:78-106): a fixed table of regions,
 * each a list of countries; for every region that has bands, its band
 * count, its most frequent genre category and its five most frequent ones.
 */
module Regions {
  import opened Genre
  import opened Counting
  import opened Bands

  /** The region table of analysis.py:80-89, in its insertion order. */
  const RegionTable: seq<(string, seq<string>)> := [
    ("Scandinavia", ["Sweden", "Norway", "Finland", "Denmark", "Iceland"]),
    ("Western Europe", ["Germany", "United Kingdom", "France", "Netherlands", "Belgium", "Austria", "Switzerland"]),
    ("Southern Europe", ["Italy", "Spain", "Portugal", "Greece"]),
    ("Eastern Europe", ["Poland", "Russia", "Czech Republic", "Ukraine", "Hungary", "Romania"]),
    ("North America", ["United States", "Canada"]),
    ("South America", ["Brazil", "Argentina", "Chile", "Colombia", "Mexico"]),
    ("Asia", ["Japan", "China", "Indonesia", "India", "Philippines"]),
    ("Oceania", ["Australia", "New Zealand"])
  ]

  /**
   * A row of region_data; Top_Genre_Pct is left out and Genre_Distribution
   * is kept as (category, count) pairs, most frequent first.
   */
  datatype RegionStat = RegionStat(
    region: string,
    totalBands: nat,
    topGenre: Category,
    distribution: seq<(Category, nat)>)

  /** df[df['Country'].isin(countries)] */
  function InRegion(df: seq<Band>, countries: seq<string>): seq<Band>
  {
    Filter(df, (b: Band) => b.country in countries)
  }

  /** The row appended for region k of a table, if it has any bands (analysis.py:93-104). */
  function RegionRow(table: seq<(string, seq<string>)>, df: seq<Band>, k: nat): (rows: seq<RegionStat>)
    requires k < |table|
    ensures |rows| <= 1
    ensures |rows| == 1 <==> |InRegion(df, table[k].1)| > 0
    ensures |rows| == 1 ==> rows[0].region == table[k].0
  {
    RowFor(table[k].0, InRegion(df, table[k].1))
  }

  /** The row of one region given its bands; none when it has no bands. */
  function RowFor(region: string, bands: seq<Band>): (rows: seq<RegionStat>)
    ensures |rows| <= 1
    ensures |rows| == 1 <==> |bands| > 0
    ensures |rows| == 1 ==> rows[0].region == region
  {
    if |bands| == 0 then [] else [RegionSummary(region, bands)]
  }

  /** The dictionary appended for a region with bands (analysis.py:98-103). */
  function RegionSummary(region: string, bands: seq<Band>): (row: RegionStat)
    requires |bands| > 0
    ensures row.region == region && row.totalBands == |bands|
  {
    var cats := CategoriesOf(bands);
    var counts := ValueCounts(cats);
    assert cats[0] in Keys(counts);
    RegionStat(region, |bands|, counts[0].0, counts[..Min(5, |counts|)])
  }

  /** What each region of a table contributes, in table order. */
  function PerRegion(table: seq<(string, seq<string>)>, df: seq<Band>): (ls: seq<seq<RegionStat>>)
    ensures |ls| == |table| && forall k :: 0 <= k < |table| ==> ls[k] == RegionRow(table, df, k)
  {
    seq(|table|, k requires 0 <= k < |table| => RegionRow(table, df, k))
  }

  /** The contributions one after the other. */
  function Concat<T>(ls: seq<seq<T>>): seq<T>
  {
    if ls == [] then [] else Concat(ls[..|ls| - 1]) + ls[|ls| - 1]
  }

  lemma ConcatPrefix<T>(ls: seq<seq<T>>, k: nat)
    requires k < |ls|
    ensures Concat(ls[..k + 1]) == Concat(ls[..k]) + ls[k]
  {
    assert ls[..k + 1][..k] == ls[..k];
  }

  /** The region_data list built for the fixed table. */
  function RegionStats(df: seq<Band>): seq<RegionStat>
  {
    Concat(PerRegion(RegionTable, df))
  }

  /** analyze_genre_by_region (analysis.py:78-106) over the fixed table. */
  method AnalyzeGenreByRegion(df: seq<Band>) returns (regionData: seq<RegionStat>)
    ensures regionData == RegionStats(df)
  {
    regionData := CollectRegionRows(RegionTable, df);
  }

  /** The loop of analysis.py:91-104: one appended row per region that has bands. */
  method CollectRegionRows(table: seq<(string, seq<string>)>, df: seq<Band>) returns (regionData: seq<RegionStat>)
    ensures regionData == Concat(PerRegion(table, df))
  {
    ghost var ls := PerRegion(table, df);
    regionData := [];
    var k := 0;
    while k < |table|
      invariant 0 <= k <= |table|
      invariant regionData == Concat(ls[..k])
    {
      ConcatPrefix(ls, k);
      var bands := InRegion(df, table[k].1);
      assert ls[k] == RowFor(table[k].0, bands);
      if |bands| > 0 {
        regionData := regionData + [RegionSummary(table[k].0, bands)];
      }
      k := k + 1;
    }
    assert ls[..|table|] == ls;
  }

  // ---------------------------------------------------------------------------
  // Properties, for any table whose region names are distinct

  function RegionNames(rows: seq<RegionStat>): (ns: seq<string>)
    ensures |ns| == |rows| && forall i :: 0 <= i < |rows| ==> ns[i] == rows[i].region
  {
    seq(|rows|, i requires 0 <= i < |rows| => rows[i].region)
  }

  predicate NamesDistinct(table: seq<(string, seq<string>)>)
  {
    forall i, j :: 0 <= i < j < |table| ==> table[i].0 != table[j].0
  }

  /** The eight region names of the table differ. */
  lemma RegionTableNamesDistinct()
    ensures NamesDistinct(RegionTable)
  {
    var t := RegionTable;
    var keys := [('S', 11), ('W', 14), ('S', 15), ('E', 14), ('N', 13), ('S', 13), ('A', 4), ('O', 7)];
    assert forall i :: 0 <= i < |t| ==> (t[i].0[0], |t[i].0|) == keys[i];
  }

  /** The position of a region name in a table, or |table| if absent. */
  function RegionPos(table: seq<(string, seq<string>)>, name: string, from: nat): (k: nat)
    requires from <= |table|
    ensures from <= k <= |table|
    ensures k < |table| ==> table[k].0 == name
    ensures forall j :: from <= j < k ==> table[j].0 != name
    decreases |table| - from
  {
    if from == |table| || table[from].0 == name then from else RegionPos(table, name, from + 1)
  }

  lemma PosOfRegion(table: seq<(string, seq<string>)>, k: nat)
    requires NamesDistinct(table) && k < |table|
    ensures RegionPos(table, table[k].0, 0) == k
  {
    var p := RegionPos(table, table[k].0, 0);
    assert !(p < k);
  }

  /** Contribution k is empty or one row named after region k. */
  predicate Shaped(table: seq<(string, seq<string>)>, ls: seq<seq<RegionStat>>)
  {
    && |ls| <= |table|
    && forall k :: 0 <= k < |ls| ==> |ls[k]| <= 1 && (|ls[k]| == 1 ==> ls[k][0].region == table[k].0)
  }

  /** Concatenated contributions name regions in strictly increasing table position. */
  lemma {:induction false} ConcatOrdered(table: seq<(string, seq<string>)>, ls: seq<seq<RegionStat>>)
    requires NamesDistinct(table) && Shaped(table, ls)
    ensures forall i :: 0 <= i < |Concat(ls)| ==> RegionPos(table, Concat(ls)[i].region, 0) < |ls|
    ensures forall i, j :: 0 <= i < j < |Concat(ls)| ==>
      RegionPos(table, Concat(ls)[i].region, 0) < RegionPos(table, Concat(ls)[j].region, 0)
  {
    if ls != [] {
      var init := ls[..|ls| - 1];
      var last := ls[|ls| - 1];
      ConcatOrdered(table, init);
      var prev := Concat(init);
      var rows := prev + last;
      assert rows == Concat(ls);
      forall i | |prev| <= i < |rows| ensures RegionPos(table, rows[i].region, 0) == |ls| - 1 {
        assert rows[i] == last[0];
        PosOfRegion(table, |ls| - 1);
      }
      forall i | 0 <= i < |prev| ensures rows[i] == prev[i] {
      }
    }
  }

  /** Region k is named in the concatenation exactly when it contributed a row. */
  lemma {:induction false} ConcatNames(table: seq<(string, seq<string>)>, ls: seq<seq<RegionStat>>, k: nat)
    requires NamesDistinct(table) && Shaped(table, ls) && k < |ls|
    ensures table[k].0 in RegionNames(Concat(ls)) <==> |ls[k]| == 1
  {
    var init := ls[..|ls| - 1];
    var last := ls[|ls| - 1];
    var prev := Concat(init);
    assert Concat(ls) == prev + last;
    assert RegionNames(Concat(ls)) == RegionNames(prev) + RegionNames(last);
    if k < |ls| - 1 {
      ConcatNames(table, init, k);
      assert table[k].0 != table[|ls| - 1].0;
      assert table[k].0 !in RegionNames(last);
    } else {
      ConcatOrdered(table, init);
      PosOfRegion(table, k);
      assert table[k].0 !in RegionNames(prev);
    }
  }

  /** Every row of the concatenation is the row contributed by the region it names. */
  lemma {:induction false} ConcatRow(table: seq<(string, seq<string>)>, ls: seq<seq<RegionStat>>, i: int)
    requires NamesDistinct(table) && Shaped(table, ls) && 0 <= i < |Concat(ls)|
    ensures RegionPos(table, Concat(ls)[i].region, 0) < |ls|
    ensures var k := RegionPos(table, Concat(ls)[i].region, 0); |ls[k]| == 1 && Concat(ls)[i] == ls[k][0]
  {
    var init := ls[..|ls| - 1];
    var last := ls[|ls| - 1];
    var prev := Concat(init);
    assert Concat(ls) == prev + last;
    if i < |prev| {
      ConcatRow(table, init, i);
    } else {
      PosOfRegion(table, |ls| - 1);
    }
  }

  /** Regions appear in the order of the table, each at most once. */
  lemma RegionsInTableOrder(df: seq<Band>, i: int, j: int)
    requires 0 <= i < j < |RegionStats(df)|
    ensures RegionPos(RegionTable, RegionStats(df)[i].region, 0) < RegionPos(RegionTable, RegionStats(df)[j].region, 0)
  {
    RegionTableNamesDistinct();
    ConcatOrdered(RegionTable, PerRegion(RegionTable, df));
  }

  /** The region's selection is non-empty exactly when some band's country is listed. */
  lemma BandInRegion(df: seq<Band>, countries: seq<string>)
    ensures |InRegion(df, countries)| > 0 <==> exists i :: 0 <= i < |df| && df[i].country in countries
  {
    var bands := InRegion(df, countries);
    if exists i :: 0 <= i < |df| && df[i].country in countries {
      var i :| 0 <= i < |df| && df[i].country in countries;
      assert df[i] in bands;
    }
    if |bands| > 0 {
      assert bands[0] in bands;
      var i :| 0 <= i < |df| && df[i] == bands[0];
    }
  }

  /** A region is listed exactly when some band's country is in its list. */
  lemma RegionListedIff(df: seq<Band>, k: nat)
    requires k < |RegionTable|
    ensures RegionTable[k].0 in RegionNames(RegionStats(df))
        <==> exists i :: 0 <= i < |df| && df[i].country in RegionTable[k].1
  {
    RegionTableNamesDistinct();
    ConcatNames(RegionTable, PerRegion(RegionTable, df), k);
    BandInRegion(df, RegionTable[k].1);
  }

  /** What one listed region's row says (analysis.py:94-103). */
  ghost predicate RowDescribes(df: seq<Band>, row: RegionStat, name: string, countries: seq<string>)
  {
    row.region == name && Describes(InRegion(df, countries), row)
  }

  /** What the row built from a non-empty selection of bands says about it. */
  ghost predicate Describes(bands: seq<Band>, row: RegionStat)
  {
    var cats := CategoriesOf(bands);
    && row.totalBands == |bands| > 0
    && (forall c :: multiset(cats)[c] <= multiset(cats)[row.topGenre])
    && 0 < |row.distribution| <= 5
    && |row.distribution| == Min(5, NUnique(cats))
    && Distinct(Keys(row.distribution))
    && row.distribution[0].0 == row.topGenre
    && (forall i :: 0 <= i < |row.distribution| ==>
          row.distribution[i].1 == multiset(cats)[row.distribution[i].0] > 0)
    && (forall i, j :: 0 <= i < j < |row.distribution| ==> row.distribution[i].1 >= row.distribution[j].1)
    && (forall c, i :: 0 <= i < |row.distribution| && c !in Keys(row.distribution) ==>
          multiset(cats)[c] <= row.distribution[i].1)
  }

  lemma RegionRowDescribes(table: seq<(string, seq<string>)>, df: seq<Band>, k: nat)
    requires k < |table| && |RegionRow(table, df, k)| == 1
    ensures RowDescribes(df, RegionRow(table, df, k)[0], table[k].0, table[k].1)
  {
    SummaryDescribes(table[k].0, InRegion(df, table[k].1));
  }

  lemma SummaryDescribes(region: string, bands: seq<Band>)
    requires |bands| > 0
    ensures Describes(bands, RegionSummary(region, bands))
  {
    var cats := CategoriesOf(bands);
    var counts := ValueCounts(cats);
    var row := RegionSummary(region, bands);
    assert row.distribution == counts[..Min(5, |counts|)];
    SummaryShape(region, bands);
    assert forall i :: 0 <= i < |row.distribution| ==> row.distribution[i] == counts[i];
    ValueCountsHeadIsMaxAll(cats);
    forall c, l | 0 <= l < |row.distribution| && c !in Keys(row.distribution)
      ensures multiset(cats)[c] <= row.distribution[l].1
    {
      ValueCountsHead(cats, 5, c, l);
    }
  }

  /** Genre_Distribution has one entry per category, as many as head(5) keeps. */
  lemma SummaryShape(region: string, bands: seq<Band>)
    requires |bands| > 0
    ensures |RegionSummary(region, bands).distribution| == Min(5, NUnique(CategoriesOf(bands)))
    ensures Distinct(Keys(RegionSummary(region, bands).distribution))
  {
    var cats := CategoriesOf(bands);
    var counts := ValueCounts(cats);
    var row := RegionSummary(region, bands);
    assert row.distribution == counts[..Min(5, |counts|)];
    assert |counts| == NUnique(cats);
    DistinctPrefix(Keys(counts), Min(5, |counts|));
    assert Keys(row.distribution) == Keys(counts)[..Min(5, |counts|)];
  }

  lemma ValueCountsHeadIsMaxAll(cats: seq<Category>)
    requires |cats| > 0
    ensures |ValueCounts(cats)| > 0
    ensures forall c :: multiset(cats)[c] <= multiset(cats)[ValueCounts(cats)[0].0]
  {
    forall c ensures multiset(cats)[c] <= ValueCounts(cats)[0].1 {
      ValueCountsHeadIsMax(cats, c);
    }
  }

  /**
   * Every listed region: its name, Total_Bands the number of bands whose
   * country is in its list, Top_Genre a most frequent category, and
   * Genre_Distribution the at most five most frequent categories with their
   * counts.
   */
  lemma RegionRowFacts(df: seq<Band>, i: int)
    requires 0 <= i < |RegionStats(df)|
    ensures RegionPos(RegionTable, RegionStats(df)[i].region, 0) < |RegionTable|
    ensures var k := RegionPos(RegionTable, RegionStats(df)[i].region, 0);
      RowDescribes(df, RegionStats(df)[i], RegionTable[k].0, RegionTable[k].1)
  {
    var ls := PerRegion(RegionTable, df);
    RegionTableNamesDistinct();
    ConcatRow(RegionTable, ls, i);
    var k := RegionPos(RegionTable, RegionStats(df)[i].region, 0);
    RegionRowDescribes(RegionTable, df, k);
  }
}
