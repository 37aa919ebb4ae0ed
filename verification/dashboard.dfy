/**
 * export_enhanced_dashboard (analysis.py:261-335): the top 30 countries
 * with their coordinates, the global genre counts, the region and Spotify
 * tables passed through, the genre mix of the top 15 countries, and a
 * summary. Writing the JSON file is not modelled.
 */
module Dashboard {
  import opened Wrappers
  import opened Text
  import opened Genre
  import opened Counting
  import opened Bands
  import opened Countries
  import opened Regions
  import opened Crosstab
  import opened Spotify

  // ---------------------------------------------------------------------------
  // Coordinates

  datatype Coord = Coord(lat: real, lon: real)

  /** The country_coords dictionary, entry by entry. */
  const CountryCoords: seq<(string, Coord)> := [
    ("United States", Coord(39.8, -98.5)),
    ("Germany", Coord(51.2, 10.4)),
    ("Brazil", Coord(-14.2, -51.9)),
    ("Italy", Coord(41.9, 12.6)),
    ("United Kingdom", Coord(55.4, -3.4)),
    ("France", Coord(46.2, 2.2)),
    ("Sweden", Coord(60.1, 18.6)),
    ("Finland", Coord(61.9, 25.7)),
    ("Russia", Coord(61.5, 105.3)),
    ("Poland", Coord(51.9, 19.1)),
    ("Spain", Coord(40.5, -3.7)),
    ("Canada", Coord(56.1, -106.3)),
    ("Netherlands", Coord(52.1, 5.3)),
    ("Australia", Coord(-25.3, 133.8)),
    ("Japan", Coord(36.2, 138.3)),
    ("Argentina", Coord(-38.4, -63.6)),
    ("Mexico", Coord(23.6, -102.6)),
    ("Norway", Coord(60.5, 8.5)),
    ("Greece", Coord(39.1, 21.8)),
    ("Chile", Coord(-35.7, -71.5)),
    ("Austria", Coord(47.5, 14.6)),
    ("Belgium", Coord(50.5, 4.5)),
    ("Czech Republic", Coord(49.8, 15.5)),
    ("Portugal", Coord(39.4, -8.2)),
    ("Ukraine", Coord(48.4, 31.2)),
    ("Denmark", Coord(56.3, 9.5)),
    ("Switzerland", Coord(46.8, 8.2)),
    ("Colombia", Coord(4.6, -74.3)),
    ("Indonesia", Coord(-0.8, 113.9)),
    ("Hungary", Coord(47.2, 19.5))
  ]

  /**
   * The value a dictionary literal with these entries holds for name: that
   * of its last entry with the key, or None when no entry has it.
   */
  function Lookup<V(==)>(table: seq<(string, V)>, name: string): (r: Option<V>)
    ensures r.Some? ==> (name, r.value) in table
    ensures r.Some? ==> exists i :: 0 <= i < |table| && table[i] == (name, r.value) &&
                          forall j :: i < j < |table| ==> table[j].0 != name
    ensures r.None? <==> forall i :: 0 <= i < |table| ==> table[i].0 != name
  {
    if table == [] then None
    else
      var last := table[|table| - 1];
      var init := table[..|table| - 1];
      assert table == init + [last];
      if last.0 == name then
        assert table[|table| - 1] == (name, last.1);
        Some(last.1)
      else
        var r := Lookup(init, name);
        if r.Some? then
          var i :| 0 <= i < |init| && init[i] == (name, r.value) &&
                   forall j :: i < j < |init| ==> init[j].0 != name;
          assert table[i] == (name, r.value);
          assert forall j :: i < j < |table| ==> table[j].0 != name;
          r
        else r
  }

  /** An entry of the countries list: a country_stats row and its coordinates. */
  datatype CountryRecord = CountryRecord(
    country: string,
    bandCount: nat,
    dominantGenre: Option<Category>,
    lat: Option<real>,
    lon: Option<real>)

  /** The record as to_dict('records') makes it, before the coordinate loop. */
  function RecordOf(s: CountryStat): CountryRecord
  {
    CountryRecord(s.country, s.bandCount, s.dominantGenre, None, None)
  }

  /**
   * One step of the coordinate loop: lat and lon from the table when the
   * country is in it, None (JSON null) otherwise; the rest is unchanged.
   */
  function WithCoords(rec: CountryRecord, table: seq<(string, Coord)>): (r: CountryRecord)
    ensures r.country == rec.country && r.bandCount == rec.bandCount && r.dominantGenre == rec.dominantGenre
    ensures r.lat.Some? <==> r.lon.Some?
    ensures r.lat.None? <==> forall i :: 0 <= i < |table| ==> table[i].0 != rec.country
    ensures r.lat.Some? ==> (rec.country, Coord(r.lat.value, r.lon.value)) in table
  {
    match Lookup(table, rec.country)
    case None => rec.(lat := None, lon := None)
    case Some(c) => rec.(lat := Some(c.lat), lon := Some(c.lon))
  }

  /** The loop over top_countries_data, which sets lat and lon on each record in place. */
  method AnnotateCoordinates(records: array<CountryRecord>, table: seq<(string, Coord)>)
    modifies records
    ensures forall i :: 0 <= i < records.Length ==> records[i] == WithCoords(old(records[i]), table)
  {
    for i := 0 to records.Length
      invariant forall k :: 0 <= k < i ==> records[k] == WithCoords(old(records[k]), table)
      invariant forall k :: i <= k < records.Length ==> records[k] == old(records[k])
    {
      records[i] := WithCoords(records[i], table);
    }
  }

  // ---------------------------------------------------------------------------
  // Genre mix of the top countries

  function Names15(countryStats: seq<CountryStat>): seq<string>
  {
    Names(countryStats[..Min(15, |countryStats|)])
  }

  /** df[df['Country'].isin(countries)] */
  function InCountries(df: seq<Band>, countries: seq<string>): seq<Band>
  {
    Filter(df, (b: Band) => b.country in countries)
  }

  /** The (Country, Genre_Category) pairs of a frame, row by row. */
  function CountryGenrePairs(df: seq<Band>): (es: seq<(string, Category)>)
    ensures |es| == |df| && forall i :: 0 <= i < |df| ==> es[i] == (df[i].country, df[i].category)
    ensures Keys(es) == CountriesOf(df)
    ensures Seconds(es) == CategoriesOf(df)
  {
    seq(|df|, i requires 0 <= i < |df| => (df[i].country, df[i].category))
  }

  /**
   * genre_country_matrix before the division into percentages: one row
   * per top-15 country that has bands, countries ascending as groupby
   * sorts them, one column per category that occurs among them.
   */
  function GenreByCountry(df: seq<Band>, countryStats: seq<CountryStat>): (t: Table<string>)
    ensures forall i, j :: 0 <= i < j < |t.rows| ==> StrLt(t.rows[i].key, t.rows[j].key)
    ensures forall c :: c in RowKeys(t.rows) <==> c in Names15(countryStats) && c in CountriesOf(df)
    ensures forall i :: 0 <= i < |t.rows| ==>
      Sum(t.rows[i].counts) == multiset(CountriesOf(df))[t.rows[i].key] > 0
    ensures forall c :: c in t.columns <==> c in CategoriesOf(InCountries(df, Names15(countryStats)))
    ensures forall i, j :: 0 <= i < j < |t.columns| ==> StrLt(Label(t.columns[i]), Label(t.columns[j]))
    ensures forall i, j :: 0 <= i < |t.rows| && 0 <= j < |t.columns| ==>
      |t.rows[i].counts| == |t.columns|
      && t.rows[i].counts[j] == multiset(CountryGenrePairs(df))[(t.rows[i].key, t.columns[j])]
  {
    var top := Names15(countryStats);
    var sub := InCountries(df, top);
    var entries := CountryGenrePairs(sub);
    var keys := SortStrings(Dedup(Keys(entries)));
    MatrixFacts(df, top, sub, entries, keys);
    MatrixCells(df, top, sub, entries, keys);
    CountTable(entries, keys)
  }

  /** Each cell counts the country's bands of that category, all of which the selection keeps. */
  lemma MatrixCells(df: seq<Band>, top: seq<string>, sub: seq<Band>, entries: seq<(string, Category)>, keys: seq<string>)
    requires sub == InCountries(df, top) && entries == CountryGenrePairs(sub)
    requires forall c :: c in keys ==> c in top
    ensures var t := CountTable(entries, keys);
      forall i, j :: 0 <= i < |t.rows| && 0 <= j < |t.columns| ==>
        |t.rows[i].counts| == |t.columns|
        && t.rows[i].counts[j] == multiset(CountryGenrePairs(df))[(t.rows[i].key, t.columns[j])]
  {
    var t := CountTable(entries, keys);
    forall i, j | 0 <= i < |t.rows| && 0 <= j < |t.columns|
      ensures t.rows[i].counts[j] == multiset(CountryGenrePairs(df))[(t.rows[i].key, t.columns[j])]
    {
      assert keys[i] in keys;
      SelectedPairs(df, top, keys[i], t.columns[j]);
    }
  }

  /** A selected country keeps each of its (country, category) pairs. */
  lemma {:induction false} SelectedPairs(df: seq<Band>, top: seq<string>, c: string, g: Category)
    requires c in top
    ensures multiset(CountryGenrePairs(InCountries(df, top)))[(c, g)] == multiset(CountryGenrePairs(df))[(c, g)]
  {
    if df != [] {
      var n := |df| - 1;
      var last := df[n];
      SelectedPairs(df[..n], top, c, g);
      PairsSelectionStep(df, top);
      PairsSnoc(df);
      PairCountStep(CountryGenrePairs(InCountries(df[..n], top)), CountryGenrePairs(df[..n]),
        (last.country, last.category), last.country in top, c, g);
    }
  }

  lemma PairsSnoc(df: seq<Band>)
    requires df != []
    ensures CountryGenrePairs(df)
      == CountryGenrePairs(df[..|df| - 1]) + [(df[|df| - 1].country, df[|df| - 1].category)]
  {
  }

  lemma PairsSelectionStep(df: seq<Band>, top: seq<string>)
    requires df != []
    ensures var last := df[|df| - 1];
      CountryGenrePairs(InCountries(df, top)) == CountryGenrePairs(InCountries(df[..|df| - 1], top))
        + (if last.country in top then [(last.country, last.category)] else [])
  {
    var last := df[|df| - 1];
    var prev := InCountries(df[..|df| - 1], top);
    InCountriesSnoc(df, top);
    if last.country in top {
      PairsSnoc(prev + [last]);
      assert (prev + [last])[..|prev|] == prev;
    }
  }

  lemma PairCountStep(sel: seq<(string, Category)>, all: seq<(string, Category)>, p: (string, Category),
                      kept: bool, c: string, g: Category)
    requires multiset(sel)[(c, g)] == multiset(all)[(c, g)]
    requires p.0 == c ==> kept
    ensures multiset(sel + (if kept then [p] else []))[(c, g)] == multiset(all + [p])[(c, g)]
  {
  }


  lemma MatrixFacts(df: seq<Band>, top: seq<string>, sub: seq<Band>, entries: seq<(string, Category)>, keys: seq<string>)
    requires sub == InCountries(df, top) && entries == CountryGenrePairs(sub)
    requires keys == SortStrings(Dedup(Keys(entries)))
    ensures forall i, j :: 0 <= i < j < |keys| ==> StrLt(keys[i], keys[j])
    ensures forall c :: c in RowKeys(CountTable(entries, keys).rows) <==> c in top && c in CountriesOf(df)
    ensures forall i :: 0 <= i < |keys| ==>
      Sum(CountTable(entries, keys).rows[i].counts) == multiset(CountriesOf(df))[keys[i]] > 0
  {
    SortedKeysAreDistinct(Dedup(Keys(entries)), keys);
    StrictlyAscending(keys);
    assert RowKeys(CountTable(entries, keys).rows) == keys;
    forall c ensures c in keys <==> c in top && c in CountriesOf(df) {
      SelectedCountries(df, top, c);
    }
    forall i | 0 <= i < |keys|
      ensures Sum(CountTable(entries, keys).rows[i].counts) == multiset(CountriesOf(df))[keys[i]] > 0
    {
      RowSum(entries, keys, i);
      assert keys[i] in keys;
      SelectedCountries(df, top, keys[i]);
      SelectedCount(df, top, keys[i]);
    }
  }

  /** A country has bands in the selection exactly when it is selected and has bands. */
  lemma SelectedCountries(df: seq<Band>, top: seq<string>, c: string)
    ensures c in CountriesOf(InCountries(df, top)) <==> c in top && c in CountriesOf(df)
  {
    var sub := InCountries(df, top);
    if c in CountriesOf(sub) {
      var i :| 0 <= i < |sub| && sub[i].country == c;
      assert sub[i] in sub;
      var j :| 0 <= j < |df| && df[j] == sub[i];
    }
    if c in top && c in CountriesOf(df) {
      var j :| 0 <= j < |df| && df[j].country == c;
      assert df[j] in sub;
      var i :| 0 <= i < |sub| && sub[i] == df[j];
    }
  }

  /** A selected country keeps all of its bands in the selection. */
  lemma {:induction false} SelectedCount(df: seq<Band>, top: seq<string>, c: string)
    requires c in top
    ensures multiset(CountriesOf(InCountries(df, top)))[c] == multiset(CountriesOf(df))[c]
  {
    if df != [] {
      var n := |df| - 1;
      var prev := InCountries(df[..n], top);
      SelectedCount(df[..n], top, c);
      CountriesOfSnoc(df);
      SelectionStep(df, top, prev);
    }
  }

  /** Selecting from a frame selects from all but its last row, then that row if its country is selected. */
  lemma SelectionStep(df: seq<Band>, top: seq<string>, prev: seq<Band>)
    requires df != [] && prev == InCountries(df[..|df| - 1], top)
    ensures CountriesOf(InCountries(df, top))
      == CountriesOf(prev) + (if df[|df| - 1].country in top then [df[|df| - 1].country] else [])
  {
    var last := df[|df| - 1];
    InCountriesSnoc(df, top);
    if last.country in top {
      CountriesOfSnoc(prev + [last]);
      assert (prev + [last])[..|prev|] == prev;
    }
  }

  lemma InCountriesSnoc(df: seq<Band>, top: seq<string>)
    requires df != []
    ensures InCountries(df, top)
      == InCountries(df[..|df| - 1], top) + (if df[|df| - 1].country in top then [df[|df| - 1]] else [])
  {
  }

  // ---------------------------------------------------------------------------
  // The dashboard

  datatype Summary = Summary(totalBands: nat, totalCountries: nat, totalGenres: nat, topCountry: string, topGenre: Category)

  datatype DashboardData = DashboardData(
    summary: Summary,
    countries: seq<CountryRecord>,
    genres: seq<(Category, nat)>,
    regions: seq<RegionStat>,
    genreByCountry: Table<string>,
    spotify: SpotifyReport)

  /** country_stats.index[0] or global_genres.index[0] on an empty table. */
  datatype ExportError = IndexError

  /**
   * The summary of a non-empty frame: its number of bands, of countries
   * and of categories, the first country row, and a most frequent category.
   */
  function SummaryOf(df: seq<Band>, countryStats: seq<CountryStat>): (s: Summary)
    requires |df| > 0 && |countryStats| > 0
    ensures s.totalBands == |df|
    ensures s.totalCountries == NUnique(CountriesOf(df))
    ensures s.totalGenres == NUnique(CategoriesOf(df))
    ensures s.topCountry == countryStats[0].country
    ensures s.topGenre in CategoriesOf(df)
    ensures forall c :: multiset(CategoriesOf(df))[c] <= multiset(CategoriesOf(df))[s.topGenre]
  {
    var genres := ValueCounts(CategoriesOf(df));
    forall c ensures multiset(CategoriesOf(df))[c] <= genres[0].1 {
      ValueCountsHeadIsMax(CategoriesOf(df), c);
    }
    assert genres[0].0 in Keys(genres);
    Summary(|df|, NUnique(CountriesOf(df)), NUnique(CategoriesOf(df)), countryStats[0].country, genres[0].0)
  }

  /** The first 30 country rows with the coordinates the table gives them. */
  function LocatedCountries(countryStats: seq<CountryStat>, table: seq<(string, Coord)>): (rs: seq<CountryRecord>)
    ensures |rs| == Min(30, |countryStats|)
    ensures forall i :: 0 <= i < |rs| ==> rs[i] == WithCoords(RecordOf(countryStats[i]), table)
  {
    seq(Min(30, |countryStats|), i requires 0 <= i < Min(30, |countryStats|) => WithCoords(RecordOf(countryStats[i]), table))
  }

  /**
   * What export_enhanced_dashboard returns, for a coordinate table: an
   * IndexError when there is no country row or no band to name a top
   * country and genre; otherwise the located countries, the category
   * counts largest first, the matrix of the top 15 countries, the tables
   * passed in, and the summary.
   */
  function ExportWith(table: seq<(string, Coord)>, df: seq<Band>, countryStats: seq<CountryStat>, regionStats: seq<RegionStat>, spotifyData: SpotifyReport)
    : (r: Result<DashboardData, ExportError>)
    ensures r.Err? <==> |countryStats| == 0 || |df| == 0
    ensures r.Ok? ==> r.value == DashboardData(SummaryOf(df, countryStats), LocatedCountries(countryStats, table),
      ValueCounts(CategoriesOf(df)), regionStats, GenreByCountry(df, countryStats), spotifyData)
  {
    if |countryStats| == 0 || |df| == 0 then Err(IndexError)
    else Ok(DashboardData(SummaryOf(df, countryStats), LocatedCountries(countryStats, table),
      ValueCounts(CategoriesOf(df)), regionStats, GenreByCountry(df, countryStats), spotifyData))
  }

  /**
   * export_enhanced_dashboard: the records of the top 30 countries are
   * built, annotated in place by the coordinate loop, and assembled with
   * the other tables.
   */
  method ExportEnhancedDashboard(df: seq<Band>, countryStats: seq<CountryStat>, regionStats: seq<RegionStat>, spotifyData: SpotifyReport)
    returns (r: Result<DashboardData, ExportError>)
    ensures r == ExportWith(CountryCoords, df, countryStats, regionStats, spotifyData)
  {
    r := ExportUsing(CountryCoords, df, countryStats, regionStats, spotifyData);
  }

  method ExportUsing(table: seq<(string, Coord)>, df: seq<Band>, countryStats: seq<CountryStat>, regionStats: seq<RegionStat>, spotifyData: SpotifyReport)
    returns (r: Result<DashboardData, ExportError>)
    ensures r == ExportWith(table, df, countryStats, regionStats, spotifyData)
  {
    var top := countryStats[..Min(30, |countryStats|)];
    var records := new CountryRecord[|top|];
    for i := 0 to |top|
      invariant forall k :: 0 <= k < i ==> records[k] == RecordOf(top[k])
    {
      records[i] := RecordOf(top[i]);
    }
    AnnotateCoordinates(records, table);
    var countries := records[..];
    assert countries == LocatedCountries(countryStats, table);
    if |countryStats| == 0 || |df| == 0 {
      return Err(IndexError);
    }
    r := Ok(DashboardData(SummaryOf(df, countryStats), countries, ValueCounts(CategoriesOf(df)), regionStats,
      GenreByCountry(df, countryStats), spotifyData));
  }

  /**
   * With the country table of the same frame, the summary's country count
   * is the number of country rows and its top country has the most bands.
   */
  lemma SummaryMatchesCountryTable(df: seq<Band>, regionStats: seq<RegionStat>, spotifyData: SpotifyReport, country: string)
    requires |df| > 0
    ensures var r := ExportWith(CountryCoords, df, AnalyzeByCountry(df), regionStats, spotifyData);
      && r.Ok?
      && r.value.summary.totalCountries == |AnalyzeByCountry(df)|
      && multiset(CountriesOf(df))[country] <= multiset(CountriesOf(df))[r.value.summary.topCountry]
  {
    var stats := AnalyzeByCountry(df);
    TopCountryHasMostBands(df, country);
    assert Distinct(Names(stats));
    assert |Names(stats)| == |stats|;
  }

  /** The number of genres in the summary is the number of rows of the genre counts. */
  lemma GenreCountMatchesGenres(df: seq<Band>, countryStats: seq<CountryStat>, regionStats: seq<RegionStat>, spotifyData: SpotifyReport)
    requires ExportWith(CountryCoords, df, countryStats, regionStats, spotifyData).Ok?
    ensures var d := ExportWith(CountryCoords, df, countryStats, regionStats, spotifyData).value;
      d.summary.totalGenres == |d.genres|
  {
    var genres := ValueCounts(CategoriesOf(df));
    assert |Keys(genres)| == |genres|;
  }
}
