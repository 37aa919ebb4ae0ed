/**
 * The cleaned band table produced by load_and_clean_data
 * (analysis.py:7-21): rows without a country are dropped, the country is
 * stripped, and the primary genre and genre category columns are derived.
 */
module Bands {
  import opened Wrappers
  import opened Text
  import opened Genre
  import opened Counting

  /** A row of metal_bands.csv as read; Country, Genre and Status may be missing. */
  datatype RawBand = RawBand(id: int, country: Option<string>, genre: Option<string>, status: Option<string>)

  /** A row of the cleaned table, with the Primary_Genre and Genre_Category columns. */
  datatype Band = Band(
    id: int,
    country: string,
    genre: Option<string>,
    status: Option<string>,
    primaryGenre: string,
    category: Category)

  predicate HasCountry(row: RawBand)
  {
    row.country.Some?
  }

  /** What the cleaning does to one row that survives dropna. */
  function CleanRow(row: RawBand): (b: Band)
    requires HasCountry(row)
    ensures b.id == row.id && b.genre == row.genre && b.status == row.status
    ensures b.country == Strip(row.country.value)
    ensures b.primaryGenre == ExtractPrimaryGenre(b.genre) && b.category == MapToGenreCategory(b.primaryGenre)
  {
    var primary := ExtractPrimaryGenre(row.genre);
    Band(row.id, Strip(row.country.value), row.genre, row.status, primary, MapToGenreCategory(primary))
  }

  /** The cleaned table: one cleaned row per raw row that has a country, in the original order. */
  function CleanRows(raw: seq<RawBand>): (df: seq<Band>)
    ensures |df| <= |raw|
  {
    if raw == [] then []
    else
      var last := raw[|raw| - 1];
      CleanRows(raw[..|raw| - 1]) + (if HasCountry(last) then [CleanRow(last)] else [])
  }

  /** No row with a country is lost. */
  lemma {:induction false} CleanRowsComplete(raw: seq<RawBand>, i: int)
    requires 0 <= i < |raw| && HasCountry(raw[i])
    ensures CleanRow(raw[i]) in CleanRows(raw)
  {
    var init := raw[..|raw| - 1];
    if i < |raw| - 1 {
      CleanRowsComplete(init, i);
    }
  }

  /** Every cleaned row comes from a raw row that has a country. */
  lemma {:induction false} CleanRowsSound(raw: seq<RawBand>, b: Band) returns (i: nat)
    requires b in CleanRows(raw)
    ensures i < |raw| && HasCountry(raw[i]) && b == CleanRow(raw[i])
  {
    var init := raw[..|raw| - 1];
    var last := raw[|raw| - 1];
    var tail := if HasCountry(last) then [CleanRow(last)] else [];
    assert CleanRows(raw) == CleanRows(init) + tail;
    if b in CleanRows(init) {
      i := CleanRowsSound(init, b);
    } else {
      assert b in tail;
      i := |raw| - 1;
    }
  }

  /**
   * Every cleaned row's country is stripped and its two genre columns are
   * derived from its own Genre cell.
   */
  lemma CleanRowDerived(raw: seq<RawBand>, b: Band)
    requires b in CleanRows(raw)
    ensures IsStripped(b.country) && b.primaryGenre == ExtractPrimaryGenre(b.genre)
      && b.category == MapToGenreCategory(b.primaryGenre)
  {
    var i := CleanRowsSound(raw, b);
  }

  /** The number of cleaned rows is the number of raw rows that have a country. */
  lemma {:induction false} CleanRowsCount(raw: seq<RawBand>)
    ensures |CleanRows(raw)| == |Filter(raw, HasCountry)|
  {
    if raw != [] {
      var init := raw[..|raw| - 1];
      CleanRowsCount(init);
      assert raw == init + [raw[|raw| - 1]];
    }
  }

  /**
   * The cleaned table row by row: its i-th row is the cleaned i-th raw row
   * that has a country, so each such row appears once and in its original
   * position relative to the others.
   */
  lemma {:induction false} CleanRowsIsFilterMap(raw: seq<RawBand>)
    ensures var kept := Filter(raw, HasCountry);
      |CleanRows(raw)| == |kept| &&
      forall i :: 0 <= i < |kept| ==> HasCountry(kept[i]) && CleanRows(raw)[i] == CleanRow(kept[i])
  {
    if raw != [] {
      var init := raw[..|raw| - 1];
      var last := raw[|raw| - 1];
      assert raw == init + [last];
      CleanRowsIsFilterMap(init);
      assert Filter(raw, HasCountry) == Filter(init, HasCountry) + (if HasCountry(last) then [last] else []);
      CleanRowsStep(Filter(init, HasCountry), CleanRows(init), last);
    }
  }

  /** One step of CleanRowsIsFilterMap, on the kept rows and the cleaned rows so far. */
  lemma CleanRowsStep(kept: seq<RawBand>, rows: seq<Band>, last: RawBand)
    requires |rows| == |kept|
    requires forall i :: 0 <= i < |kept| ==> HasCountry(kept[i]) && rows[i] == CleanRow(kept[i])
    ensures var kept' := kept + (if HasCountry(last) then [last] else []);
      var rows' := rows + (if HasCountry(last) then [CleanRow(last)] else []);
      |rows'| == |kept'| &&
      forall i :: 0 <= i < |kept'| ==> HasCountry(kept'[i]) && rows'[i] == CleanRow(kept'[i])
  {
  }

  /** Cleaning a table in which every row has a country keeps every row. */
  lemma CleanRowsKeepsComplete(raw: seq<RawBand>)
    requires forall i :: 0 <= i < |raw| ==> HasCountry(raw[i])
    ensures |CleanRows(raw)| == |raw|
  {
    CleanRowsCount(raw);
    FilterAll(raw);
  }

  lemma {:induction false} FilterAll(raw: seq<RawBand>)
    requires forall i :: 0 <= i < |raw| ==> HasCountry(raw[i])
    ensures Filter(raw, HasCountry) == raw
  {
    if raw != [] {
      var init := raw[..|raw| - 1];
      FilterAll(init);
      assert raw == init + [raw[|raw| - 1]];
    }
  }

  /**
   * load_and_clean_data without the CSV read (analysis.py:13-17): the rows
   * are visited in order and the cleaned ones collected.
   */
  method LoadAndClean(raw: seq<RawBand>) returns (df: seq<Band>)
    ensures df == CleanRows(raw)
  {
    df := [];
    var i := 0;
    while i < |raw|
      invariant 0 <= i <= |raw|
      invariant df == CleanRows(raw[..i])
    {
      CleanRowsPrefix(raw, i);
      if HasCountry(raw[i]) {
        df := df + [CleanRow(raw[i])];
      }
      i := i + 1;
    }
    assert raw[..|raw|] == raw;
  }

  lemma CleanRowsPrefix(raw: seq<RawBand>, i: nat)
    requires i < |raw|
    ensures CleanRows(raw[..i + 1])
      == CleanRows(raw[..i]) + (if HasCountry(raw[i]) then [CleanRow(raw[i])] else [])
  {
    assert raw[..i + 1][..i] == raw[..i];
  }

  // ---------------------------------------------------------------------------
  // Columns of the cleaned table

  function CountriesOf(df: seq<Band>): (cs: seq<string>)
    ensures |cs| == |df| && forall i :: 0 <= i < |df| ==> cs[i] == df[i].country
  {
    seq(|df|, i requires 0 <= i < |df| => df[i].country)
  }

  /** The Country column of a frame is that of all but its last row, then the last row's. */
  lemma CountriesOfSnoc(df: seq<Band>)
    requires df != []
    ensures CountriesOf(df) == CountriesOf(df[..|df| - 1]) + [df[|df| - 1].country]
  {
  }

  function CategoriesOf(df: seq<Band>): (cs: seq<Category>)
    ensures |cs| == |df| && forall i :: 0 <= i < |df| ==> cs[i] == df[i].category
  {
    seq(|df|, i requires 0 <= i < |df| => df[i].category)
  }

  /** df[df['Country'] == country]: the group of one country. */
  function FromCountry(df: seq<Band>, country: string): (g: seq<Band>)
    ensures forall b :: b in g <==> b in df && b.country == country
  {
    Filter(df, (b: Band) => b.country == country)
  }
}
