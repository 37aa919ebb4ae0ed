/**
 * get_genre_evolution (analysis.py:122-141): releases joined to their
 * band's genre category, bucketed by decade, kept for 1970 to 2020, and
 * counted per decade and category.
 */
module Evolution {
  import opened Wrappers
  import opened Text
  import opened Genre
  import opened Counting
  import opened Bands
  import opened Crosstab

  /**
   * A row of all_bands_discography.csv: the band it belongs to and its Year
   * as to_numeric(errors='coerce') leaves it; None for a value that is not
   * a number.
   */
  datatype Release = Release(bandId: int, year: Option<int>)

  /** The rows the inner merge produces for one release: one per band with its id. */
  function MatchesOf(r: Release, df: seq<Band>): (m: seq<(Option<int>, Category)>)
  {
    if df == [] then []
    else
      var last := df[|df| - 1];
      MatchesOf(r, df[..|df| - 1]) + (if last.id == r.bandId then [(r.year, last.category)] else [])
  }

  /** discography_df.merge(df[['Band ID', 'Genre_Category']], on='Band ID', how='inner') */
  function Merge(disco: seq<Release>, df: seq<Band>): (m: seq<(Option<int>, Category)>)
  {
    if disco == [] then []
    else Merge(disco[..|disco| - 1], df) + MatchesOf(disco[|disco| - 1], df)
  }

  /** Year // 10 * 10; Dafny's division by a positive number rounds down, like Python's //. */
  function Decade(y: int): (d: int)
    ensures d <= y < d + 10 && d % 10 == 0
  {
    (y / 10) * 10
  }

  /** Whether a merged row survives dropna and the decade filter of analysis.py:132-135. */
  predicate Survives(year: Option<int>)
  {
    year.Some? && 1970 <= Decade(year.value) <= 2020
  }

  /** The surviving rows as (Decade, Genre_Category), in merge order. */
  function Survivors(merged: seq<(Option<int>, Category)>): (s: seq<(int, Category)>)
    ensures |s| <= |merged|
    ensures forall e :: e in s ==> 1970 <= e.0 <= 2020 && e.0 % 10 == 0
  {
    if merged == [] then []
    else
      var last := merged[|merged| - 1];
      Survivors(merged[..|merged| - 1]) + (if Survives(last.0) then [(Decade(last.0.value), last.1)] else [])
  }

  /** The decades from d to 2020 that occur among the entries, ascending. */
  function DecadesFrom(entries: seq<(int, Category)>, d: int): (ds: seq<int>)
    requires d % 10 == 0
    ensures forall x :: x in ds <==> x in Keys(entries) && d <= x <= 2020 && x % 10 == 0
    ensures forall i :: 0 <= i < |ds| ==> d <= ds[i]
    ensures forall i, j :: 0 <= i < j < |ds| ==> ds[i] < ds[j]
    decreases 2030 - d
  {
    if d > 2020 then []
    else
      var rest := DecadesFrom(entries, d + 10);
      if d in Keys(entries) then [d] + rest else rest
  }

  /** The surviving (decade, category) entries of the merge. */
  function Entries(df: seq<Band>, disco: seq<Release>): seq<(int, Category)>
  {
    Survivors(Merge(disco, df))
  }

  /**
   * get_genre_evolution before the division into percentages: one row per
   * decade that has surviving releases, ascending, each a decade from 1970
   * to 2020; one column per category that occurs, in label order; each row
   * sums to the number of surviving releases of its decade, which is
   * positive, so the percentages of analysis.py:139 are defined.
   */
  function GetGenreEvolution(df: seq<Band>, disco: seq<Release>): (t: Table<int>)
    ensures forall i, j :: 0 <= i < j < |t.rows| ==> t.rows[i].key < t.rows[j].key
    ensures forall i :: 0 <= i < |t.rows| ==> 1970 <= t.rows[i].key <= 2020 && t.rows[i].key % 10 == 0
    ensures forall d :: d in RowKeys(t.rows) <==> d in Keys(Entries(df, disco))
    ensures forall c :: c in t.columns <==> c in Seconds(Entries(df, disco))
    ensures Distinct(t.columns)
    ensures forall i, j :: 0 <= i < j < |t.columns| ==> StrLt(Label(t.columns[i]), Label(t.columns[j]))
    ensures forall i :: 0 <= i < |t.rows| ==>
      Sum(t.rows[i].counts) == multiset(Keys(Entries(df, disco)))[t.rows[i].key] > 0
  {
    var entries := Entries(df, disco);
    var decades := DecadesFrom(entries, 1970);
    TableFacts(entries, decades);
    CountTable(entries, decades)
  }

  lemma TableFacts(entries: seq<(int, Category)>, decades: seq<int>)
    requires forall e :: e in entries ==> 1970 <= e.0 <= 2020 && e.0 % 10 == 0
    requires decades == DecadesFrom(entries, 1970)
    ensures forall d :: d in RowKeys(CountTable(entries, decades).rows) <==> d in Keys(entries)
    ensures forall i :: 0 <= i < |decades| ==>
      Sum(CountTable(entries, decades).rows[i].counts) == multiset(Keys(entries))[decades[i]] > 0
  {
    var t: Table<int> := CountTable(entries, decades);
    assert RowKeys(t.rows) == decades;
    forall d | d in Keys(entries) ensures d in decades {
      var i :| 0 <= i < |entries| && Keys(entries)[i] == d;
      assert entries[i] in entries;
    }
    forall i | 0 <= i < |decades|
      ensures Sum(t.rows[i].counts) == multiset(Keys(entries))[decades[i]] > 0
    {
      RowSum(entries, decades, i);
      assert decades[i] in Keys(entries);
    }
  }

  /** Each cell counts the surviving releases of that decade and category. */
  lemma EvolutionCell(df: seq<Band>, disco: seq<Release>, i: int, j: int)
    requires 0 <= i < |GetGenreEvolution(df, disco).rows|
    requires 0 <= j < |GetGenreEvolution(df, disco).columns|
    ensures var t := GetGenreEvolution(df, disco);
      t.rows[i].counts[j] == multiset(Entries(df, disco))[(t.rows[i].key, t.columns[j])]
  {
  }

  // ---------------------------------------------------------------------------
  // What is dropped

  /** A release whose band id matches no band adds no merged row. */
  lemma {:induction false} UnmatchedAddsNothing(r: Release, df: seq<Band>)
    requires forall j :: 0 <= j < |df| ==> df[j].id != r.bandId
    ensures MatchesOf(r, df) == []
  {
    if df != [] {
      UnmatchedAddsNothing(r, df[..|df| - 1]);
    }
  }

  /** A merged row whose year is missing or outside 1970-2029 does not survive. */
  lemma {:induction false} DroppedRowAddsNothing(merged: seq<(Option<int>, Category)>, extra: seq<(Option<int>, Category)>)
    requires forall k :: 0 <= k < |extra| ==> !Survives(extra[k].0)
    ensures Survivors(merged + extra) == Survivors(merged)
    decreases |extra|
  {
    if extra != [] {
      var init := extra[..|extra| - 1];
      var all := merged + extra;
      assert all[..|all| - 1] == merged + init;
      assert all[|all| - 1] == extra[|extra| - 1];
      assert !Survives(extra[|extra| - 1].0);
      assert Survivors(all) == Survivors(merged + init);
      DroppedRowAddsNothing(merged, init);
    } else {
      assert merged + extra == merged;
    }
  }

  /** Every merged row of a release carries that release's year. */
  lemma {:induction false} MatchesCarryYear(r: Release, df: seq<Band>, k: int)
    requires 0 <= k < |MatchesOf(r, df)|
    ensures MatchesOf(r, df)[k].0 == r.year
  {
    var init := df[..|df| - 1];
    if k < |MatchesOf(r, init)| {
      MatchesCarryYear(r, init, k);
    }
  }

  /**
   * A release with no matching band, a non-numeric year, or a decade
   * outside 1970..2020 leaves the evolution table as it was.
   */
  lemma DroppedReleaseIgnored(df: seq<Band>, disco: seq<Release>, r: Release)
    requires (forall j :: 0 <= j < |df| ==> df[j].id != r.bandId) || !Survives(r.year)
    ensures GetGenreEvolution(df, disco + [r]) == GetGenreEvolution(df, disco)
  {
    var extra := MatchesOf(r, df);
    assert (disco + [r])[..|disco|] == disco;
    assert Merge(disco + [r], df) == Merge(disco, df) + extra;
    if forall j :: 0 <= j < |df| ==> df[j].id != r.bandId {
      UnmatchedAddsNothing(r, df);
      assert Merge(disco, df) + extra == Merge(disco, df);
    } else {
      forall k | 0 <= k < |extra| ensures !Survives(extra[k].0) {
        MatchesCarryYear(r, df, k);
      }
      DroppedRowAddsNothing(Merge(disco, df), extra);
    }
  }

  /** Every surviving entry comes from a release joined to a band with the same id. */
  lemma {:induction false} SurvivorOrigin(df: seq<Band>, disco: seq<Release>, e: (int, Category)) returns (i: nat, j: nat)
    requires e in Entries(df, disco)
    ensures i < |disco| && j < |df| && disco[i].bandId == df[j].id
    ensures disco[i].year.Some? && e == (Decade(disco[i].year.value), df[j].category)
  {
    var m := Merge(disco, df);
    var k := SurvivorSource(m, e);
    i, j := MergeSource(disco, df, k);
  }

  lemma {:induction false} SurvivorSource(merged: seq<(Option<int>, Category)>, e: (int, Category)) returns (k: nat)
    requires e in Survivors(merged)
    ensures k < |merged| && merged[k].0.Some? && e == (Decade(merged[k].0.value), merged[k].1)
  {
    var init := merged[..|merged| - 1];
    if e in Survivors(init) {
      k := SurvivorSource(init, e);
    } else {
      k := |merged| - 1;
    }
  }

  lemma {:induction false} MergeSource(disco: seq<Release>, df: seq<Band>, k: nat) returns (i: nat, j: nat)
    requires k < |Merge(disco, df)|
    ensures i < |disco| && j < |df| && disco[i].bandId == df[j].id
    ensures Merge(disco, df)[k] == (disco[i].year, df[j].category)
  {
    var init := disco[..|disco| - 1];
    var prev := Merge(init, df);
    if k < |prev| {
      i, j := MergeSource(init, df, k);
    } else {
      i := |disco| - 1;
      j := MatchSource(disco[i], df, k - |prev|);
    }
  }

  lemma {:induction false} MatchSource(r: Release, df: seq<Band>, k: nat) returns (j: nat)
    requires k < |MatchesOf(r, df)|
    ensures j < |df| && df[j].id == r.bandId && MatchesOf(r, df)[k] == (r.year, df[j].category)
  {
    var init := df[..|df| - 1];
    if k < |MatchesOf(r, init)| {
      j := MatchSource(r, init, k);
    } else {
      j := |df| - 1;
    }
  }

  // ---------------------------------------------------------------------------
  // What is kept: the join counts every matching pair

  /** The (Band ID, Genre_Category) pairs of the cleaned table. */
  function IdCategories(df: seq<Band>): (ps: seq<(int, Category)>)
    ensures |ps| == |df| && forall j :: 0 <= j < |df| ==> ps[j] == (df[j].id, df[j].category)
  {
    seq(|df|, j requires 0 <= j < |df| => (df[j].id, df[j].category))
  }

  lemma IdCategoriesSnoc(df: seq<Band>)
    requires df != []
    ensures IdCategories(df) == IdCategories(df[..|df| - 1]) + [(df[|df| - 1].id, df[|df| - 1].category)]
  {
  }

  /**
   * The number of (release, band) pairs the join and the filters turn into
   * entry e: for each release whose year survives and falls in e's decade,
   * the number of bands with its id and e's category.
   */
  function JoinCount(disco: seq<Release>, df: seq<Band>, e: (int, Category)): nat
  {
    if disco == [] then 0
    else
      var r := disco[|disco| - 1];
      JoinCount(disco[..|disco| - 1], df, e)
        + (if Survives(r.year) && Decade(r.year.value) == e.0 then multiset(IdCategories(df))[(r.bandId, e.1)] else 0)
  }

  lemma {:induction false} SurvivorsAppend(a: seq<(Option<int>, Category)>, b: seq<(Option<int>, Category)>)
    ensures Survivors(a + b) == Survivors(a) + Survivors(b)
    decreases |b|
  {
    if b == [] {
      assert a + b == a;
    } else {
      var init := b[..|b| - 1];
      var last := b[|b| - 1];
      var all := a + b;
      assert all[..|all| - 1] == a + init;
      assert all[|all| - 1] == last;
      var tail := if Survives(last.0) then [(Decade(last.0.value), last.1)] else [];
      assert Survivors(all) == Survivors(a + init) + tail;
      assert Survivors(b) == Survivors(init) + tail;
      SurvivorsAppend(a, init);
    }
  }

  /** The entries one release contributes: one per band with its id, when its year survives. */
  lemma {:induction false} MatchesCount(r: Release, df: seq<Band>, e: (int, Category))
    ensures multiset(Survivors(MatchesOf(r, df)))[e]
      == if Survives(r.year) && Decade(r.year.value) == e.0 then multiset(IdCategories(df))[(r.bandId, e.1)] else 0
  {
    if df != [] {
      var init := df[..|df| - 1];
      var last := df[|df| - 1];
      MatchesCount(r, init, e);
      var tail := if last.id == r.bandId then [(r.year, last.category)] else [];
      assert MatchesOf(r, df) == MatchesOf(r, init) + tail;
      SurvivorsAppend(MatchesOf(r, init), tail);
      var kept := Survivors(tail);
      MatchKept(r, last, tail, kept);
      IdCategoriesSnoc(df);
      var m0 := multiset(Survivors(MatchesOf(r, init)));
      var ids0 := multiset(IdCategories(init));
      assert multiset(Survivors(MatchesOf(r, df))) == m0 + multiset(kept);
      assert multiset(IdCategories(df)) == ids0 + multiset{(last.id, last.category)};
      CountStep(m0, ids0, r, last, e, kept);
    }
  }

  lemma MatchKept(r: Release, last: Band, tail: seq<(Option<int>, Category)>, kept: seq<(int, Category)>)
    requires tail == if last.id == r.bandId then [(r.year, last.category)] else []
    requires kept == Survivors(tail)
    ensures kept == if last.id == r.bandId && Survives(r.year) then [(Decade(r.year.value), last.category)] else []
  {
    if tail != [] {
      assert tail[..0] == [];
    }
  }

  lemma CountStep(m: multiset<(int, Category)>, ids: multiset<(int, Category)>, r: Release, last: Band,
                  e: (int, Category), kept: seq<(int, Category)>)
    requires m[e] == if Survives(r.year) && Decade(r.year.value) == e.0 then ids[(r.bandId, e.1)] else 0
    requires kept == if last.id == r.bandId && Survives(r.year) then [(Decade(r.year.value), last.category)] else []
    ensures (m + multiset(kept))[e]
      == if Survives(r.year) && Decade(r.year.value) == e.0 then (ids + multiset{(last.id, last.category)})[(r.bandId, e.1)] else 0
  {
  }

  /**
   * Each (decade, category) entry occurs as often as there are pairs of a
   * release and a band with the same id, the release's year surviving in
   * that decade and the band having that category.
   */
  lemma {:induction false} EntriesCount(df: seq<Band>, disco: seq<Release>, e: (int, Category))
    ensures multiset(Entries(df, disco))[e] == JoinCount(disco, df, e)
  {
    if disco != [] {
      var init := disco[..|disco| - 1];
      var r := disco[|disco| - 1];
      EntriesCount(df, init, e);
      SurvivorsAppend(Merge(init, df), MatchesOf(r, df));
      MatchesCount(r, df, e);
    }
  }

  lemma {:induction false} JoinCountPositive(disco: seq<Release>, df: seq<Band>, e: (int, Category), i: int)
    requires 0 <= i < |disco| && Survives(disco[i].year) && Decade(disco[i].year.value) == e.0
    requires multiset(IdCategories(df))[(disco[i].bandId, e.1)] > 0
    ensures JoinCount(disco, df, e) > 0
  {
    var init := disco[..|disco| - 1];
    if i < |disco| - 1 {
      JoinCountPositive(init, df, e, i);
    }
  }

  /** A release joined to a band, whose year survives, gives its entry. */
  lemma MatchedReleaseKept(df: seq<Band>, disco: seq<Release>, i: int, j: int)
    requires 0 <= i < |disco| && 0 <= j < |df| && disco[i].bandId == df[j].id && Survives(disco[i].year)
    ensures (Decade(disco[i].year.value), df[j].category) in Entries(df, disco)
  {
    var e := (Decade(disco[i].year.value), df[j].category);
    assert IdCategories(df)[j] == (disco[i].bandId, e.1);
    JoinCountPositive(disco, df, e, i);
    EntriesCount(df, disco, e);
  }
}
