/**
 * analyze_by_country (analysis.py:63-75): one row per country with its
 * band count and its dominant genre category, most bands first.
 */
module Countries {
  import opened Wrappers
  import opened Text
  import opened Genre
  import opened Counting
  import opened Bands

  // ---------------------------------------------------------------------------
  // Series.mode().iloc[0]

  /** The largest count, in cats, of a category in Alphabetical[i..]. */
  function MaxCountFrom(cats: seq<Category>, i: nat): (m: nat)
    requires i <= |Alphabetical|
    ensures forall j :: i <= j < |Alphabetical| ==> multiset(cats)[Alphabetical[j]] <= m
    ensures i < |Alphabetical| ==> exists j :: i <= j < |Alphabetical| && multiset(cats)[Alphabetical[j]] == m
    decreases |Alphabetical| - i
  {
    if i == |Alphabetical| then 0
    else
      var rest := MaxCountFrom(cats, i + 1);
      var here := multiset(cats)[Alphabetical[i]];
      if here >= rest then here else rest
  }

  /** The first position at or after i whose category occurs m times, or the end. */
  function FirstWithCount(cats: seq<Category>, m: nat, i: nat): (k: nat)
    requires i <= |Alphabetical|
    ensures i <= k <= |Alphabetical|
    ensures forall j :: i <= j < k ==> multiset(cats)[Alphabetical[j]] != m
    ensures k < |Alphabetical| ==> multiset(cats)[Alphabetical[k]] == m
    decreases |Alphabetical| - i
  {
    if i == |Alphabetical| || multiset(cats)[Alphabetical[i]] == m then i
    else FirstWithCount(cats, m, i + 1)
  }

  /**
   * The mode of a non-empty column of categories. pandas returns the modes
   * sorted, so of several equally frequent categories the one whose label
   * comes first in code-point order is taken.
   */
  function Mode(cats: seq<Category>): (r: Category)
    requires |cats| > 0
    ensures r in cats
    ensures forall c :: multiset(cats)[c] <= multiset(cats)[r]
    ensures forall c :: c != r && multiset(cats)[c] == multiset(cats)[r] ==> StrLt(Label(r), Label(c))
  {
    var m := MaxCountFrom(cats, 0);
    var k := FirstWithCount(cats, m, 0);
    ModeFacts(cats, m, k);
    Alphabetical[k]
  }

  lemma ModeFacts(cats: seq<Category>, m: nat, k: nat)
    requires |cats| > 0
    requires m == MaxCountFrom(cats, 0) && k == FirstWithCount(cats, m, 0)
    ensures k < |Alphabetical|
    ensures Alphabetical[k] in cats
    ensures forall c :: multiset(cats)[c] <= multiset(cats)[Alphabetical[k]]
    ensures forall c ::
              c != Alphabetical[k] && multiset(cats)[c] == multiset(cats)[Alphabetical[k]]
              ==> StrLt(Label(Alphabetical[k]), Label(c))
  {
    var j0 :| 0 <= j0 < |Alphabetical| && multiset(cats)[Alphabetical[j0]] == m;
    assert k <= j0;
    var p0 := AlphabeticalPos(cats[0]);
    assert multiset(cats)[cats[0]] > 0;
    forall c ensures multiset(cats)[c] <= m {
      var p := AlphabeticalPos(c);
    }
    forall c | c != Alphabetical[k] && multiset(cats)[c] == m
      ensures StrLt(Label(Alphabetical[k]), Label(c))
    {
      ModeTie(cats, m, k, c);
    }
  }

  lemma ModeTie(cats: seq<Category>, m: nat, k: nat, c: Category)
    requires k < |Alphabetical| && k == FirstWithCount(cats, m, 0)
    requires c != Alphabetical[k] && multiset(cats)[c] == m
    ensures StrLt(Label(Alphabetical[k]), Label(c))
  {
    var j := AlphabeticalPos(c);
    assert !(j < k);
    AlphabeticalSorted(k, j);
  }

  /**
   * The Dominant_Genre aggregation at analysis.py:67; None stands for the
   * 'Unknown' of its else branch.
   */
  function DominantGenre(cats: seq<Category>): (r: Option<Category>)
    ensures r.None? <==> |cats| == 0
    ensures r.Some? ==> r.value in cats && forall c :: multiset(cats)[c] <= multiset(cats)[r.value]
  {
    if |cats| > 0 then Some(Mode(cats)) else None
  }

  // ---------------------------------------------------------------------------
  // The per-country table

  /** A row of country_stats; the Percentage column is left out. */
  datatype CountryStat = CountryStat(country: string, bandCount: nat, dominantGenre: Option<Category>)

  /** The Genre_Category column of one country's group. */
  function CategoriesIn(df: seq<Band>, country: string): seq<Category>
  {
    CategoriesOf(FromCountry(df, country))
  }

  function Names(stats: seq<CountryStat>): (ns: seq<string>)
    ensures |ns| == |stats| && forall i :: 0 <= i < |stats| ==> ns[i] == stats[i].country
  {
    seq(|stats|, i requires 0 <= i < |stats| => stats[i].country)
  }

  function BandCounts(stats: seq<CountryStat>): (ns: seq<nat>)
    ensures |ns| == |stats| && forall i :: 0 <= i < |stats| ==> ns[i] == stats[i].bandCount
  {
    seq(|stats|, i requires 0 <= i < |stats| => stats[i].bandCount)
  }

  /**
   * analyze_by_country: one row per distinct country, its Band_Count the
   * number of bands from it, rows sorted by non-increasing count. Among
   * equal counts pandas' (unstable) sort fixes no order, and this model
   * claims none.
   */
  function AnalyzeByCountry(df: seq<Band>): (r: seq<CountryStat>)
    ensures forall i, j :: 0 <= i < j < |r| ==> r[i].bandCount >= r[j].bandCount
    ensures forall i :: 0 <= i < |r| ==> r[i].bandCount == multiset(CountriesOf(df))[r[i].country] > 0
    ensures forall c :: c in CountriesOf(df) <==> c in Names(r)
    ensures Distinct(Names(r))
    ensures Sum(BandCounts(r)) == |df|
  {
    var vc := ValueCounts(CountriesOf(df));
    var r := StatsOf(df, vc);
    CountryTableFacts(df, vc, r);
    r
  }

  /** One row per pair of value_counts(), its genre from that country's group. */
  function StatsOf(df: seq<Band>, vc: seq<(string, nat)>): (r: seq<CountryStat>)
    ensures |r| == |vc|
    ensures forall i :: 0 <= i < |vc| ==>
      r[i] == CountryStat(vc[i].0, vc[i].1, DominantGenre(CategoriesIn(df, vc[i].0)))
  {
    seq(|vc|, i requires 0 <= i < |vc| =>
      CountryStat(vc[i].0, vc[i].1, DominantGenre(CategoriesIn(df, vc[i].0))))
  }

  lemma CountryTableFacts(df: seq<Band>, vc: seq<(string, nat)>, r: seq<CountryStat>)
    requires vc == ValueCounts(CountriesOf(df))
    requires r == StatsOf(df, vc)
    ensures forall i, j :: 0 <= i < j < |r| ==> r[i].bandCount >= r[j].bandCount
    ensures forall i :: 0 <= i < |r| ==> r[i].bandCount == multiset(CountriesOf(df))[r[i].country] > 0
    ensures forall c :: c in CountriesOf(df) <==> c in Names(r)
    ensures Distinct(Names(r))
    ensures Sum(BandCounts(r)) == |df|
  {
    assert Names(r) == Keys(vc);
    assert BandCounts(r) == Seconds(vc);
    forall i, j | 0 <= i < j < |r| ensures r[i].bandCount >= r[j].bandCount {
      assert Second(vc[i]) >= Second(vc[j]);
    }
  }

  /** A country that has bands has a non-empty group. */
  lemma GroupNotEmpty(df: seq<Band>, country: string)
    requires country in CountriesOf(df)
    ensures |CategoriesIn(df, country)| > 0
  {
    var i :| 0 <= i < |df| && CountriesOf(df)[i] == country;
    assert df[i] in FromCountry(df, country);
  }

  /**
   * Dominant_Genre is a category of that country's bands, as frequent among
   * them as any other, and the alphabetically first of the most frequent.
   */
  lemma DominantGenreIsMode(df: seq<Band>, i: int)
    requires 0 <= i < |AnalyzeByCountry(df)|
    ensures var s := AnalyzeByCountry(df)[i];
      var cats := CategoriesIn(df, s.country);
      s.dominantGenre.Some? && s.dominantGenre.value in cats
      && (forall c :: multiset(cats)[c] <= multiset(cats)[s.dominantGenre.value])
      && (forall c :: c != s.dominantGenre.value && multiset(cats)[c] == multiset(cats)[s.dominantGenre.value]
            ==> StrLt(Label(s.dominantGenre.value), Label(c)))
  {
    var s := AnalyzeByCountry(df)[i];
    assert s.country in Names(AnalyzeByCountry(df));
    GroupNotEmpty(df, s.country);
  }

  /** The first row belongs to a country with the most bands. */
  lemma TopCountryHasMostBands(df: seq<Band>, country: string)
    requires |df| > 0
    ensures |AnalyzeByCountry(df)| > 0
    ensures multiset(CountriesOf(df))[country] <= AnalyzeByCountry(df)[0].bandCount
  {
    var r := AnalyzeByCountry(df);
    assert CountriesOf(df)[0] in Names(r);
    if country in CountriesOf(df) {
      assert country in Names(r);
      var j :| 0 <= j < |r| && Names(r)[j] == country;
      assert j == 0 || r[0].bandCount >= r[j].bandCount;
    }
  }
}
