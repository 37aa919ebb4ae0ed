/**
 * analyze_spotify_data (analysis.py:218-258): the most popular artists,
 * a placeholder "top track" for each of the ten most popular, listener
 * figures per popularity tier, and per-genre aggregates.
 */
module Spotify {
  import opened Wrappers
  import opened Text
  import opened Counting

  /** A row of heavy_bands_spotify.csv. */
  datatype Artist = Artist(artist: string, genre: string, subgenre: string, popularity: int, monthlyListeners: nat)

  function Popularity(a: Artist): int
  {
    a.popularity
  }

  // ---------------------------------------------------------------------------
  // Popularity tiers: pd.cut(bins=[0, 45, 55, 65, 100])

  datatype Tier = Underground | Cult | Mainstream | TopTier

  function TierLabel(t: Tier): string
  {
    match t
    case Underground => "Underground"
    case Cult => "Cult"
    case Mainstream => "Mainstream"
    case TopTier => "Top Tier"
  }

  const TierEdges: seq<int> := [0, 45, 55, 65, 100]

  /** The labels of pd.cut, bin by bin. */
  function TierAt(k: nat): Tier
    requires k < 4
  {
    if k == 0 then Underground
    else if k == 1 then Cult
    else if k == 2 then Mainstream
    else TopTier
  }

  /**
   * The bin, at or after bin `from`, holding x, where bin k is the
   * right-closed interval (edges[k], edges[k + 1]]; None when no bin does.
   */
  function CutFrom(x: int, edges: seq<int>, from: nat): (r: Option<nat>)
    ensures r.Some? ==> from <= r.value && r.value + 1 < |edges| && edges[r.value] < x <= edges[r.value + 1]
    ensures r.None? ==> forall k :: from <= k && k + 1 < |edges| ==> !(edges[k] < x <= edges[k + 1])
    decreases |edges| - from
  {
    if from + 1 >= |edges| then None
    else if edges[from] < x <= edges[from + 1] then Some(from)
    else CutFrom(x, edges, from + 1)
  }

  /** The Popularity_Tier of one popularity; None is the NaN pd.cut gives outside the bins. */
  function PopularityTier(p: int): (t: Option<Tier>)
    ensures t.None? <==> p <= 0 || 100 < p
  {
    match CutFrom(p, TierEdges, 0)
    case None => None
    case Some(k) => Some(TierAt(k))
  }

  /** The tiers are the four right-closed intervals, and nothing outside (0, 100] has one. */
  lemma TierIntervals(p: int)
    ensures PopularityTier(p) == Some(Underground) <==> 0 < p <= 45
    ensures PopularityTier(p) == Some(Cult) <==> 45 < p <= 55
    ensures PopularityTier(p) == Some(Mainstream) <==> 55 < p <= 65
    ensures PopularityTier(p) == Some(TopTier) <==> 65 < p <= 100
    ensures PopularityTier(p).None? <==> p <= 0 || 100 < p
  {
    var r := CutFrom(p, TierEdges, 0);
    if r.None? {
      assert !(TierEdges[0] < p <= TierEdges[1]);
      assert !(TierEdges[1] < p <= TierEdges[2]);
      assert !(TierEdges[2] < p <= TierEdges[3]);
      assert !(TierEdges[3] < p <= TierEdges[4]);
    }
  }

  /** The Popularity_Tier column. */
  function TierColumnOf(spotify: seq<Artist>): (column: seq<Option<Tier>>)
    ensures |column| == |spotify|
    ensures forall i :: 0 <= i < |spotify| ==> column[i] == PopularityTier(spotify[i].popularity)
  {
    seq(|spotify|, i requires 0 <= i < |spotify| => PopularityTier(spotify[i].popularity))
  }

  function TierPos(t: Tier): (k: nat)
    ensures k < 4 && TierAt(k) == t
  {
    match t
    case Underground => 0
    case Cult => 1
    case Mainstream => 2
    case TopTier => 3
  }

  /** The artists whose cell in the tier column is t, in order. */
  function TierMembers(spotify: seq<Artist>, column: seq<Option<Tier>>, t: Tier): (m: seq<Artist>)
    requires |column| == |spotify|
    ensures |m| == multiset(column)[Some(t)]
  {
    if spotify == [] then []
    else
      var n := |spotify| - 1;
      assert column == column[..n] + [column[n]];
      TierMembers(spotify[..n], column[..n], t) + (if column[n] == Some(t) then [spotify[n]] else [])
  }

  function ListenerSum(artists: seq<Artist>): nat
  {
    if artists == [] then 0
    else ListenerSum(artists[..|artists| - 1]) + artists[|artists| - 1].monthlyListeners
  }

  function PopularitySum(artists: seq<Artist>): int
  {
    if artists == [] then 0
    else PopularitySum(artists[..|artists| - 1]) + artists[|artists| - 1].popularity
  }

  /**
   * A row of tier_stats: the tier, its number of artists and their total
   * monthly listeners; Avg_Listeners is the rounded quotient of the two.
   */
  datatype TierStat = TierStat(tier: Tier, bands: nat, listeners: nat)

  function TiersOf(stats: seq<TierStat>): (ts: seq<Tier>)
    ensures |ts| == |stats| && forall i :: 0 <= i < |stats| ==> ts[i] == stats[i].tier
  {
    seq(|stats|, i requires 0 <= i < |stats| => stats[i].tier)
  }

  /** The rows of tier_stats for the tiers from position k on. */
  function TierStatsFrom(spotify: seq<Artist>, column: seq<Option<Tier>>, k: nat): (r: seq<TierStat>)
    requires |column| == |spotify| && k <= 4
    ensures TierRowsFrom(column, k, r)
    ensures forall i :: 0 <= i < |r| ==> ListenersOfGroup(spotify, column, r[i])
    decreases 4 - k
  {
    if k == 4 then []
    else
      var members := TierMembers(spotify, column, TierAt(k));
      var rest := TierStatsFrom(spotify, column, k + 1);
      var head := if |members| > 0 then [TierStat(TierAt(k), |members|, ListenerSum(members))] else [];
      assert Some(TierAt(k)) in column <==> Some(TierAt(k)) in multiset(column);
      TierStatsStep(column, k, head, rest);
      head + rest
  }

  /** A tier_stats row's listener total is that of its tier's group. */
  predicate ListenersOfGroup(spotify: seq<Artist>, column: seq<Option<Tier>>, row: TierStat)
    requires |column| == |spotify|
  {
    row.listeners == ListenerSum(TierMembers(spotify, column, row.tier))
  }

  /**
   * The rows for the tiers from position k on: in tier order, one for
   * each such tier that occurs in the column, each counting its cells.
   */
  predicate TierRowsFrom(column: seq<Option<Tier>>, k: nat, r: seq<TierStat>)
  {
    && (forall i :: 0 <= i < |r| ==> k <= TierPos(r[i].tier))
    && (forall i, j :: 0 <= i < j < |r| ==> TierPos(r[i].tier) < TierPos(r[j].tier))
    && (forall t :: t in TiersOf(r) <==> Some(t) in column && k <= TierPos(t))
    && (forall i :: 0 <= i < |r| ==> r[i].bands == multiset(column)[Some(r[i].tier)] > 0)
  }

  lemma TierStatsStep(column: seq<Option<Tier>>, k: nat, head: seq<TierStat>, rest: seq<TierStat>)
    requires k < 4 && TierRowsFrom(column, k + 1, rest)
    requires |head| <= 1 && (|head| == 1 <==> Some(TierAt(k)) in column)
    requires |head| == 1 ==> head[0].tier == TierAt(k) && head[0].bands == multiset(column)[Some(TierAt(k))]
    ensures TierRowsFrom(column, k, head + rest)
  {
    var r := head + rest;
    StepTiers(column, k, head, rest);
    StepOrder(k, head, rest);
    forall i | 0 <= i < |r| ensures k <= TierPos(r[i].tier) && r[i].bands == multiset(column)[Some(r[i].tier)] > 0 {
      if i >= |head| {
        assert r[i] == rest[i - |head|];
      }
    }
  }

  lemma StepTiers(column: seq<Option<Tier>>, k: nat, head: seq<TierStat>, rest: seq<TierStat>)
    requires k < 4 && forall t :: t in TiersOf(rest) <==> Some(t) in column && k + 1 <= TierPos(t)
    requires |head| <= 1 && (|head| == 1 <==> Some(TierAt(k)) in column)
    requires |head| == 1 ==> head[0].tier == TierAt(k)
    ensures forall t :: t in TiersOf(head + rest) <==> Some(t) in column && k <= TierPos(t)
  {
    assert TiersOf(head + rest) == TiersOf(head) + TiersOf(rest);
    forall t ensures t in TiersOf(head + rest) <==> Some(t) in column && k <= TierPos(t) {
      if TierPos(t) == k {
        assert t == TierAt(k);
        assert t !in TiersOf(rest);
      }
    }
  }

  lemma StepOrder(k: nat, head: seq<TierStat>, rest: seq<TierStat>)
    requires forall i :: 0 <= i < |rest| ==> k + 1 <= TierPos(rest[i].tier)
    requires forall i, j :: 0 <= i < j < |rest| ==> TierPos(rest[i].tier) < TierPos(rest[j].tier)
    requires |head| <= 1 && (|head| == 1 ==> TierPos(head[0].tier) == k)
    ensures forall i, j :: 0 <= i < j < |head + rest| ==> TierPos((head + rest)[i].tier) < TierPos((head + rest)[j].tier)
  {
    var r := head + rest;
    forall i, j | 0 <= i < j < |r| ensures TierPos(r[i].tier) < TierPos(r[j].tier) {
      assert r[j] == rest[j - |head|];
      if i >= |head| {
        assert r[i] == rest[i - |head|];
      }
    }
  }

  /**
   * groupby('Popularity_Tier', observed=True): one row per tier that some
   * artist falls into, in tier order; artists outside every bin are in none.
   */
  function TierStats(spotify: seq<Artist>, column: seq<Option<Tier>>): (r: seq<TierStat>)
    requires |column| == |spotify|
    ensures forall i, j :: 0 <= i < j < |r| ==> TierPos(r[i].tier) < TierPos(r[j].tier)
    ensures forall t :: t in TiersOf(r) <==> Some(t) in column
    ensures forall i :: 0 <= i < |r| ==>
      r[i].bands == multiset(column)[Some(r[i].tier)] > 0
      && r[i].listeners == ListenerSum(TierMembers(spotify, column, r[i].tier))
  {
    TierStatsFrom(spotify, column, 0)
  }

  /** An artist is counted under tier t exactly when its popularity lies in t's interval. */
  lemma TierMembership(spotify: seq<Artist>, t: Tier, a: Artist)
    ensures a in TierMembers(spotify, TierColumnOf(spotify), t) <==> a in spotify && PopularityTier(a.popularity) == Some(t)
  {
    var column := TierColumnOf(spotify);
    if a in TierMembers(spotify, column, t) {
      var i := MemberSound(spotify, column, t, a);
    }
    if a in spotify && PopularityTier(a.popularity) == Some(t) {
      var i :| 0 <= i < |spotify| && spotify[i] == a;
      MemberComplete(spotify, column, t, i);
    }
  }

  lemma {:induction false} MemberSound(spotify: seq<Artist>, column: seq<Option<Tier>>, t: Tier, a: Artist) returns (i: nat)
    requires |column| == |spotify| && a in TierMembers(spotify, column, t)
    ensures i < |spotify| && spotify[i] == a && column[i] == Some(t)
  {
    var n := |spotify| - 1;
    var prev := TierMembers(spotify[..n], column[..n], t);
    if a in prev {
      i := MemberSound(spotify[..n], column[..n], t, a);
    } else {
      i := n;
    }
  }

  lemma {:induction false} MemberComplete(spotify: seq<Artist>, column: seq<Option<Tier>>, t: Tier, i: nat)
    requires |column| == |spotify| && i < |spotify| && column[i] == Some(t)
    ensures spotify[i] in TierMembers(spotify, column, t)
  {
    var n := |spotify| - 1;
    if i < n {
      MemberComplete(spotify[..n], column[..n], t, i);
    }
  }

  /** A tier has a row exactly when some artist's popularity falls into it. */
  lemma TierListedIff(spotify: seq<Artist>, t: Tier)
    ensures t in TiersOf(TierStats(spotify, TierColumnOf(spotify)))
      <==> exists i :: 0 <= i < |spotify| && PopularityTier(spotify[i].popularity) == Some(t)
  {
    var column := TierColumnOf(spotify);
    var r := TierStats(spotify, column);
    assert TierRowsFrom(column, 0, r);
    assert t in TiersOf(r) <==> Some(t) in column;
    InColumnIff(spotify, t);
  }

  lemma InColumnIff(spotify: seq<Artist>, t: Tier)
    ensures Some(t) in TierColumnOf(spotify)
      <==> exists i :: 0 <= i < |spotify| && PopularityTier(spotify[i].popularity) == Some(t)
  {
    var column := TierColumnOf(spotify);
    if Some(t) in column {
      var i :| 0 <= i < |column| && column[i] == Some(t);
      assert PopularityTier(spotify[i].popularity) == Some(t);
    }
  }

  // ---------------------------------------------------------------------------
  // groupby('Genre')

  /**
   * A row of genre_breakdown: the genre, its Band_Count and the sums of
   * Popularity and Monthly_Listeners over its artists; the mean popularity
   * is the first sum divided by the count.
   */
  datatype GenreStat = GenreStat(genre: string, bandCount: nat, popularitySum: int, listenerSum: nat)

  /** The Genre column. */
  function GenresOf(spotify: seq<Artist>): (gs: seq<string>)
    ensures |gs| == |spotify| && forall i :: 0 <= i < |spotify| ==> gs[i] == spotify[i].genre
  {
    seq(|spotify|, i requires 0 <= i < |spotify| => spotify[i].genre)
  }

  lemma GenresOfSnoc(spotify: seq<Artist>)
    requires spotify != []
    ensures GenresOf(spotify) == GenresOf(spotify[..|spotify| - 1]) + [spotify[|spotify| - 1].genre]
  {
  }

  function FromGenre(spotify: seq<Artist>, g: string): seq<Artist>
  {
    Filter(spotify, (a: Artist) => a.genre == g)
  }

  function GenreNames(stats: seq<GenreStat>): (gs: seq<string>)
    ensures |gs| == |stats| && forall i :: 0 <= i < |stats| ==> gs[i] == stats[i].genre
  {
    seq(|stats|, i requires 0 <= i < |stats| => stats[i].genre)
  }

  function GenreCounts(stats: seq<GenreStat>): (ns: seq<nat>)
    ensures |ns| == |stats| && forall i :: 0 <= i < |stats| ==> ns[i] == stats[i].bandCount
  {
    seq(|stats|, i requires 0 <= i < |stats| => stats[i].bandCount)
  }

  function GenreStatOf(spotify: seq<Artist>, g: string): GenreStat
  {
    var own := FromGenre(spotify, g);
    GenreStat(g, |own|, PopularitySum(own), ListenerSum(own))
  }

  /**
   * genre_breakdown: one row per genre, genres ascending; each row counts
   * and sums over the artists of that genre, and the counts add up to the
   * number of artists.
   */
  function GenreBreakdown(spotify: seq<Artist>): (r: seq<GenreStat>)
    ensures forall i, j :: 0 <= i < j < |r| ==> StrLt(r[i].genre, r[j].genre)
    ensures forall g :: g in GenreNames(r) <==> g in GenresOf(spotify)
    ensures forall i :: 0 <= i < |r| ==> r[i].bandCount == multiset(GenresOf(spotify))[r[i].genre] > 0
    ensures Sum(GenreCounts(r)) == |spotify|
    ensures forall i :: 0 <= i < |r| ==>
      r[i].popularitySum == PopularitySum(FromGenre(spotify, r[i].genre))
      && r[i].listenerSum == ListenerSum(FromGenre(spotify, r[i].genre))
  {
    var gs := SortStrings(Dedup(GenresOf(spotify)));
    var r := seq(|gs|, i requires 0 <= i < |gs| => GenreStatOf(spotify, gs[i]));
    BreakdownFacts(spotify, gs, r);
    r
  }

  lemma BreakdownFacts(spotify: seq<Artist>, gs: seq<string>, r: seq<GenreStat>)
    requires gs == SortStrings(Dedup(GenresOf(spotify)))
    requires |r| == |gs| && forall i :: 0 <= i < |gs| ==> r[i] == GenreStatOf(spotify, gs[i])
    ensures forall i, j :: 0 <= i < j < |r| ==> StrLt(r[i].genre, r[j].genre)
    ensures forall g :: g in GenreNames(r) <==> g in GenresOf(spotify)
    ensures forall i :: 0 <= i < |r| ==> r[i].bandCount == multiset(GenresOf(spotify))[r[i].genre] > 0
    ensures Sum(GenreCounts(r)) == |spotify|
  {
    SortedKeysAreDistinct(Dedup(GenresOf(spotify)), gs);
    assert GenreNames(r) == gs;
    StrictlyAscending(gs);
    forall i | 0 <= i < |r| ensures r[i].bandCount == multiset(GenresOf(spotify))[r[i].genre] > 0 {
      assert gs[i] in gs;
      GroupSize(spotify, gs[i]);
    }
    BreakdownSum(spotify, gs, r);
  }

  lemma GroupSize(spotify: seq<Artist>, g: string)
    requires g in GenresOf(spotify)
    ensures GenreStatOf(spotify, g).bandCount == multiset(GenresOf(spotify))[g] > 0
  {
    FromGenreSize(spotify, g);
  }

  lemma BreakdownSum(spotify: seq<Artist>, gs: seq<string>, r: seq<GenreStat>)
    requires Distinct(gs) && forall g :: g in gs <==> g in GenresOf(spotify)
    requires |r| == |gs| && forall i :: 0 <= i < |gs| ==> r[i] == GenreStatOf(spotify, gs[i])
    ensures Sum(GenreCounts(r)) == |spotify|
  {
    forall i | 0 <= i < |r| ensures GenreCounts(r)[i] == CountsFor(gs, GenresOf(spotify))[i] {
      FromGenreSize(spotify, gs[i]);
    }
    assert GenreCounts(r) == CountsFor(gs, GenresOf(spotify));
    SumOfCounts(gs, GenresOf(spotify));
  }

  /** A genre's group has as many artists as the Genre column has that genre. */
  lemma {:induction false} FromGenreSize(spotify: seq<Artist>, g: string)
    ensures |FromGenre(spotify, g)| == multiset(GenresOf(spotify))[g]
  {
    if spotify != [] {
      var n := |spotify| - 1;
      var here := if spotify[n].genre == g then 1 else 0;
      assert |FromGenre(spotify[..n], g)| == multiset(GenresOf(spotify[..n]))[g] by {
        FromGenreSize(spotify[..n], g);
      }
      GenresOfSnoc(spotify);
      assert multiset(GenresOf(spotify))[g] == multiset(GenresOf(spotify[..n]))[g] + here;
      assert |FromGenre(spotify, g)| == |FromGenre(spotify[..n], g)| + here by {
        FromGenreStep(spotify, g);
      }
    }
  }

  lemma FromGenreStep(spotify: seq<Artist>, g: string)
    requires spotify != []
    ensures |FromGenre(spotify, g)|
      == |FromGenre(spotify[..|spotify| - 1], g)| + (if spotify[|spotify| - 1].genre == g then 1 else 0)
  {
  }

  // ---------------------------------------------------------------------------
  // The report

  /** A row of top_tracks: a placeholder track standing for one artist. */
  datatype Track = Track(track: string, artist: string, album: string, year: int, popularity: int, monthlyListeners: nat, genre: string)

  function TopTrackOf(a: Artist): Track
  {
    Track("Top Track", a.artist, a.subgenre, 2024, a.popularity, a.monthlyListeners, a.genre)
  }

  datatype SpotifyReport = SpotifyReport(
    topArtists: seq<Artist>,
    topTracks: seq<Track>,
    tierStats: seq<TierStat>,
    genreBreakdown: seq<GenreStat>,
    totalTracks: nat,
    totalArtists: nat)

  /** sort_values('Popularity', ascending=False); equal popularities come in no particular order. */
  function ByPopularity(spotify: seq<Artist>): (ranked: seq<Artist>)
    ensures multiset(ranked) == multiset(spotify)
    ensures SortedDesc(ranked, Popularity)
  {
    SortDesc(spotify, Popularity)
  }

  /** top_artists: the 25 most popular artists, most popular first. */
  function TopArtists(spotify: seq<Artist>): (top: seq<Artist>)
    ensures |top| == Min(25, |spotify|)
    ensures SortedDesc(top, Popularity)
    ensures multiset(top) <= multiset(spotify)
  {
    var ranked := ByPopularity(spotify);
    var top := ranked[..Min(25, |ranked|)];
    assert ranked == top + ranked[|top|..];
    top
  }

  /**
   * top_tracks: a "Top Track" of 2024 for each of the 10 most popular
   * artists, in the order of top_artists.
   */
  function TopTracks(spotify: seq<Artist>): (tracks: seq<Track>)
    ensures |tracks| == Min(10, |spotify|)
    ensures forall i :: 0 <= i < |tracks| ==>
      tracks[i].track == "Top Track" && tracks[i].year == 2024
      && tracks[i] == TopTrackOf(TopArtists(spotify)[i])
  {
    var ranked := ByPopularity(spotify);
    seq(Min(10, |ranked|), i requires 0 <= i < Min(10, |ranked|) => TopTrackOf(ranked[i]))
  }

  /** What analyze_spotify_data returns; both totals are the number of artists. */
  function Report(spotify: seq<Artist>): (r: SpotifyReport)
    ensures |r.topArtists| == Min(25, |spotify|) && |r.topTracks| == Min(10, |spotify|)
    ensures forall i :: 0 <= i < |r.topTracks| ==> r.topTracks[i] == TopTrackOf(r.topArtists[i])
    ensures r.tierStats == TierStats(spotify, TierColumnOf(spotify))
    ensures r.genreBreakdown == GenreBreakdown(spotify)
    ensures r.totalTracks == r.totalArtists == |spotify|
  {
    SpotifyReport(TopArtists(spotify), TopTracks(spotify), TierStats(spotify, TierColumnOf(spotify)),
      GenreBreakdown(spotify), |spotify|, |spotify|)
  }

  /** An artist left out of top_artists is no more popular than any artist in it. */
  lemma TopArtistsAreMostPopular(spotify: seq<Artist>, a: Artist, i: int)
    requires a in spotify && a !in TopArtists(spotify)
    requires 0 <= i < |TopArtists(spotify)|
    ensures a.popularity <= TopArtists(spotify)[i].popularity
  {
    var ranked := ByPopularity(spotify);
    var top := TopArtists(spotify);
    assert top == ranked[..|top|];
    assert a in multiset(ranked);
    var j :| 0 <= j < |ranked| && ranked[j] == a;
    assert j >= |top|;
    assert Popularity(ranked[i]) >= Popularity(ranked[j]);
  }

  /**
   * analyze_spotify_data: the sorted frame, the loop that builds
   * top_tracks, and the Popularity_Tier column.
   */
  method AnalyzeSpotifyData(spotify: seq<Artist>) returns (r: SpotifyReport)
    ensures r == Report(spotify)
  {
    var ranked := ByPopularity(spotify);
    var topArtists := ranked[..Min(25, |ranked|)];
    var tracks := CollectTopTracks(ranked[..Min(10, |ranked|)]);
    assert tracks == TopTracks(spotify);
    var column := AssignPopularityTier(spotify);
    r := SpotifyReport(topArtists, tracks, TierStats(spotify, column), GenreBreakdown(spotify), |spotify|, |spotify|);
  }

  /** The loop over top_bands.iterrows(): one placeholder track per artist, in order. */
  method CollectTopTracks(topBands: seq<Artist>) returns (tracks: seq<Track>)
    ensures |tracks| == |topBands|
    ensures forall k :: 0 <= k < |topBands| ==> tracks[k] == TopTrackOf(topBands[k])
  {
    tracks := [];
    for i := 0 to |topBands|
      invariant |tracks| == i
      invariant forall k :: 0 <= k < i ==> tracks[k] == TopTrackOf(topBands[k])
    {
      tracks := tracks + [TopTrackOf(topBands[i])];
    }
  }

  /** spotify['Popularity_Tier'] = pd.cut(...): the tier of every row, cell by cell. */
  method AssignPopularityTier(spotify: seq<Artist>) returns (column: seq<Option<Tier>>)
    ensures column == TierColumnOf(spotify)
  {
    column := [];
    for i := 0 to |spotify|
      invariant |column| == i
      invariant forall k :: 0 <= k < i ==> column[k] == PopularityTier(spotify[k].popularity)
    {
      column := column + [PopularityTier(spotify[i].popularity)];
    }
  }
}
