# Metal band analysis, modelled in Dafny

This project models the analysis core of `analysis.py`, a pandas script that
reads a table of metal bands, a discography table and a table of streaming
popularity figures, and turns them into the aggregates behind a dashboard.
The model follows the script step by step:

- **Cleaning** (`Bands`): rows without a country are dropped and the country
  is stripped. Each row then gets two derived columns: its primary genre (the
  text before the first `/`, `,` or whitespace-`with`-whitespace, stripped)
  and its genre category.
- **Genre category** (`Genre`): thirteen keyword rules are tried in order on
  the lower-cased primary genre, and the first rule that matches wins;
  otherwise the category is `Other`.
- **By country** (`Countries`): each country's band count and its dominant
  category, most bands first. The dominant category is the mode, and ties go
  to the label that sorts first.
- **By region** (`Regions`): a fixed table of eight regions is walked in
  order. Each region with bands gives its band total, its top category and
  its five most frequent categories.
- **Status pivot** (`Status`): country × status counts with a Total column.
- **Genre evolution** (`Evolution`): releases are joined to their band's
  category, bucketed by decade and kept for 1970 to 2020. The result is
  counted per decade and category.
- **Streaming popularity** (`Spotify`):
  - top 25 artists and placeholder top tracks for the top 10;
  - popularity tiers cut at 0/45/55/65/100, right-closed;
  - listener totals per tier;
  - per-genre counts and sums.
- **Dashboard** (`Dashboard`):
  - the top 30 countries with coordinates from a fixed table;
  - the category counts;
  - the category mix of the top 15 countries;
  - the summary.

Shared vocabulary lives in `Wrappers` (Option, Result), `Text` (strip, lower,
code-point order, sorting), `Counting` (group sizes, `value_counts`, descending
sort, distinct values) and `Crosstab` (the `groupby(...).size().unstack()`
table).

A pandas frame is a `seq` of row datatypes. Missing cells are `Option`. A group
size is a multiset count. Percentages are left as the integer counts they are
computed from, together with a proof that their denominators are positive. The
in-place steps of the script are methods proved against specification
functions:

- the cleaning;
- the region loop;
- the top-tracks loop;
- the `Popularity_Tier` column;
- the coordinate loop, which works on an `array` of records.

## Edge behaviour of analysis.py

- analysis.py:242-246: the `pd.cut` bins are right-closed. A popularity of
  45 is `Underground`, 46 is `Cult`, and 0 or anything above 100 gets no tier.
- analysis.py:67: `mode()` returns the modes sorted, so `iloc[0]` picks the
  alphabetically smallest of the tied labels.
- analysis.py:24-26 and 32-61: a missing genre becomes the primary genre
  `"Unknown"`. No keyword occurs in it, so its category is `Other`; the
  classifier's own result is always one of the fourteen categories.
- analysis.py:14-15: `dropna` runs before `str.strip`, so a country made only
  of whitespace strips to `""` and its row is kept.
- analysis.py:28: the separator pattern `[/,]|\swith\s` accepts any single
  whitespace character on either side of `with`.
- analysis.py:113-119: the Total column is added only when an `Active` column
  exists. Without one, and unless some band's status is literally `Total`,
  `sort_values('Total')` raises, and the model returns an error result.
- analysis.py:269-300 and 304-306: the coordinate table is a dictionary
  literal, so for a repeated key the last entry would win. `Dashboard.Lookup`
  returns that entry.

## Model

| member | source | states |
|---|---|---|
| Text.Lower | analysis.py:33 | same length; every character is the lower-case form of the input's |
| Text.LowerIdempotent | analysis.py:33 | lower-casing twice is lower-casing once |
| Text.Strip | analysis.py:15 | the result is the middle of the input; what is removed on both sides is whitespace; the result neither starts nor ends with whitespace |
| Text.ContainsIffOccurs | analysis.py:34-59 | Python's `k in s`: the recursive substring test holds iff k occurs at some position of s |
| Text.StripStripped | analysis.py:29 | stripping a string with no surrounding whitespace changes nothing |
| Text.SortStrings | analysis.py:236 | the sort that groupby applies to its keys: a permutation of the input, in code-point order |
| Genre.FirstSeparator | analysis.py:28 | the leftmost match of `[/,]\|\swith\s` at or after a position, or the end |
| Genre.ExtractPrimaryGenre | analysis.py:24-29 | a missing genre gives "Unknown"; otherwise the result has no `/`, no `,`, no whitespace-with-whitespace, and no surrounding whitespace |
| Genre.PrimaryGenreIsFirstSegment | analysis.py:28-29 | the result is the stripped text before the leftmost separator |
| Genre.ExtractIdempotent | analysis.py:24-29 | extracting twice gives the same as extracting once |
| Genre.PrimaryIsFixed | analysis.py:28-29 | a string without separators or surrounding whitespace is its own primary genre |
| Genre.ClassifyFrom | analysis.py:34-61 | the if/elif chain from a rule on: a category other than Other comes from that rule or a later one, and a keyword of its rule occurs |
| Genre.MapToGenreCategory | analysis.py:32-61 | a category other than Other is justified by a keyword of its own rule occurring in the lower-cased genre |
| Genre.FirstMatchWins | analysis.py:34-59 | rule j's category is returned iff one of its keywords occurs in the lower-cased genre and no earlier rule's keyword does |
| Genre.OtherWhenNothingMatches | analysis.py:60-61 | Other is returned iff no keyword of any rule occurs |
| Genre.CaseInsensitive | analysis.py:33 | the category of a genre equals the category of its lower-cased form |
| Genre.BlackWins | analysis.py:34-35 | any genre containing "black" is Black Metal |
| Genre.DeathUnlessBlack | analysis.py:34-37 | a genre containing "death" but not "black" is Death Metal |
| Genre.DeathcoreIsNeverCore | analysis.py:36-51 | a genre containing "deathcore" is Black Metal or Death Metal, never Core |
| Genre.CoreNeedsMetalcoreOrHardcore | analysis.py:50-51 | Core is returned only when "metalcore" or "hardcore" occurs |
| Genre.UnknownIsOther | analysis.py:24-61 | a missing genre is classified Other |
| Genre.AlphabeticalSorted | analysis.py:67 | the fourteen labels listed in sorted order are strictly increasing in code-point order |
| Genre.LabelOrdered | analysis.py:137 | the categories that occur, each once, in label order, as unstack orders its columns |
| Bands.LoadAndClean | analysis.py:13-17 | the loop over the rows yields exactly the cleaned table |
| Bands.CleanRow | analysis.py:15-17 | id, genre and status kept; the country is the raw country with `str.strip()` applied; primary genre and category derived from the genre |
| Bands.CleanRowsIsFilterMap | analysis.py:14-17 | the i-th cleaned row is the cleaned i-th raw row that has a country, so each appears once and in order |
| Bands.CleanRowsComplete | analysis.py:14-17 | every raw row with a country yields its cleaned row |
| Bands.CleanRowsSound | analysis.py:14-17 | every cleaned row comes from a raw row with a country |
| Bands.CleanRowDerived | analysis.py:15-17 | every cleaned row's country is stripped and its primary genre and category are derived from its own genre |
| Bands.CleanRowsCount | analysis.py:14 | the cleaned table has as many rows as the raw table has rows with a country |
| Bands.CleanRowsKeepsComplete | analysis.py:14 | a table whose rows all have a country loses no row |
| Counting.Filter | analysis.py:93 | a boolean-mask selection: each value keeps its count when selected and drops to zero otherwise |
| Counting.SortDesc | analysis.py:70 | a permutation in non-increasing key order |
| Counting.ValueCounts | analysis.py:95 | one pair per distinct value with its count; counts positive, non-increasing, summing to the input length |
| Counting.ValueCountsHeadIsMax | analysis.py:101 | the first value of value_counts is as frequent as any value |
| Counting.ValueCountsHead | analysis.py:103 | every value outside head(n) is no more frequent than any value kept |
| Counting.NUnique | analysis.py:321-322 | the number of distinct values: the length of every duplicate-free list with the same members; zero iff the input is empty |
| Counting.SumOfCounts | analysis.py:114 | counts over distinct keys that cover the values add up to the number of values |
| Countries.Mode | analysis.py:67 | a value that occurs, as frequent as any other, and ahead in label order of every other value as frequent |
| Countries.DominantGenre | analysis.py:67 | None iff the group is empty; otherwise a most frequent category of the group |
| Countries.AnalyzeByCountry | analysis.py:63-75 | one row per distinct country; each count is the number of its bands and is positive; counts non-increasing and summing to the number of bands |
| Countries.StatsOf | analysis.py:65-68 | one row per value_counts pair, with its country, its count and the mode of that country's categories |
| Countries.DominantGenreIsMode | analysis.py:65-68 | each row's dominant genre occurs in its country, is as frequent as any category there, and wins ties by label order |
| Countries.TopCountryHasMostBands | analysis.py:65-70 | the first row has at least as many bands as any country |
| Regions.AnalyzeGenreByRegion | analysis.py:78-106 | the result is the concatenation of the rows of the fixed region table |
| Regions.CollectRegionRows | analysis.py:91-104 | the loop appends exactly each region's contribution, in table order |
| Regions.RegionRow | analysis.py:93-104 | at most one row, present iff the region has bands, named after the region |
| Regions.RowFor | analysis.py:94-104 | the `if len(region_bands) > 0` test: at most one row, present iff there are bands, named after the region |
| Regions.SummaryDescribes | analysis.py:95-103 | the appended dictionary: band total, a most frequent Top_Genre, and the head(5) distribution with true counts, non-increasing, nothing more frequent left out |
| Regions.SummaryShape | analysis.py:103 | `head(5).to_dict()` has exactly min(5, number of distinct categories) entries, each category once |
| Regions.RegionTableNamesDistinct | analysis.py:80-89 | the eight region names differ |
| Regions.RegionsInTableOrder | analysis.py:92 | rows come in the table's order, each region at most once |
| Regions.BandInRegion | analysis.py:93-94 | a region's selection is non-empty iff some band's country is in its list |
| Regions.RegionListedIff | analysis.py:92-94 | a region has a row iff some band's country is in its list |
| Regions.RegionRowFacts | analysis.py:94-103 | Total_Bands counts the region's bands; Top_Genre is a most frequent category; Genre_Distribution holds exactly min(5, number of distinct categories) entries, each category once, with true positive counts, non-increasing, led by Top_Genre, and no category left out is more frequent than one kept |
| Status.Pivot | analysis.py:111-114 | distinct status columns, exactly those present; one row per country with a status; each count true; Total the row sum, equal to the country's bands with a status; Totals non-increasing |
| Status.AnalyzeStatusDistribution | analysis.py:109-119 | an error iff no band is Active; otherwise exactly the pivot, with its Total column and its sorted rows, which has an Active column |
| Status.ActiveAtMostTotal | analysis.py:113-117 | in every row the Active count is at most the Total |
| Evolution.Decade | analysis.py:133 | the decade is a multiple of 10 within 10 below the year |
| Evolution.Survivors | analysis.py:131-135 | surviving rows have decades from 1970 to 2020, multiples of 10 |
| Evolution.DecadesFrom | analysis.py:137 | the decades that occur, ascending, each once |
| Evolution.GetGenreEvolution | analysis.py:122-141 | one row per decade that occurs, ascending, within 1970 to 2020; columns the categories that occur, each once, in label order; each row sums to its decade's surviving releases, which is positive |
| Evolution.EvolutionCell | analysis.py:137 | each cell counts the surviving releases of its decade and category |
| Evolution.UnmatchedAddsNothing | analysis.py:124-128 | a release whose band id matches no band adds no merged row |
| Evolution.DroppedRowAddsNothing | analysis.py:131-135 | merged rows with a missing year or a decade outside 1970-2020 add no entry |
| Evolution.MatchesCarryYear | analysis.py:124-128 | every merged row of a release carries that release's year |
| Evolution.DroppedReleaseIgnored | analysis.py:124-135 | adding an unmatched release, or one with a non-numeric or out-of-range year, leaves the table unchanged |
| Evolution.SurvivorOrigin | analysis.py:124-135 | every entry comes from a release and a band with the same id, with the release's decade and the band's category |
| Evolution.SurvivorsAppend | analysis.py:130-135 | the row filters act row by row: filtering a concatenation concatenates the filtered parts |
| Evolution.MatchesCount | analysis.py:124-135 | a release contributes each (decade, category) entry once per band with its id and that category, and only when its year survives in that decade |
| Evolution.EntriesCount | analysis.py:124-137 | each (decade, category) entry occurs exactly as often as there are (release, band) pairs with the same id, a surviving year in that decade and that category |
| Evolution.MatchedReleaseKept | analysis.py:124-135 | a release joined to a band, whose year survives, gives its (decade, category) entry |
| Spotify.CutFrom | analysis.py:242-246 | the right-closed bin holding a value, or None when no bin does |
| Spotify.PopularityTier | analysis.py:242-246 | no tier exactly when the popularity is outside (0, 100] |
| Spotify.TierIntervals | analysis.py:242-246 | (0,45] Underground, (45,55] Cult, (55,65] Mainstream, (65,100] Top Tier; no tier iff outside (0,100] |
| Spotify.TierColumnOf | analysis.py:242-246 | the tier column holds each row's tier |
| Spotify.AssignPopularityTier | analysis.py:242-246 | the loop builds exactly the tier column |
| Spotify.TierMembers | analysis.py:247-249 | a tier's group has as many artists as the column has that tier |
| Spotify.TierStatsFrom | analysis.py:247-251 | tiers in bin order, exactly those some row has; each row's count and listener total over its group |
| Spotify.TierStats | analysis.py:247-251 | tiers strictly in bin order, exactly those the column holds; each row counts its tier's cells, positive, and sums its group's listeners |
| Spotify.TierMembership | analysis.py:247-249 | an artist is in tier t's group iff its popularity falls in t |
| Spotify.TierListedIff | analysis.py:247-251 | a tier has a row iff some artist's popularity falls in it |
| Spotify.GenreBreakdown | analysis.py:236-240 | genres ascending, exactly those present; each count is the genre's artists, positive; each row's popularity and listener sums are those of the genre's artists; counts sum to the number of artists |
| Spotify.FromGenreSize | analysis.py:236-238 | a genre's group has as many artists as the Genre column has that genre |
| Spotify.ByPopularity | analysis.py:221 | a permutation in non-increasing popularity |
| Spotify.TopArtists | analysis.py:221-222 | min(25, n) artists, non-increasing popularity, drawn from the input |
| Spotify.TopArtistsAreMostPopular | analysis.py:221-222 | no artist left out is more popular than one kept |
| Spotify.TopTracks | analysis.py:224-235 | min(10, n) tracks, each "Top Track" of 2024 for the artist at the same rank |
| Spotify.CollectTopTracks | analysis.py:224-235 | the loop builds one placeholder track per artist, in order |
| Spotify.AnalyzeSpotifyData | analysis.py:218-260 | the report: the top artists, the top tracks, the tier rows over the computed column, the genre breakdown and both totals |
| Spotify.Report | analysis.py:252-259 | min(25, n) top artists and min(10, n) top tracks, the i-th track that of the i-th top artist; the tier rows over the tier column and the genre breakdown; both totals are the number of artists |
| Crosstab.Columns | analysis.py:137 | columns are the categories that occur, each once, in label order |
| Crosstab.RowsFor | analysis.py:137 | each cell counts the entries with that row's key and that column's category |
| Crosstab.RowSum | analysis.py:139 | a row's cells add up to the number of entries with its key |
| Dashboard.Lookup | analysis.py:304-306 | the value of the last entry with the key, or None iff no entry has it |
| Dashboard.WithCoords | analysis.py:302-309 | lat and lon both set from the table's entry when the country is in it, both None otherwise; other fields kept |
| Dashboard.AnnotateCoordinates | analysis.py:302-309 | every record of the array is replaced by its annotated form |
| Dashboard.LocatedCountries | analysis.py:264-265 | min(30, n) records, the i-th the i-th country row with its coordinates |
| Dashboard.GenreByCountry | analysis.py:311-315 | one row per top-15 country with bands, ascending; columns exactly the categories among the selected bands, in label order; each cell the number of that country's bands with that category; each row sums to the country's band count, which is positive |
| Dashboard.SelectedCountries | analysis.py:312 | a country has bands in the selection iff it is selected and has bands |
| Dashboard.SelectedCount | analysis.py:312 | a selected country keeps all its bands |
| Dashboard.SelectedPairs | analysis.py:312 | a selected country keeps each of its (country, category) pairs as often as the whole frame has it |
| Dashboard.SummaryOf | analysis.py:319-325 | total bands; distinct countries and categories; the first country row; a most frequent category |
| Dashboard.ExportWith | analysis.py:263-335 | an IndexError iff there is no country row or no band; otherwise the summary, located countries, genre counts, regions, matrix and streaming report |
| Dashboard.ExportUsing | analysis.py:263-331 | building the records, annotating them in place and assembling gives the export |
| Dashboard.ExportEnhancedDashboard | analysis.py:263-335 | the export with the fixed 30-entry coordinate table |
| Dashboard.SummaryMatchesCountryTable | analysis.py:321-323 | with the frame's own country table: no error, the country count equals the number of country rows, and the top country has the most bands |
| Dashboard.GenreCountMatchesGenres | analysis.py:266-322 | the summary's category count equals the number of genre rows |

## Left out

- Reading the CSV files and writing the JSON document are not modelled. The
  cleaned frame, the discography and the streaming table are parameters, and
  the dashboard is returned as a value.
- `print` output and the `__main__` driver are not modelled; they are console
  reporting only.
- Float arithmetic is not modelled: percentages, means and `round`. The model
  keeps the integer counts and sums they are computed from:
  - Percentage (:73) and Top_Genre_Pct (:102);
  - Active_Rate (:115-117);
  - the evolution and country-mix percentages (:139, :315-316);
  - the genre means (:237-240) and Avg_Listeners (:248-250).
  It proves that every denominator is positive.
- `export_for_dashboard` (:143-216) is not modelled separately. It is the same
  export without the `spotify` key.
- `df.columns.str.strip()` (:13) is not modelled; the model has no column
  headers.
- Text.Lower: `lower()` is modelled for ASCII letters only. Other characters
  are left unchanged, because the model has no Unicode case tables.
- Years and popularities are integers. Float years (`to_numeric` of "1999.5")
  and float popularities are not modelled.
- Band ID and the streaming Artist and Genre cells are assumed present. The
  counts `'Band ID': 'count'` and `'Artist': 'count'` therefore equal the group
  sizes.
- The streaming Popularity and Monthly_Listeners cells are assumed present
  and numeric. A missing value would be NaN, which `pd.cut` leaves without a
  tier and the sums skip; the model has no NaN for these columns.
- Regions.RegionRowFacts: value_counts leaves the order among equal counts
  unspecified. So the contract states that Top_Genre is a most frequent
  category, not which of the tied ones it is.
- Countries.AnalyzeByCountry: sort_values is not stable, so no order among
  countries with equal counts is claimed.
- Status.Pivot: the order of rows with equal Totals is not claimed. The
  status columns come in order of first appearance rather than the sorted
  order unstack gives, and no contract states their order.
- Status.AnalyzeStatusDistribution: statuses literally named `Total` or
  `Active_Rate` are not modelled. They would share a name with the columns
  added at analysis.py:114-115: without an `Active` status, a `Total` status
  column would make the sort succeed where the model returns an error, and
  with one, the added columns would overwrite them. The model keeps the
  Total in its own field, apart from the status columns.
- Spotify.TopArtists: no order among artists with equal popularity is
  claimed.
- Spotify.TierStatsFrom: each tier row keeps the listener total and the
  artist count. Their rounded mean is not computed.
- Spotify.GenreBreakdown: each genre row keeps the popularity and listener
  sums. The mean popularity is not computed.
- Dashboard.Lookup: the coordinates are kept as the table's real literals and
  never computed with.
