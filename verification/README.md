# F1 driving-style clustering, modelled in Dafny

This project models the analysis core of an F1 telemetry tool. The tool compares
how drivers drive one qualifying track. The pipeline, one track at a time:

1. List the track's CSV files.
2. Extract a three-character upper-case driver code from each file name.
3. Turn each driver's raw telemetry into feature rows: throttle rate, brake
   intensity, gear efficiency, speed variability and acceleration. Rows with
   an infinite or missing value are dropped.
4. Join the drivers' tables into one track table and cap each driver's share
   at 800 rows with a seeded sample.
5. Cluster the rows with DBSCAN, using the track's own parameters.
6. Build a twelve-field driving-style profile per driver.
7. Compare the profiles by cosine similarity.
8. Produce a figure: similarity heatmap, PCA panel and a radar chart of five
   normalised metrics.
9. Report insights: the most similar pair of drivers and the two most
   aggressive and two smoothest drivers.

The files:

- `numeric.dfy`: `Option`, and the numbers pandas works with. A value is finite,
  NaN or an infinity. The file gives their arithmetic and Python's comparison,
  where every comparison with NaN is false. It also has `nan_to_num`, sums,
  means and maxima.
- `config.dfy`: the constant tables (teams, colours, DBSCAN parameters, columns,
  radar metrics) and their sanity lemmas.
- `foreign.dfy`: the library calls the model leaves uninterpreted, bundled as
  function-typed fields of `Lib`:
  - seeded sampling;
  - standard deviations;
  - quantiles;
  - DBSCAN;
  - cosine similarity.

  `Lib.Valid()` only demands that a sample of k out of n rows picks k distinct
  positions.
- `processing.dfy`: team lookup, feature derivation for one driver, driver-code
  extraction and loading a track.
- `clustering.dfy`: per-driver balancing, the DBSCAN step, profiles and the
  similarity analysis.
- `visualisation.dfy`: what the figure shows. This covers the guards on each
  panel, the PCA component count, the radar data and its normalisation, and
  closing the radar polygon.
- `orchestration.dfy`: the insights (most similar pair, top-two sort) and the
  per-track and all-tracks pipeline.

Code that loops in the source is modelled as a `method` with a `while` loop. Each
such method is proved equal to a recursive specification function, and the
lemmas state what that function guarantees. This covers:

- the team search;
- the file loop of `load_track_data`;
- the balancing loop;
- the profile loop;
- the NaN replacement;
- the radar loops;
- the pair search, which is proved against the predicate `IsMostSimilar` rather than a recursive function;
- the track loop.

The model follows the code as written, in these places:

- The most similar pair starts from a maximum of 0 and uses a strict `>`.
  When no pair has positive similarity there is no pair at all. Ties go to
  the first pair in row-major order.
- The cornering and straight-line styles use the strict comparisons
  `Speed < quantile(0.3)` and `Speed > quantile(0.7)`. Each falls back to the
  overall mean throttle when no row is in its band.
- `brake_frequency` is the mean of `nBrake`, which is whatever the CSV holds in
  that column or the cast `Brake` column. It is not a boolean by construction.
  Its bound in [0, 1] is proved only under the hypothesis that every `nBrake`
  lies in [0, 1].
- Only NaN profile values are replaced by 0.0; infinities are left in place.
  They are clamped to ±999999 only when the profile matrix is built.

## Model

| member | source | states |
|---|---|---|
| Numeric.NanToNum | clustering.py:27 | NaN becomes 0, +inf becomes 999999, -inf becomes -999999, and a finite value is unchanged. This contract is the case table, kept as the definition of the documented call; its substance is in NanToNumIdempotent and FeatureMatrixIsColumns |
| Numeric.NanToNumIdempotent | clustering.py:99 | clamping an already clamped value changes nothing, and clamping is the identity on finite values |
| Numeric.LessTotal | main.py:114-115 | without NaN, Python's `<` is total and asymmetric, so a descending sort is well defined |
| Numeric.LessTransitive | main.py:114-115 | Python's `<` on the extended numbers is transitive |
| Numeric.Max | processing.py:201 | the maximum is one of the values and no value exceeds it |
| Numeric.MeanBounds | processing.py:200 | a mean lies between any lower and upper bound of its values |
| Numeric.MeanAtMostMax | processing.py:200-201 | a driver's average speed never exceeds its maximum speed |
| Config.TeamNamesDistinct | config.py:3-9 | team names are distinct and none is the fallback "Unknown" |
| Config.TwoDriversPerTeam | config.py:3-9 | every team lists exactly two different drivers |
| Config.DriverInOneTeam | config.py:3-9 | no driver code is listed by two teams |
| Config.TeamColorsComplete | config.py:12-19 | every team and "Unknown" has a colour |
| Config.ClusterParamsSane | config.py:22-30 | every track's DBSCAN radius is positive and its minimum size at least 1, and so are the defaults |
| Config.ColumnListsDistinct | config.py:33-43 | ten distinct feature columns and five distinct radar metrics |
| Processing.TeamIndex | processing.py:8-10 | finds the first team, in table order, that lists the code; it finds none exactly when no team lists it |
| Processing.TeamOf | processing.py:6-12 | definition: the first listing team's name, or "Unknown"; properties in TeamIndex, GetDriverTeam and RosterCodesHaveTeams |
| Processing.GetDriverTeam | processing.py:6-12 | the loop returns the first listing team's name, and "Unknown" exactly when no team lists the code |
| Processing.RosterCodesHaveTeams | processing.py:6-12 | every listed driver maps to its own team, never to "Unknown" |
| Processing.TeamDrivers | processing.py:64 | `TEAMS.get(team, [])`: the team's list, or empty for an unknown team |
| Processing.IsSecondDriver | processing.py:62-65 | true exactly when the team has more than one driver and the code is its second. This contract is the case table; its substance is in SecondDriverPerTeam |
| Processing.SecondDriverPerTeam | processing.py:62-65 | for each team, only its listed second driver counts as second; nobody does for "Unknown" |
| Processing.Absent | processing.py:91-92 | the missing list holds exactly the required columns absent from the CSV |
| Processing.NBrake | processing.py:74-82 | `Brake` cast to 0/1 when present; otherwise the existing `nBrake`; otherwise 0. This contract is the case table; its substance is in ProducedRow |
| Processing.AbsDiff | processing.py:106 | definition of `diff().abs().fillna(0)` at one position; properties in ThrottleRateNonNegative and ProducedRow |
| Processing.Diff | processing.py:110 | definition of `diff().fillna(0)` at one position; properties in ProducedRow |
| Processing.CellsAt | processing.py:99-110 | definition of the ten derived columns of one raw row; properties in ProducedRow, DefinedCellsFacts and GearMinusOneDropped |
| Processing.Kept | processing.py:113 | `dropna` keeps exactly the rows whose every derived value is finite, in their original order |
| Processing.FeatureColumnsAreDerived | processing.py:98-110 | the ten derived columns are the clustering feature columns, in order |
| Processing.ProcessDriverTelemetry | processing.py:68-122 | it fails exactly when a required column is missing, and then lists exactly those columns; otherwise it yields at most one row per raw row, each tagged with the driver and its team |
| Processing.OriginCells | processing.py:98-117 | each produced row comes from the fully defined derived values of one raw row |
| Processing.DefinedCellsFacts | processing.py:99-110 | a kept raw row keeps its raw values and satisfies the derivation rules below |
| Processing.ProducedRow | processing.py:98-113 | produced row k is derived from its raw row by these rules |
| Processing.ThrottleRateNonNegative | processing.py:106 | every produced throttle rate is non-negative |
| Processing.RowSurvivesIffDefined | processing.py:113 | a raw row yields a feature row exactly when all its derived values are finite |
| Processing.GearMinusOneDropped | processing.py:108 | a row in gear -1 divides by zero and is always dropped |
| Processing.Basename | processing.py:171 | the result is the part of the path after its last '/' and holds no '/' |
| Processing.BasenameKeepsCsv | processing.py:171-174 | the basename of a ".csv" path still ends in ".csv" |
| Processing.Split | processing.py:182 | `str.split('-')` yields at least one part, and no part holds the separator |
| Processing.SplitJoin | processing.py:182 | joining the parts with the separator gives back the string |
| Processing.FirstCode | processing.py:183-185 | the first part that is three characters long and upper case (a cased character and no lower-case one); none exactly when no part is |
| Processing.DriverCode | processing.py:174-188 | a three-character upper-case stem is kept; otherwise the first such '-'-part; otherwise the whole stem |
| Processing.RemoveCsvSuffix | processing.py:175 | removing ".csv" from a dot-free name plus ".csv" gives the name back |
| Processing.DriverCodeOfCollectedFile | processing.py:171-188 | "VER.csv" and "prefix-VER.csv" both give the code "VER" |
| Processing.StatsOf | processing.py:197-204 | the sample count is positive, the team is the lookup result, and the average speed is at most the maximum |
| Processing.LoadedPositions | processing.py:195-196 | the positions of the files whose non-empty table is appended: all of them, each once, in increasing order |
| Processing.LoadedTables | processing.py:195-196 | the appended tables are exactly the loaded files' tables, in file order: table k is the result of the k-th loaded file. Each is non-empty, and there are none exactly when no file loaded |
| Processing.ConcatSize | processing.py:210 | the combined table has the sum of the per-driver row counts |
| Processing.StatsTableKeys | processing.py:197 | the summary keys are exactly the codes of loaded files, each with a positive count |
| Processing.LoadTrackData | processing.py:125-215 | the loop yields the specified track table, which is non-empty and as long as all kept tables together |
| Clustering.Unique | clustering.py:13 | `unique()` yields distinct codes, exactly those present |
| Clustering.UniqueOrder | clustering.py:13 | the codes come in order of first appearance |
| Clustering.RowsOf | clustering.py:14 | the rows of one driver: every copy of each of its rows and no row of another driver, all taken from the table |
| Clustering.RowsOfAppend | clustering.py:21 | filtering by driver distributes over concatenation |
| Clustering.Pick | clustering.py:15-18 | a driver contributes min(its rows, cap) rows, taken from its own rows without repetition |
| Clustering.GatherSubMultiset | clustering.py:16 | distinct sample positions take no row twice |
| Clustering.BalanceByDriver | clustering.py:13-21 | the balancing loop yields the specified balanced table |
| Clustering.BalancedSize | clustering.py:13-21 | the balanced table's size is the sum of the per-driver quotas |
| Clustering.BalancedPerDriver | clustering.py:13-21 | each listed driver's rows in the balanced table are exactly its pick; an unlisted code has none |
| Clustering.BalancedContribution | clustering.py:13-21 | every driver has min(its rows, cap) rows in the balanced table, all its own |
| Clustering.ParamsFor | clustering.py:34 | a known track gets its own parameters and an unknown track the defaults, and every parameter pair is usable |
| Clustering.FeatureMatrix | clustering.py:24-27 | one ten-column row per table row |
| Clustering.FeatureMatrixIsColumns | clustering.py:24 | entry (i, k) is feature column k of row i |
| Clustering.NoiseCount | clustering.py:44 | the number of -1 labels |
| Clustering.ClusterCount | clustering.py:43 | the number of distinct labels other than -1 |
| Clustering.CountsBounded | clustering.py:43-44 | clusters plus noise points never exceed the number of rows |
| Clustering.BalancedNonEmpty | clustering.py:13-21 | a non-empty table with a positive cap balances to a non-empty table |
| Clustering.ClusterTrackData | clustering.py:9-47 | returns the specified clustering, with one label per row and the reported cluster and noise counts |
| Clustering.ProfileKeysComplete | clustering.py:61-79 | the profile has twelve distinct fields, every key among them |
| Clustering.RadarKeysNameMetrics | visualisation.py:111-112 | the radar keys name the five radar metrics, in order |
| Clustering.BandPositions | clustering.py:75-76 | the positions of the rows strictly below (or above) the speed threshold: all of them, each once, in increasing order |
| Clustering.ThrottleWhere | clustering.py:75-76 | the band rows' throttles, each band row once and in row order: value k is the throttle of the k-th band position. There are none exactly when no row is in the band |
| Clustering.RawProfile | clustering.py:61-79 | the profile before NaN replacement has every field, each by its formula |
| Clustering.RawValue | clustering.py:61-79 | definition of each profile field's formula; properties in RawProfile, MaxSpeedAtLeastAverage, BrakeFrequencyInUnitRange and SmoothnessBounded |
| Clustering.Style | clustering.py:75-79 | definition of the cornering and straight-line rule; properties in StyleRule, CorneringStyleRule and StraightLineStyleRule |
| Clustering.ProfileOf | clustering.py:61-86 | definition of a stored profile; properties in ProfileValue and ProfileShape |
| Clustering.Coerced | clustering.py:82-84 | keys are kept, NaN values become non-NaN, and other values are unchanged |
| Clustering.CoerceMissing | clustering.py:82-84 | the replacement loop yields the coerced profile |
| Clustering.ProfileValue | clustering.py:61-86 | each field of a stored profile is its formula with NaN replaced by 0 |
| Clustering.ProfileShape | clustering.py:61-86 | a stored profile has all twelve fields and no NaN |
| Clustering.MaxSpeedAtLeastAverage | clustering.py:62-64 | avg_speed and max_speed are finite, and avg_speed ≤ max_speed |
| Clustering.BrakeFrequencyInUnitRange | clustering.py:67 | with brake values in [0, 1], brake_frequency is in [0, 1] |
| Clustering.SmoothnessBounded | clustering.py:66 | with non-negative throttle rates, throttle_smoothness is in (0, 1000] |
| Clustering.CorneringStyleRule | clustering.py:75-78 | with no row below the 30% speed quantile, cornering_style is throttle_aggression; otherwise it is the band's mean throttle; always within the throttle range |
| Clustering.StraightLineStyleRule | clustering.py:76-79 | the same for rows above the 70% quantile and straight_line_style |
| Clustering.StyleRule | clustering.py:78-79 | the band mean or the overall-mean fallback, always within the throttle range |
| Clustering.KeysMatch | clustering.py:54-86 | the profile dict holds exactly the drivers with at least one row |
| Clustering.ProfilesOverEntries | clustering.py:54-86 | each stored profile is computed from that driver's (non-empty) rows |
| Clustering.EveryDriverKept | clustering.py:57-58 | every driver in the table has rows, so the skip never happens |
| Clustering.ProfileMatrix | clustering.py:93-99 | row i is driver i's profile in the fixed field order, clamped by `nan_to_num` |
| Clustering.CosineMatrix | clustering.py:106 | the similarity matrix is square over the drivers |
| Clustering.SimilarityDrivers | clustering.py:88-93 | the driver list is the table's distinct drivers, and the profile dict has exactly those keys |
| Clustering.SimilarityProfiles | clustering.py:82-86 | every returned profile is complete and NaN-free |
| Clustering.SimilarityOf | clustering.py:50-109 | definition of the similarity result; properties in SimilarityDrivers, SimilarityProfiles and SimilarityMatrix |
| Clustering.SimilarityMatrix | clustering.py:88-106 | the matrix is empty exactly with fewer than two drivers, and square over the drivers otherwise |
| Clustering.AnalyzeSimilarity | clustering.py:50-109 | the profile loop and the matrix computation yield the specified analysis |
| Clustering.DriverProfile | clustering.py:55-86 | one pass of the profile loop: no profile exactly when the driver has no rows, otherwise the stored profile of its rows |
| Visualisation.Comparable | visualisation.py:123-124 | `all_values` holds no NaN and no more values than drivers. Every element is some listed driver's value for the metric, and every listed driver's non-NaN value is among them |
| Visualisation.MinNum | visualisation.py:126 | Python's `min` returns one of the values, and a smallest one when none is NaN |
| Visualisation.MaxNum | visualisation.py:126 | Python's `max` returns one of the values, and a largest one when none is NaN |
| Visualisation.OrHalf | visualisation.py:134-135 | a NaN or infinite normalised value becomes 0.5. This contract is the case table; its substance is in RadarFallbacks and RadarValueInUnitRange |
| Visualisation.Normalize | visualisation.py:127 | definition of the min-max quotient with the equal-extremes fallback; properties in NormalizeInRange, MinimumGetsZero and MaximumGetsOne |
| Visualisation.RadarValue | visualisation.py:121-135 | definition of one radar value; properties in RadarValueInUnitRange and RadarFallbacks |
| Visualisation.RadarRow | visualisation.py:119-137 | a driver's radar row has one normalised value per radar metric |
| Visualisation.Radar | visualisation.py:114-138 | radar data exists exactly when every driver has a profile, with one row per driver |
| Visualisation.CompareValues | visualisation.py:123-124 | the comprehension loop yields `all_values`, or signals the KeyError of a driver without a profile |
| Visualisation.NormalizedValue | visualisation.py:121-135 | the per-metric branch yields the specified radar value |
| Visualisation.DriverRadar | visualisation.py:119-137 | the inner loop over the radar metrics yields the driver's specified radar row, and fails only when some driver has no profile |
| Visualisation.RadarData | visualisation.py:117-138 | the outer radar loop over the drivers yields the specified radar data |
| Visualisation.NormalizeInRange | visualisation.py:127 | a value between the minimum and the maximum normalises into [0, 1] |
| Visualisation.RadarValueInUnitRange | visualisation.py:121-137 | every radar value is in [0, 1] |
| Visualisation.MinimumGetsZero | visualisation.py:127 | the driver holding a finite minimum, below the maximum, gets 0 |
| Visualisation.MaximumGetsOne | visualisation.py:127 | the driver holding the maximum gets 1 when both extremes are finite and differ |
| Visualisation.RadarFallbacks | visualisation.py:121-135 | a missing metric, fewer than two comparable values, all-equal values or a NaN own value each give 0.5 |
| Visualisation.RadarShape | visualisation.py:117-138 | every radar row has five values, all in [0, 1] |
| Visualisation.ClosePolygon | visualisation.py:146 | the closed row repeats its first value at the end |
| Visualisation.ClosedRadarRow | visualisation.py:146 | each plotted radar polygon has six points, and its last equals its first |
| Visualisation.NComponents | visualisation.py:62 | `min(2, features, drivers)`: at most each of the three, and equal to one of them |
| Visualisation.Pca | visualisation.py:48-63 | PCA runs exactly when there are at least two profiles and every driver's profile holds the features; it then asks for at most two components, and no more than the drivers or the features |
| Visualisation.CreateVisualizations | visualisation.py:21-114 | definition of what the figure shows; properties in FigureGuards |
| Visualisation.FigureGuards | visualisation.py:21-114 | fewer than two drivers draws nothing. Otherwise the heatmap is drawn exactly for a non-empty matrix, and the radar exactly when some profile exists and every driver has one. The PCA panel is drawn whenever its guard holds, with `min(2, features, drivers)` components |
| Orchestration.MostSimilarPair | main.py:99-106 | the pair is the first in row-major order with the largest positive similarity, with that similarity; there is none exactly when no pair is positive |
| Orchestration.MostSimilarUnique | main.py:99-106 | at most one pair and value meet that description |
| Orchestration.KeyOrZero | main.py:114 | `.get(key, 0)`. This contract is the case table; its substance is in TopTwoSelects |
| Orchestration.SortKeys | main.py:114-115 | one sort key per driver, read from its profile |
| Orchestration.Insert | main.py:114-115 | inserting adds exactly the one position |
| Orchestration.SortPositions | main.py:114-115 | the sorted positions are a permutation of the driver positions |
| Orchestration.PrecedesOrder | main.py:114-115 | "larger key first, earlier position on ties" is a strict total order without NaN |
| Orchestration.InsertSorted | main.py:114-115 | insertion keeps the positions sorted |
| Orchestration.SortPositionsSorted | main.py:114-115 | the sort yields a sorted permutation (stable, descending) |
| Orchestration.TopTwoPositions | main.py:114-115 | `[:2]` keeps two positions, or all of them when there are fewer |
| Orchestration.TopTwoSelects | main.py:114-115 | the first chosen precedes the second, and each chosen position precedes every unchosen one |
| Orchestration.TopTwo | main.py:114-115 | two drivers, or all of them when there are fewer |
| Orchestration.ArchetypesOf | main.py:112-119 | archetypes exist exactly when the profile dict is non-empty and holds every driver |
| Orchestration.AnalysisInsights | main.py:89-119 | insufficient exactly for an empty matrix or fewer than two drivers; otherwise the most similar pair and the archetypes |
| Orchestration.TrackAnalysis | main.py:11-35 | definition of one track's figure and profiles; properties in AnalyzeTrackDrivingStyles and SingleTrack |
| Orchestration.AnalyzeTrackDrivingStyles | main.py:11-35 | the specified figure and profiles, plus insights that are insufficient exactly when the similarity matrix is empty or there are fewer than two drivers, and otherwise name the most similar pair and the archetypes of the analysed profiles |
| Orchestration.SingleTrack | main.py:49-68 | a track yields a result exactly when it loads more than 100 rows |
| Orchestration.AnalyzeSingleTrack | main.py:38-68 | the specified result, present exactly with more than 100 rows. Insights exist exactly when there is a result, and they report the clustered rows' similarity analysis: its guard, its most similar pair and its archetypes |
| Orchestration.CollectEntry | main.py:75-79 | a track is in the results exactly when it is listed and had a result, and then it holds that result |
| Orchestration.AnalyzeTracks | main.py:75-79 | the track loop builds the specified results map |
| Orchestration.AnalyzeAllTracks | main.py:71-86 | the results hold exactly the four tracks with enough data, each with its own analysis |

## Left out

- Files and the filesystem are not modelled:
  - The directory walk (`os.listdir`, subdirectories) and `pd.read_csv` become parameters.
  - A track's files arrive as a list of named raw tables whose names end in ".csv".
  - The set of tracks' listings is a function from track name to that list.
  - The missing-directory branches of `load_track_data` and `debug_directory_structure` are not modelled.
- Which rows `DataFrame.sample(n, random_state=42)` picks is left open. The model only requires that it picks distinct rows.
- Some library results are uninterpreted `Lib` fields, so their values are not modelled:
  - `rolling(10, min_periods=1).std()`, `std()` and `quantile()`;
  - StandardScaler with DBSCAN;
  - StandardScaler with cosine similarity.
- `euclidean_distances`, the PCA coordinates and explained variance, plotting, colours, line styles, angles, `savefig` and `plt.show` are left out. The figure records only which panels are drawn, the PCA component count and the radar data.
- Printing is left out:
  - Warnings, progress messages and the insights themselves are not printed; the insights are returned as a value.
  - Exception handlers become `Option` results, or the `MissingColumns` case.
- Floating point is not modelled exactly. Arithmetic on finite values is exact, with no rounding, overflow or signed zero.
  - One consequence: the proofs that an average speed is at most the maximum (Numeric.MeanAtMostMax, Clustering.MaxSpeedAtLeastAverage, Processing.StatsOf) hold in exact arithmetic only. In float64 the computed mean of [0.1, 0.1, 0.1] rounds to 0.10000000000000002, just above its maximum.
- `str.isupper` is modelled over ASCII letters only.
- `os.path.basename` splits on '/' only.
- Profile fields are an enumeration whose names are the source's dict keys. A profile is a map from that enumeration.
- Clustering.ClusterTrackData: requires a non-empty table and a positive cap. The source raises on an empty concatenation, and its only caller passes more than 100 rows and a cap of 800.
- Orchestration.TopTwoSelects: the ordering is proved only for NaN-free keys. Profiles reaching the insights are NaN-free, and `sorted` on NaN keys has no defined order.
- Visualisation.MaximumGetsOne: requires both extremes to be finite. With an infinite extreme the quotient is NaN or infinite, and the value falls back to 0.5.
- Visualisation.Pca: takes the feature list from the first driver's profile, not from the dict's first-inserted profile. The two agree for profiles built by the similarity analysis, which all have the same twelve keys.
- Processing.ProcessDriverTelemetry: raw rows carry typed fields. A CSV cell that fails `astype(int)`, or any other parse error, is not modelled.
