/**
 * The analysis driver: the insights printed for a track (the most similar
 * pair of drivers and the two most aggressive and two smoothest drivers),
 * the per-track pipeline with its "more than 100 rows" guard, and the loop
 * over the four tracks that keeps the tracks that were analysed.
 */
module Orchestration {
  import opened Wrappers
  import opened Numeric
  import opened Foreign
  import opened Processing
  import opened Clustering
  import opened Visualisation

  // ---------------------------------------------------------------------
  // Most similar pair
  // ---------------------------------------------------------------------

  /** Entry (i, j) of the matrix exists for every i, j < n. */
  predicate Rows(sim: seq<seq<real>>, n: nat)
  {
    |sim| >= n && forall i :: 0 <= i < n ==> |sim[i]| >= n
  }

  /** Pair (p, q) comes before (i, j) in row-major order. */
  predicate RowMajorBefore(p: nat, q: nat, i: nat, j: nat)
  {
    p < i || (p == i && q < j)
  }

  /**
   * The reported pair: none when no pair of the strict upper triangle has a
   * similarity above 0; otherwise a pair i < j whose similarity is the
   * maximum, and no earlier pair in row-major order reaches it.
   */
  predicate IsMostSimilar(sim: seq<seq<real>>, n: nat, best: Option<(nat, nat)>, m: real)
    requires Rows(sim, n)
  {
    match best
    case None => m == 0.0 && forall p, q :: 0 <= p < q < n ==> sim[p][q] <= 0.0
    case Some((a, b)) =>
      && a < b < n && sim[a][b] == m && m > 0.0
      && (forall p, q :: 0 <= p < q < n ==> sim[p][q] <= m)
      && (forall p, q :: 0 <= p < q < n && RowMajorBefore(p, q, a, b) ==> sim[p][q] < m)
  }

  /** The same characterisation over the pairs before (i, j) only: the loop invariant. */
  predicate BestSoFar(sim: seq<seq<real>>, n: nat, i: nat, j: nat, best: Option<(nat, nat)>, m: real)
    requires Rows(sim, n)
  {
    match best
    case None => m == 0.0 && forall p, q :: 0 <= p < q < n && RowMajorBefore(p, q, i, j) ==> sim[p][q] <= 0.0
    case Some((a, b)) =>
      && a < b < n && RowMajorBefore(a, b, i, j) && sim[a][b] == m && m > 0.0
      && (forall p, q :: 0 <= p < q < n && RowMajorBefore(p, q, i, j) ==> sim[p][q] <= m)
      && (forall p, q :: 0 <= p < q < n && RowMajorBefore(p, q, a, b) ==> sim[p][q] < m)
  }

  /**
   * The nested loop over the strict upper triangle: a pair replaces the
   * current one only with a similarity strictly above the current maximum,
   * which starts at 0.
   */
  method MostSimilarPair(sim: seq<seq<real>>, n: nat) returns (best: Option<(nat, nat)>, m: real)
    requires Rows(sim, n)
    ensures IsMostSimilar(sim, n, best, m)
    ensures best.None? <==> forall p, q :: 0 <= p < q < n ==> sim[p][q] <= 0.0
  {
    m := 0.0;
    best := None;
    var i := 0;
    while i < n
      invariant 0 <= i <= n
      invariant BestSoFar(sim, n, i, i + 1, best, m)
    {
      var j := i + 1;
      while j < n
        invariant i + 1 <= j <= n
        invariant BestSoFar(sim, n, i, j, best, m)
      {
        var similarity := sim[i][j];
        PairStep(sim, n, i, j, best, m);
        if similarity > m {
          m := similarity;
          best := Some((i, j));
        }
        j := j + 1;
      }
      NextRow(sim, n, i, best, m);
      i := i + 1;
    }
    AllPairsSeen(sim, n, best, m);
  }

  lemma PairStep(sim: seq<seq<real>>, n: nat, i: nat, j: nat, best: Option<(nat, nat)>, m: real)
    requires Rows(sim, n) && i < j < n && BestSoFar(sim, n, i, j, best, m)
    ensures sim[i][j] > m ==> BestSoFar(sim, n, i, j + 1, Some((i, j)), sim[i][j])
    ensures sim[i][j] <= m ==> BestSoFar(sim, n, i, j + 1, best, m)
  {
  }

  lemma NextRow(sim: seq<seq<real>>, n: nat, i: nat, best: Option<(nat, nat)>, m: real)
    requires Rows(sim, n) && i < n && BestSoFar(sim, n, i, n, best, m)
    ensures BestSoFar(sim, n, i + 1, i + 2, best, m)
  {
    assert forall p, q :: 0 <= p < q < n ==> (RowMajorBefore(p, q, i + 1, i + 2) <==> RowMajorBefore(p, q, i, n));
  }

  lemma AllPairsSeen(sim: seq<seq<real>>, n: nat, best: Option<(nat, nat)>, m: real)
    requires Rows(sim, n) && BestSoFar(sim, n, n, n + 1, best, m)
    ensures IsMostSimilar(sim, n, best, m)
    ensures best.None? <==> forall p, q :: 0 <= p < q < n ==> sim[p][q] <= 0.0
  {
  }

  /** The characterisation leaves no choice: at most one pair and value satisfy it. */
  lemma MostSimilarUnique(sim: seq<seq<real>>, n: nat, b1: Option<(nat, nat)>, m1: real, b2: Option<(nat, nat)>, m2: real)
    requires Rows(sim, n)
    requires IsMostSimilar(sim, n, b1, m1) && IsMostSimilar(sim, n, b2, m2)
    ensures b1 == b2 && m1 == m2
  {
    match (b1, b2)
    case (Some((a1, c1)), Some((a2, c2))) =>
      assert m1 == m2 by {
        assert sim[a1][c1] <= m2 && sim[a2][c2] <= m1;
      }
    case _ =>
  }

  // ---------------------------------------------------------------------
  // Top two drivers by a profile key
  // ---------------------------------------------------------------------

  /** `profile.get(key, 0)`. */
  function KeyOrZero(p: Profile, k: Key): (v: Num)
    ensures k in p ==> v == p[k]
    ensures k !in p ==> v == Fin(0.0)
  {
    if k in p then p[k] else Fin(0.0)
  }

  /** The sort key of each driver, in driver order. */
  function SortKeys(drivers: seq<string>, profiles: map<string, Profile>, k: Key): (keys: seq<Num>)
    requires AllPresent(drivers, profiles)
    ensures |keys| == |drivers|
    ensures forall i :: 0 <= i < |drivers| ==> keys[i] == KeyOrZero(profiles[drivers[i]], k)
  {
    seq(|drivers|, i requires 0 <= i < |drivers| => KeyOrZero(profiles[drivers[i]], k))
  }

  predicate InRange(s: seq<nat>, n: nat)
  {
    forall i :: 0 <= i < |s| ==> s[i] < n
  }

  predicate NoNaN(keys: seq<Num>)
  {
    forall i :: 0 <= i < |keys| ==> !keys[i].NaN?
  }

  /**
   * Position a comes before position b in `sorted(..., reverse=True)`: a
   * larger key first, and on equal keys the earlier position first (the sort
   * is stable).
   */
  predicate Precedes(keys: seq<Num>, a: nat, b: nat)
    requires a < |keys| && b < |keys|
  {
    Less(keys[b], keys[a]) || (keys[a] == keys[b] && a < b)
  }

  predicate SortedBy(keys: seq<Num>, s: seq<nat>)
    requires InRange(s, |keys|)
  {
    forall i, j :: 0 <= i < j < |s| ==> Precedes(keys, s[i], s[j])
  }

  /** Insert position x into a sequence sorted by Precedes, after everything that precedes it. */
  function Insert(keys: seq<Num>, x: nat, s: seq<nat>): (r: seq<nat>)
    requires x < |keys| && InRange(s, |keys|)
    ensures |r| == |s| + 1
    ensures multiset(r) == multiset(s) + multiset{x}
    ensures InRange(r, |keys|)
  {
    if s == [] then [x]
    else if Precedes(keys, x, s[0]) then [x] + s
    else
      var t := Insert(keys, x, s[1..]);
      assert s == [s[0]] + s[1..];
      [s[0]] + t
  }

  function Range(n: nat): (r: seq<nat>)
    ensures |r| == n && forall i :: 0 <= i < n ==> r[i] == i
  {
    seq(n, i requires 0 <= i < n => i)
  }

  /** The stable descending sort of positions 0 .. n-1 by their keys (insertion sort). */
  function SortPositions(keys: seq<Num>, n: nat): (r: seq<nat>)
    requires n <= |keys|
    ensures |r| == n
    ensures InRange(r, |keys|)
    ensures multiset(r) == multiset(Range(n))
  {
    if n == 0 then []
    else
      assert Range(n) == Range(n - 1) + [n - 1];
      Insert(keys, n - 1, SortPositions(keys, n - 1))
  }

  /** Without NaN, Precedes is a strict total order on positions. */
  lemma PrecedesOrder(keys: seq<Num>, a: nat, b: nat, c: nat)
    requires NoNaN(keys) && a < |keys| && b < |keys| && c < |keys|
    ensures a != b ==> Precedes(keys, a, b) || Precedes(keys, b, a)
    ensures !Precedes(keys, a, a)
    ensures Precedes(keys, a, b) && Precedes(keys, b, c) ==> Precedes(keys, a, c)
  {
    LessTotal(keys[a], keys[b]);
    if Less(keys[b], keys[a]) && Less(keys[c], keys[b]) {
      LessTransitive(keys[c], keys[b], keys[a]);
    }
  }

  /** Position a precedes every position of s. */
  predicate Leads(keys: seq<Num>, a: nat, s: seq<nat>)
    requires a < |keys| && InRange(s, |keys|)
  {
    forall k :: 0 <= k < |s| ==> Precedes(keys, a, s[k])
  }

  lemma SortedTail(keys: seq<Num>, s: seq<nat>)
    requires InRange(s, |keys|) && SortedBy(keys, s) && s != []
    ensures InRange(s[1..], |keys|) && SortedBy(keys, s[1..]) && Leads(keys, s[0], s[1..])
  {
    forall i, j | 0 <= i < j < |s[1..]| ensures Precedes(keys, s[1..][i], s[1..][j]) {
      assert s[1..][i] == s[i + 1] && s[1..][j] == s[j + 1];
    }
    forall k | 0 <= k < |s[1..]| ensures Precedes(keys, s[0], s[1..][k]) {
      assert s[1..][k] == s[k + 1];
    }
  }

  lemma SortedCons(keys: seq<Num>, a: nat, t: seq<nat>)
    requires a < |keys| && InRange(t, |keys|) && Leads(keys, a, t) && SortedBy(keys, t)
    ensures InRange([a] + t, |keys|) && SortedBy(keys, [a] + t)
  {
    var r := [a] + t;
    forall i, j | 0 <= i < j < |r| ensures Precedes(keys, r[i], r[j]) {
      assert r[j] == t[j - 1];
      if i > 0 {
        assert r[i] == t[i - 1];
      }
    }
  }

  /** Inserting a position that a precedes keeps a in the lead. */
  lemma LeadsInsert(keys: seq<Num>, a: nat, x: nat, s: seq<nat>)
    requires a < |keys| && x < |keys| && InRange(s, |keys|)
    requires Leads(keys, a, s) && Precedes(keys, a, x)
    ensures Leads(keys, a, Insert(keys, x, s))
  {
    var r := Insert(keys, x, s);
    forall k | 0 <= k < |r| ensures Precedes(keys, a, r[k]) {
      assert r[k] in multiset(r);
      if r[k] != x {
        assert r[k] in multiset(s);
        var j :| 0 <= j < |s| && s[j] == r[k];
      }
    }
  }

  lemma {:induction false} InsertSorted(keys: seq<Num>, x: nat, s: seq<nat>)
    requires NoNaN(keys) && x < |keys| && InRange(s, |keys|)
    requires SortedBy(keys, s) && x !in s
    ensures SortedBy(keys, Insert(keys, x, s))
  {
    if s != [] && !Precedes(keys, x, s[0]) {
      SortedTail(keys, s);
      assert x !in s[1..];
      InsertSorted(keys, x, s[1..]);
      PrecedesOrder(keys, x, s[0], x);
      LeadsInsert(keys, s[0], x, s[1..]);
      SortedCons(keys, s[0], Insert(keys, x, s[1..]));
    } else if s != [] {
      forall k | 0 <= k < |s| ensures Precedes(keys, x, s[k]) {
        if k > 0 {
          PrecedesOrder(keys, x, s[0], s[k]);
        }
      }
      SortedCons(keys, x, s);
    }
  }

  lemma {:induction false} SortPositionsSorted(keys: seq<Num>, n: nat)
    requires NoNaN(keys) && n <= |keys|
    ensures SortedBy(keys, SortPositions(keys, n))
  {
    if n > 0 {
      var s := SortPositions(keys, n - 1);
      SortPositionsSorted(keys, n - 1);
      assert n - 1 !in multiset(Range(n - 1));
      InsertSorted(keys, n - 1, s);
    }
  }

  /** `sorted(drivers, key=..., reverse=True)[:2]`, as positions. */
  function TopTwoPositions(keys: seq<Num>): (t: seq<nat>)
    ensures |t| == if |keys| < 2 then |keys| else 2
    ensures InRange(t, |keys|)
  {
    var r := SortPositions(keys, |keys|);
    r[..if |keys| < 2 then |keys| else 2]
  }

  /**
   * The top positions are distinct, in order, and each precedes every other
   * position: its key is at least as large, and on a tie it comes earlier.
   */
  lemma TopTwoSelects(keys: seq<Num>)
    requires NoNaN(keys)
    ensures var t := TopTwoPositions(keys);
      && (|t| == 2 ==> Precedes(keys, t[0], t[1]))
      && (forall i, b :: 0 <= i < |t| && 0 <= b < |keys| && b !in t ==> Precedes(keys, t[i], b))
  {
    var r := SortPositions(keys, |keys|);
    var t := TopTwoPositions(keys);
    SortPositionsSorted(keys, |keys|);
    forall i, b | 0 <= i < |t| && 0 <= b < |keys| && b !in t
      ensures Precedes(keys, t[i], b)
    {
      assert Range(|keys|)[b] == b;
      assert b in multiset(r);
      var k :| 0 <= k < |r| && r[k] == b;
    }
  }

  /** The two drivers with the largest value under `k` (a missing value counting as 0). */
  function TopTwo(drivers: seq<string>, profiles: map<string, Profile>, k: Key): (top: seq<string>)
    requires AllPresent(drivers, profiles)
    ensures |top| == if |drivers| < 2 then |drivers| else 2
  {
    var t := TopTwoPositions(SortKeys(drivers, profiles, k));
    seq(|t|, i requires 0 <= i < |t| => drivers[t[i]])
  }

  datatype Archetypes = Archetypes(aggressive: seq<string>, smooth: seq<string>)

  /** Computed when the profile dict is non-empty; a driver without a profile raises and is caught. */
  function ArchetypesOf(drivers: seq<string>, profiles: map<string, Profile>): (a: Option<Archetypes>)
    ensures a.Some? <==> |profiles| > 0 && AllPresent(drivers, profiles)
  {
    if |profiles| > 0 && AllPresent(drivers, profiles) then
      Some(Archetypes(TopTwo(drivers, profiles, ThrottleAggression), TopTwo(drivers, profiles, ThrottleSmoothness)))
    else None
  }

  // ---------------------------------------------------------------------
  // Insights
  // ---------------------------------------------------------------------

  /** What print_analysis_insights reports; `Insufficient` is its early return. */
  datatype Insights =
    | Insufficient
    | Insights(pair: Option<(nat, nat)>, similarity: real, archetypes: Option<Archetypes>)

  /** `similarity_matrix.size == 0` for a matrix stored by rows. */
  predicate EmptyMatrix(sim: seq<seq<real>>)
  {
    |sim| == 0 || |sim[0]| == 0
  }

  method AnalysisInsights(sim: seq<seq<real>>, drivers: seq<string>, profiles: map<string, Profile>) returns (ins: Insights)
    requires !EmptyMatrix(sim) && |drivers| >= 2 ==> Rows(sim, |drivers|)
    ensures ins.Insufficient? <==> EmptyMatrix(sim) || |drivers| < 2
    ensures ins.Insights? ==> Rows(sim, |drivers|) && IsMostSimilar(sim, |drivers|, ins.pair, ins.similarity)
    ensures ins.Insights? ==> ins.archetypes == ArchetypesOf(drivers, profiles)
  {
    if EmptyMatrix(sim) || |drivers| < 2 {
      return Insufficient;
    }
    var pair, similarity := MostSimilarPair(sim, |drivers|);
    ins := Insights(pair, similarity, ArchetypesOf(drivers, profiles));
  }

  // ---------------------------------------------------------------------
  // The per-track pipeline
  // ---------------------------------------------------------------------

  /** What a track's analysis returns: the figure and the profile dict. */
  datatype TrackResult = TrackResult(figure: Figure, profiles: map<string, Profile>)

  /** Rows each driver contributes to clustering (the default of cluster_track_data). */
  const SAMPLES_PER_DRIVER: nat := 800

  /** A track is analysed only with more than this many loaded rows. */
  const MIN_ROWS: nat := 100

  const TRACKS: seq<string> := ["Australia", "Bahrain", "China", "Japan"]

  function TrackAnalysis(rows: seq<FeatureRow>, lib: Lib): TrackResult
  {
    var s := SimilarityOf(rows, lib);
    TrackResult(CreateVisualizations(s.sim, s.drivers, s.profiles), s.profiles)
  }

  /**
   * What print_analysis_insights reports for a similarity result: nothing
   * without a matrix or with fewer than two drivers, and otherwise the most
   * similar pair and the archetypes of its drivers.
   */
  predicate InsightsAbout(s: Similarity, ins: Insights)
  {
    && (ins.Insufficient? <==> s.sim == [] || |s.drivers| < 2)
    && (ins.Insights? ==> Rows(s.sim, |s.drivers|) && IsMostSimilar(s.sim, |s.drivers|, ins.pair, ins.similarity))
    && (ins.Insights? ==> ins.archetypes == ArchetypesOf(s.drivers, s.profiles))
  }

  /** analyze_track_driving_styles: similarity, figure and insights for the clustered rows. */
  method AnalyzeTrackDrivingStyles(rows: seq<FeatureRow>, lib: Lib) returns (r: TrackResult, ins: Insights)
    ensures r == TrackAnalysis(rows, lib)
    ensures var s := SimilarityOf(rows, lib);
      ins.Insufficient? <==> s.sim == [] || |s.drivers| < 2
    ensures var s := SimilarityOf(rows, lib);
      ins.Insights? ==> Rows(s.sim, |s.drivers|) && IsMostSimilar(s.sim, |s.drivers|, ins.pair, ins.similarity)
    ensures var s := SimilarityOf(rows, lib);
      ins.Insights? ==> ins.archetypes == ArchetypesOf(s.drivers, s.profiles)
  {
    var s := AnalyzeSimilarity(rows, lib);
    SimilarityMatrix(rows, lib);
    r := TrackResult(CreateVisualizations(s.sim, s.drivers, s.profiles), s.profiles);
    ins := AnalysisInsights(s.sim, s.drivers, s.profiles);
  }

  /** Whether a track's files load to more than MIN_ROWS rows. */
  predicate Sufficient(files: seq<CsvFile>, lib: Lib)
    requires AllCsv(files)
  {
    var loaded := LoadTrack(files, lib);
    loaded.Some? && |loaded.value.data| > MIN_ROWS
  }

  /** The rows `cluster_track_data` returns for a track with enough data. */
  function ClusteredRows(files: seq<CsvFile>, track: string, lib: Lib): seq<FeatureRow>
    requires AllCsv(files) && lib.Valid() && Sufficient(files, lib)
  {
    ClusterTrack(LoadTrack(files, lib).value.data, track, SAMPLES_PER_DRIVER, lib).rows
  }

  function SingleTrack(files: seq<CsvFile>, track: string, lib: Lib): (r: Option<TrackResult>)
    requires AllCsv(files) && lib.Valid()
    ensures r.Some? <==> Sufficient(files, lib)
  {
    if Sufficient(files, lib) then Some(TrackAnalysis(ClusteredRows(files, track, lib), lib)) else None
  }

  /**
   * analyze_single_track: load, and with more than MIN_ROWS rows cluster and
   * analyse; otherwise report nothing.
   */
  method AnalyzeSingleTrack(files: seq<CsvFile>, track: string, lib: Lib) returns (r: Option<TrackResult>, ins: Option<Insights>)
    requires AllCsv(files) && lib.Valid()
    ensures r == SingleTrack(files, track, lib)
    ensures r.Some? <==> Sufficient(files, lib)
    ensures ins.Some? <==> r.Some?
    ensures ins.Some? ==> Sufficient(files, lib) && InsightsAbout(SimilarityOf(ClusteredRows(files, track, lib), lib), ins.value)
  {
    var loaded := LoadTrackData(files, lib);
    if loaded.Some? && |loaded.value.data| > MIN_ROWS {
      var clustered := ClusterTrackData(loaded.value.data, track, SAMPLES_PER_DRIVER, lib);
      var result, insights := AnalyzeTrackDrivingStyles(clustered.rows, lib);
      return Some(result), Some(insights);
    }
    return None, None;
  }

  /** The results map after going through `tracks` in order, keeping each track `f` gives a result for. */
  function Collect<R>(tracks: seq<string>, f: string -> Option<R>): map<string, R>
  {
    if tracks == [] then map[]
    else
      var n := |tracks| - 1;
      var pre := Collect(tracks[..n], f);
      if f(tracks[n]).Some? then pre[tracks[n] := f(tracks[n]).value] else pre
  }

  /** A track is in the map exactly when it is listed and has a result, and then with that result. */
  lemma {:induction false} CollectEntry<R>(tracks: seq<string>, f: string -> Option<R>, t: string)
    ensures t in Collect(tracks, f) <==> t in tracks && f(t).Some?
    ensures t in Collect(tracks, f) ==> Some(Collect(tracks, f)[t]) == f(t)
  {
    if tracks != [] {
      var n := |tracks| - 1;
      CollectEntry(tracks[..n], f, t);
      assert tracks == tracks[..n] + [tracks[n]];
    }
  }

  lemma CollectStep<R>(tracks: seq<string>, f: string -> Option<R>, i: nat)
    requires i < |tracks|
    ensures Collect(tracks[..i + 1], f)
      == if f(tracks[i]).Some? then Collect(tracks[..i], f)[tracks[i] := f(tracks[i]).value] else Collect(tracks[..i], f)
  {
    assert tracks[..i + 1][..i] == tracks[..i];
  }

  /** The analysis of each track, as a function of the track's name. */
  function PerTrack(filesOf: string -> CsvListing, lib: Lib): (f: string -> Option<TrackResult>)
    requires lib.Valid()
    ensures forall t :: f(t) == SingleTrack(filesOf(t), t, lib)
  {
    t => SingleTrack(filesOf(t), t, lib)
  }

  /** The per-track loop of the pipeline, over any list of tracks. */
  method AnalyzeTracks(tracks: seq<string>, filesOf: string -> CsvListing, lib: Lib) returns (results: map<string, TrackResult>)
    requires lib.Valid()
    ensures results == Collect(tracks, PerTrack(filesOf, lib))
  {
    ghost var f := PerTrack(filesOf, lib);
    results := map[];
    var i := 0;
    while i < |tracks|
      invariant 0 <= i <= |tracks|
      invariant results == Collect(tracks[..i], f)
    {
      var track := tracks[i];
      var result, _ := AnalyzeSingleTrack(filesOf(track), track, lib);
      CollectStep(tracks, f, i);
      if result.Some? {
        results := results[track := result.value];
      }
      i := i + 1;
    }
    assert tracks[..i] == tracks;
  }

  /**
   * analyze_all_tracks_driving_styles: the result map holds exactly the
   * tracks that were analysed, each with its result.
   */
  method AnalyzeAllTracks(filesOf: string -> CsvListing, lib: Lib) returns (results: map<string, TrackResult>)
    requires lib.Valid()
    ensures forall t :: t in results <==> t in TRACKS && Sufficient(filesOf(t), lib)
    ensures forall t :: t in results ==> Some(results[t]) == SingleTrack(filesOf(t), t, lib)
  {
    results := AnalyzeTracks(TRACKS, filesOf, lib);
    forall t {
      CollectEntry(TRACKS, PerTrack(filesOf, lib), t);
    }
  }
}
