/**
 * Clustering of a track's combined table: per-driver balancing of the rows,
 * the DBSCAN parameter lookup, the feature matrix handed to DBSCAN and the
 * cluster and noise counts; then the per-driver driving-style profiles and
 * the similarity matrix built from them.
 */
module Clustering {
  import opened Wrappers
  import opened Numeric
  import opened Config
  import opened Foreign
  import opened Processing

  // ---------------------------------------------------------------------
  // Distinct drivers in first-appearance order (`Series.unique()`)
  // ---------------------------------------------------------------------

  function DriverColumn(data: seq<FeatureRow>): (ds: seq<string>)
    ensures |ds| == |data|
    ensures forall i :: 0 <= i < |data| ==> ds[i] == data[i].driver
  {
    seq(|data|, i requires 0 <= i < |data| => data[i].driver)
  }

  /** The distinct values of `xs`, each once, in the order of their first occurrence. */
  function Unique(xs: seq<string>): (u: seq<string>)
    ensures Distinct(u)
    ensures forall x :: x in u <==> x in xs
  {
    if xs == [] then []
    else
      var n := |xs| - 1;
      var pre := Unique(xs[..n]);
      assert xs == xs[..n] + [xs[n]];
      if xs[n] in pre then pre else pre + [xs[n]]
  }

  /** Every occurrence of a later value of `u` in `xs` is preceded by an occurrence of each earlier one. */
  predicate InFirstAppearanceOrder(u: seq<string>, xs: seq<string>)
  {
    forall i, j, p :: 0 <= i < j < |u| && 0 <= p < |xs| && xs[p] == u[j] ==> u[i] in xs[..p]
  }

  lemma {:induction false} UniqueOrder(xs: seq<string>)
    ensures InFirstAppearanceOrder(Unique(xs), xs)
  {
    if xs != [] {
      var n := |xs| - 1;
      var ys := xs[..n];
      var pre := Unique(ys);
      var u := Unique(xs);
      UniqueOrder(ys);
      forall i, j, p | 0 <= i < j < |u| && 0 <= p < |xs| && xs[p] == u[j]
        ensures u[i] in xs[..p]
      {
        assert u[i] == pre[i];
        if p < n {
          assert xs[..p] == ys[..p];
          assert ys[p] == xs[p];
          if j == |pre| {
            assert false;
          }
          assert u[j] == pre[j];
        } else {
          assert xs[..p] == ys;
          assert pre[i] in pre;
        }
      }
    }
  }

  // ---------------------------------------------------------------------
  // Per-driver balancing (the `sampled_data` loop)
  // ---------------------------------------------------------------------

  /** `rs` holds every copy of each row of driver `d` in `data`, and nothing else. */
  ghost predicate AllRowsOf(rs: seq<FeatureRow>, data: seq<FeatureRow>, d: string)
  {
    forall r :: multiset(rs)[r] == if r.driver == d then multiset(data)[r] else 0
  }

  /** `data[data['Driver'] == d]`: the rows of one driver, in table order. */
  function RowsOf(data: seq<FeatureRow>, d: string): (rs: seq<FeatureRow>)
    ensures |rs| <= |data|
    ensures forall r :: r in rs <==> r in data && r.driver == d
    ensures multiset(rs) <= multiset(data)
    ensures AllRowsOf(rs, data, d)
  {
    if data == [] then []
    else
      var n := |data| - 1;
      assert data == data[..n] + [data[n]];
      var pre := RowsOf(data[..n], d);
      if data[n].driver == d then pre + [data[n]] else pre
  }

  lemma {:induction false} RowsOfAppend(a: seq<FeatureRow>, b: seq<FeatureRow>, d: string)
    ensures RowsOf(a + b, d) == RowsOf(a, d) + RowsOf(b, d)
  {
    if b != [] {
      var n := |b| - 1;
      assert (a + b)[..|a + b| - 1] == a + b[..n];
      RowsOfAppend(a, b[..n], d);
    } else {
      assert a + b == a;
    }
  }

  /** A table whose rows all belong to one driver is its own row set for that driver and has none for the others. */
  lemma {:induction false} RowsOfUniform(rows: seq<FeatureRow>, e: string, d: string)
    requires forall r :: r in rows ==> r.driver == e
    ensures RowsOf(rows, d) == if d == e then rows else []
  {
    if rows != [] {
      var n := |rows| - 1;
      assert rows[n] in rows;
      assert forall r :: r in rows[..n] ==> r in rows;
      RowsOfUniform(rows[..n], e, d);
      assert rows == rows[..n] + [rows[n]];
    }
  }

  /** The rows at the listed positions, in the listed order. */
  function Gather(rows: seq<FeatureRow>, sel: seq<nat>): (g: seq<FeatureRow>)
    requires forall k :: 0 <= k < |sel| ==> sel[k] < |rows|
    ensures |g| == |sel|
    ensures forall k :: 0 <= k < |sel| ==> g[k] == rows[sel[k]]
  {
    if sel == [] then []
    else Gather(rows, sel[..|sel| - 1]) + [rows[sel[|sel| - 1]]]
  }

  /** Distinct positions pick a sub-multiset: no row is taken twice. */
  lemma {:induction false} GatherSubMultiset(rows: seq<FeatureRow>, sel: seq<nat>)
    requires forall k :: 0 <= k < |sel| ==> sel[k] < |rows|
    requires forall a, b :: 0 <= a < b < |sel| ==> sel[a] != sel[b]
    ensures multiset(Gather(rows, sel)) <= multiset(rows)
    decreases |sel|
  {
    if sel != [] {
      var m := |sel| - 1;
      var j := sel[m];
      var sel' := Shift(sel[..m], j);
      GatherShift(rows, sel[..m], j);
      GatherSubMultiset(Without(rows, j), sel');
      WithoutMultiset(rows, j);
      assert Gather(rows, sel) == Gather(rows, sel[..m]) + [rows[j]];
    }
  }

  /** The rows with position j taken out. */
  function Without(rows: seq<FeatureRow>, j: nat): (w: seq<FeatureRow>)
    requires j < |rows|
    ensures |w| == |rows| - 1
  {
    rows[..j] + rows[j + 1..]
  }

  lemma WithoutMultiset(rows: seq<FeatureRow>, j: nat)
    requires j < |rows|
    ensures multiset(rows) == multiset(Without(rows, j)) + multiset{rows[j]}
  {
    assert rows == rows[..j] + [rows[j]] + rows[j + 1..];
  }

  /** Positions renumbered for the rows without position j. */
  function Shift(sel: seq<nat>, j: nat): (s: seq<nat>)
    ensures |s| == |sel|
  {
    seq(|sel|, k requires 0 <= k < |sel| => if sel[k] <= j then sel[k] else sel[k] - 1)
  }

  /** Row `p` of the table other than `j` sits at `p` or `p - 1` once row `j` is removed. */
  lemma WithoutAt(rows: seq<FeatureRow>, j: nat, p: nat)
    requires j < |rows| && p < |rows| && p != j
    ensures var q := if p <= j then p else p - 1;
      q < |Without(rows, j)| && Without(rows, j)[q] == rows[p]
  {
    if p < j {
      assert Without(rows, j)[p] == rows[..j][p];
    } else {
      assert Without(rows, j)[p - 1] == rows[j + 1..][p - 1 - j];
    }
  }

  /** Renumbering distinct positions other than `j` keeps them in range of the shortened rows and distinct. */
  lemma ShiftDistinct(n: nat, sel: seq<nat>, j: nat)
    requires j < n
    requires forall k :: 0 <= k < |sel| ==> sel[k] < n && sel[k] != j
    requires forall a, b :: 0 <= a < b < |sel| ==> sel[a] != sel[b]
    ensures forall k :: 0 <= k < |sel| ==> Shift(sel, j)[k] < n - 1
    ensures forall a, b :: 0 <= a < b < |sel| ==> Shift(sel, j)[a] != Shift(sel, j)[b]
  {
  }

  /** Taking the renumbered positions from the shortened rows picks the same rows. */
  lemma GatherShift(rows: seq<FeatureRow>, sel: seq<nat>, j: nat)
    requires j < |rows|
    requires forall k :: 0 <= k < |sel| ==> sel[k] < |rows| && sel[k] != j
    requires forall a, b :: 0 <= a < b < |sel| ==> sel[a] != sel[b]
    ensures forall k :: 0 <= k < |sel| ==> Shift(sel, j)[k] < |Without(rows, j)|
    ensures forall a, b :: 0 <= a < b < |sel| ==> Shift(sel, j)[a] != Shift(sel, j)[b]
    ensures Gather(Without(rows, j), Shift(sel, j)) == Gather(rows, sel)
  {
    ShiftDistinct(|rows|, sel, j);
    var w := Without(rows, j);
    var s := Shift(sel, j);
    forall k | 0 <= k < |sel|
      ensures s[k] < |w| && w[s[k]] == rows[sel[k]]
    {
      assert s[k] == if sel[k] <= j then sel[k] else sel[k] - 1;
      WithoutAt(rows, j, sel[k]);
    }
    GatherSame(w, s, rows, sel);
  }

  /** Two selections that pick the same row at every place gather the same rows. */
  lemma GatherSame(a: seq<FeatureRow>, sa: seq<nat>, b: seq<FeatureRow>, sb: seq<nat>)
    requires |sa| == |sb|
    requires forall k :: 0 <= k < |sa| ==> sa[k] < |a| && sb[k] < |b| && a[sa[k]] == b[sb[k]]
    ensures Gather(a, sa) == Gather(b, sb)
  {
    var g1 := Gather(a, sa);
    var g2 := Gather(b, sb);
    assert forall k :: 0 <= k < |sa| ==> g1[k] == g2[k];
  }

  /**
   * What one driver contributes: a seeded sample of `cap` rows when it has
   * more than `cap`, all its rows otherwise.
   */
  function Pick(rows: seq<FeatureRow>, cap: nat, lib: Lib): (s: seq<FeatureRow>)
    requires lib.Valid()
    ensures |s| == if |rows| > cap then cap else |rows|
    ensures multiset(s) <= multiset(rows)
  {
    if |rows| > cap then
      var sel := lib.sample(|rows|, cap);
      assert IsSelection(sel, |rows|, cap);
      GatherSubMultiset(rows, sel);
      Gather(rows, sel)
    else rows
  }

  /** The rows of the drivers `ds`, block after block. */
  function BalancedOver(ds: seq<string>, data: seq<FeatureRow>, cap: nat, lib: Lib): seq<FeatureRow>
    requires lib.Valid()
  {
    if ds == [] then []
    else
      var n := |ds| - 1;
      BalancedOver(ds[..n], data, cap, lib) + Pick(RowsOf(data, ds[n]), cap, lib)
  }

  /** The `drivers` of the table in first-appearance order. */
  function Drivers(data: seq<FeatureRow>): seq<string>
  {
    Unique(DriverColumn(data))
  }

  /** `pd.concat(sampled_data)` after the loop. */
  function Balanced(data: seq<FeatureRow>, cap: nat, lib: Lib): seq<FeatureRow>
    requires lib.Valid()
  {
    BalancedOver(Drivers(data), data, cap, lib)
  }

  /**
   * The balancing loop: one block per driver, in first-appearance order,
   * concatenated at the end.
   */
  method BalanceByDriver(data: seq<FeatureRow>, cap: nat, lib: Lib) returns (clustered: seq<FeatureRow>)
    requires lib.Valid()
    ensures clustered == Balanced(data, cap, lib)
  {
    var drivers := Drivers(data);
    var sampledData: seq<seq<FeatureRow>> := [];
    var i := 0;
    while i < |drivers|
      invariant 0 <= i <= |drivers|
      invariant Concat(sampledData) == BalancedOver(drivers[..i], data, cap, lib)
    {
      var driverData := RowsOf(data, drivers[i]);
      var driverSample := Pick(driverData, cap, lib);
      BalancedStep(sampledData, driverSample, drivers, i, data, cap, lib);
      sampledData := sampledData + [driverSample];
      i := i + 1;
    }
    assert drivers[..i] == drivers;
    clustered := Concat(sampledData);
  }

  lemma BalancedStep(
    blocks: seq<seq<FeatureRow>>, block: seq<FeatureRow>, ds: seq<string>, i: nat,
    data: seq<FeatureRow>, cap: nat, lib: Lib)
    requires lib.Valid() && i < |ds|
    requires block == Pick(RowsOf(data, ds[i]), cap, lib)
    ensures Concat(blocks + [block]) == Concat(blocks) + block
    ensures BalancedOver(ds[..i + 1], data, cap, lib) == BalancedOver(ds[..i], data, cap, lib) + block
  {
    assert (blocks + [block])[..|blocks|] == blocks;
    assert ds[..i + 1][..i] == ds[..i];
  }

  function Min(a: nat, b: nat): nat
  {
    if a < b then a else b
  }

  /** The sum over the drivers `ds` of min(rows of the driver, cap). */
  function Quota(ds: seq<string>, data: seq<FeatureRow>, cap: nat): nat
  {
    if ds == [] then 0
    else Quota(ds[..|ds| - 1], data, cap) + Min(|RowsOf(data, ds[|ds| - 1])|, cap)
  }

  /** The balanced table has exactly the sum of the per-driver minima as its row count. */
  lemma {:induction false} BalancedSize(ds: seq<string>, data: seq<FeatureRow>, cap: nat, lib: Lib)
    requires lib.Valid()
    ensures |BalancedOver(ds, data, cap, lib)| == Quota(ds, data, cap)
  {
    if ds != [] {
      BalancedSize(ds[..|ds| - 1], data, cap, lib);
    }
  }

  /**
   * Filtering the balanced table by a driver gives back exactly that driver's
   * own pick, and nothing for a driver not listed.
   */
  lemma {:induction false} BalancedPerDriver(ds: seq<string>, data: seq<FeatureRow>, cap: nat, lib: Lib, d: string)
    requires lib.Valid() && Distinct(ds)
    ensures RowsOf(BalancedOver(ds, data, cap, lib), d) == if d in ds then Pick(RowsOf(data, d), cap, lib) else []
  {
    if ds != [] {
      var n := |ds| - 1;
      var e := ds[n];
      var pre := ds[..n];
      assert ds == pre + [e];
      assert Distinct(pre);
      BalancedPerDriver(pre, data, cap, lib, d);
      var block := Pick(RowsOf(data, e), cap, lib);
      PickOwnRows(data, e, cap, lib);
      RowsOfUniform(block, e, d);
      RowsOfAppend(BalancedOver(pre, data, cap, lib), block, d);
      if d == e {
        assert d !in pre;
      }
    }
  }

  /** A driver's pick holds only that driver's rows. */
  lemma PickOwnRows(data: seq<FeatureRow>, e: string, cap: nat, lib: Lib)
    requires lib.Valid()
    ensures forall r :: r in Pick(RowsOf(data, e), cap, lib) ==> r.driver == e
  {
    var rows := RowsOf(data, e);
    var block := Pick(rows, cap, lib);
    forall r | r in block
      ensures r.driver == e
    {
      assert r in multiset(block);
      assert r in multiset(rows);
    }
  }

  /**
   * Each driver of the table contributes exactly min(its rows, cap) rows,
   * all of them its own rows and none taken twice, and the whole table has
   * the sum of those minima as its size.
   */
  lemma BalancedContribution(data: seq<FeatureRow>, cap: nat, lib: Lib, d: string)
    requires lib.Valid()
    ensures var got := RowsOf(Balanced(data, cap, lib), d);
      |got| == Min(|RowsOf(data, d)|, cap) && multiset(got) <= multiset(RowsOf(data, d))
    ensures |Balanced(data, cap, lib)| == Quota(Drivers(data), data, cap)
  {
    var ds := Drivers(data);
    BalancedPerDriver(ds, data, cap, lib, d);
    BalancedSize(ds, data, cap, lib);
    if d !in ds {
      AbsentDriverHasNoRows(data, d);
    }
  }

  /** A driver that `Drivers` does not list has no rows. */
  lemma AbsentDriverHasNoRows(data: seq<FeatureRow>, d: string)
    requires d !in Drivers(data)
    ensures RowsOf(data, d) == []
  {
  }

  // ---------------------------------------------------------------------
  // DBSCAN input and the cluster bookkeeping
  // ---------------------------------------------------------------------

  /** `TRACK_CLUSTERING_PARAMS.get(track, DEFAULT_CLUSTERING_PARAMS)`. */
  function ParamsFor(track: string): (p: ClusterParams)
    ensures track !in TRACK_CLUSTERING_PARAMS ==> p == DEFAULT_CLUSTERING_PARAMS
    ensures track in TRACK_CLUSTERING_PARAMS ==> p == TRACK_CLUSTERING_PARAMS[track]
    ensures p.eps > 0.0 && p.minSamples >= 1
  {
    ClusterParamsSane();
    if track in TRACK_CLUSTERING_PARAMS then TRACK_CLUSTERING_PARAMS[track] else DEFAULT_CLUSTERING_PARAMS
  }

  /** The FEATURE_COLUMNS values of each row after `nan_to_num`. */
  function FeatureMatrix(rows: seq<FeatureRow>): (m: seq<seq<real>>)
    ensures |m| == |rows|
    ensures forall i :: 0 <= i < |rows| ==> |m[i]| == |FEATURE_COLUMNS|
  {
    seq(|rows|, i requires 0 <= i < |rows| =>
      seq(|FEATURE_COLUMNS|, k requires 0 <= k < |FEATURE_COLUMNS| => NanToNum(Fin(Column(rows[i], FEATURE_COLUMNS[k])))))
  }

  /** The feature rows are finite, so `nan_to_num` hands DBSCAN the column values unchanged. */
  lemma FeatureMatrixIsColumns(rows: seq<FeatureRow>, i: nat, k: nat)
    requires i < |rows| && k < |FEATURE_COLUMNS|
    ensures FeatureMatrix(rows)[i][k] == Column(rows[i], FEATURE_COLUMNS[k])
  {
  }

  /** Number of labels equal to -1 (`list(clusters).count(-1)`). */
  function NoiseCount(labels: seq<int>): (n: nat)
    ensures n == multiset(labels)[-1]
  {
    if labels == [] then 0
    else
      var m := |labels| - 1;
      assert labels == labels[..m] + [labels[m]];
      NoiseCount(labels[..m]) + (if labels[m] == -1 then 1 else 0)
  }

  /** The labels that name a cluster. */
  function ClusterLabels(labels: seq<int>): set<int>
  {
    set l | l in labels && l != -1
  }

  /** `len(set(clusters)) - (1 if -1 in clusters else 0)`. */
  function ClusterCount(labels: seq<int>): (c: int)
    ensures c == |ClusterLabels(labels)|
  {
    var all := set l | l in labels;
    if -1 in labels then
      assert all == ClusterLabels(labels) + {-1};
      |all| - 1
    else
      assert all == ClusterLabels(labels);
      |all|
  }

  /** Every cluster has at least one member: clusters and noise points together never outnumber the points. */
  lemma {:induction false} CountsBounded(labels: seq<int>)
    ensures ClusterCount(labels) + NoiseCount(labels) <= |labels|
  {
    if labels != [] {
      var m := |labels| - 1;
      var pre := labels[..m];
      CountsBounded(pre);
      assert labels == pre + [labels[m]];
      if labels[m] == -1 {
        assert ClusterLabels(labels) == ClusterLabels(pre);
      } else {
        assert ClusterLabels(labels) == ClusterLabels(pre) + {labels[m]};
        assert |ClusterLabels(pre) + {labels[m]}| <= |ClusterLabels(pre)| + 1;
      }
    }
  }

  /** The result of cluster_track_data: the balanced rows, their labels and the two counts printed. */
  datatype Clustered = Clustered(rows: seq<FeatureRow>, labels: seq<int>, nClusters: int, nNoise: nat)

  /** One DBSCAN label per row of the matrix. */
  function Labels(m: seq<seq<real>>, p: ClusterParams, lib: Lib): (ls: seq<int>)
    ensures |ls| == |m|
  {
    seq(|m|, i requires 0 <= i < |m| => lib.dbscan(m, p.eps, p.minSamples, i))
  }

  function ClusterTrack(data: seq<FeatureRow>, track: string, cap: nat, lib: Lib): Clustered
    requires lib.Valid()
  {
    var rows := Balanced(data, cap, lib);
    var labels := Labels(FeatureMatrix(rows), ParamsFor(track), lib);
    Clustered(rows, labels, ClusterCount(labels), NoiseCount(labels))
  }

  /** A non-empty table and a positive cap give a non-empty balanced table, so the noise share is defined. */
  lemma BalancedNonEmpty(data: seq<FeatureRow>, cap: nat, lib: Lib)
    requires lib.Valid() && |data| > 0 && cap > 0
    ensures |Balanced(data, cap, lib)| > 0
  {
    var d := data[0].driver;
    assert data[0] in RowsOf(data, d);
    BalancedContribution(data, cap, lib, d);
    assert |RowsOf(Balanced(data, cap, lib), d)| > 0;
  }

  /**
   * cluster_track_data: balance the rows per driver, hand the feature matrix
   * to DBSCAN with the track's parameters, attach the labels and count
   * clusters and noise points.
   */
  method ClusterTrackData(data: seq<FeatureRow>, track: string, cap: nat, lib: Lib) returns (c: Clustered)
    requires lib.Valid() && |data| > 0 && cap > 0
    ensures c == ClusterTrack(data, track, cap, lib)
    ensures |c.rows| > 0 && |c.labels| == |c.rows|
    ensures c.nNoise == multiset(c.labels)[-1]
    ensures c.nClusters == |ClusterLabels(c.labels)|
    ensures c.nClusters + c.nNoise <= |c.labels|
  {
    var clustered := BalanceByDriver(data, cap, lib);
    BalancedNonEmpty(data, cap, lib);
    var features := FeatureMatrix(clustered);
    var params := ParamsFor(track);
    var clusters := Labels(features, params, lib);
    CountsBounded(clusters);
    c := Clustered(clustered, clusters, ClusterCount(clusters), NoiseCount(clusters));
  }

  // ---------------------------------------------------------------------
  // Driving-style profiles
  // ---------------------------------------------------------------------

  /** The keys of a driver profile; `KeyName` gives the name the dict uses. */
  datatype Key =
    | AvgSpeed | SpeedVariability | MaxSpeed | ThrottleAggression
    | ThrottleSmoothness | BrakeFrequency | BrakeIntensity | GearEfficiency
    | AccelerationPattern | AccelerationVariability | CorneringStyle | StraightLineStyle

  function KeyName(k: Key): string
  {
    match k
    case AvgSpeed => "avg_speed"
    case SpeedVariability => "speed_variability"
    case MaxSpeed => "max_speed"
    case ThrottleAggression => "throttle_aggression"
    case ThrottleSmoothness => "throttle_smoothness"
    case BrakeFrequency => "brake_frequency"
    case BrakeIntensity => "brake_intensity"
    case GearEfficiency => "gear_efficiency"
    case AccelerationPattern => "acceleration_pattern"
    case AccelerationVariability => "acceleration_variability"
    case CorneringStyle => "cornering_style"
    case StraightLineStyle => "straight_line_style"
  }

  /** A driver profile: a dict from key to value. */
  type Profile = map<Key, Num>

  /** The keys in the order the profile dict is built, which is the order of its feature columns. */
  const PROFILE_KEYS: seq<Key> := [
    AvgSpeed, SpeedVariability, MaxSpeed, ThrottleAggression,
    ThrottleSmoothness, BrakeFrequency, BrakeIntensity, GearEfficiency,
    AccelerationPattern, AccelerationVariability, CorneringStyle, StraightLineStyle
  ]

  const ALL_KEYS: set<Key> := {
    AvgSpeed, SpeedVariability, MaxSpeed, ThrottleAggression,
    ThrottleSmoothness, BrakeFrequency, BrakeIntensity, GearEfficiency,
    AccelerationPattern, AccelerationVariability, CorneringStyle, StraightLineStyle
  }

  lemma AllKeys()
    ensures forall k: Key :: k in ALL_KEYS
  {
    forall k: Key
      ensures k in ALL_KEYS
    {
      match k
      case AvgSpeed =>
      case SpeedVariability =>
      case MaxSpeed =>
      case ThrottleAggression =>
      case ThrottleSmoothness =>
      case BrakeFrequency =>
      case BrakeIntensity =>
      case GearEfficiency =>
      case AccelerationPattern =>
      case AccelerationVariability =>
      case CorneringStyle =>
      case StraightLineStyle =>
    }
  }

  /** A profile with a value under every key. */
  predicate Complete(p: Profile)
  {
    forall k: Key :: k in p
  }

  /** The radar metrics as profile keys. */
  const RADAR_KEYS: seq<Key> := [ThrottleAggression, ThrottleSmoothness, BrakeIntensity, SpeedVariability, AccelerationPattern]

  /** Every key appears exactly once in PROFILE_KEYS. */
  lemma ProfileKeysComplete()
    ensures |PROFILE_KEYS| == 12 && Distinct(PROFILE_KEYS)
    ensures forall k: Key :: k in PROFILE_KEYS
  {
    forall k: Key
      ensures k in PROFILE_KEYS
    {
      match k
      case AvgSpeed => assert PROFILE_KEYS[0] == k;
      case SpeedVariability => assert PROFILE_KEYS[1] == k;
      case MaxSpeed => assert PROFILE_KEYS[2] == k;
      case ThrottleAggression => assert PROFILE_KEYS[3] == k;
      case ThrottleSmoothness => assert PROFILE_KEYS[4] == k;
      case BrakeFrequency => assert PROFILE_KEYS[5] == k;
      case BrakeIntensity => assert PROFILE_KEYS[6] == k;
      case GearEfficiency => assert PROFILE_KEYS[7] == k;
      case AccelerationPattern => assert PROFILE_KEYS[8] == k;
      case AccelerationVariability => assert PROFILE_KEYS[9] == k;
      case CorneringStyle => assert PROFILE_KEYS[10] == k;
      case StraightLineStyle => assert PROFILE_KEYS[11] == k;
    }
  }

  /** RADAR_KEYS names exactly RADAR_METRICS, in order: every radar metric is a profile key. */
  lemma RadarKeysNameMetrics()
    ensures |RADAR_KEYS| == |RADAR_METRICS|
    ensures forall i :: 0 <= i < |RADAR_KEYS| ==> KeyName(RADAR_KEYS[i]) == RADAR_METRICS[i]
  {
  }

  /** The columns a profile aggregates. */
  datatype Col = SpeedCol | ThrottleCol | ThrottleRateCol | NBrakeCol | BrakeIntensityCol | GearEfficiencyCol | AccelerationCol

  function Get(r: FeatureRow, c: Col): real
  {
    match c
    case SpeedCol => r.speed
    case ThrottleCol => r.throttle
    case ThrottleRateCol => r.throttleRate
    case NBrakeCol => r.nBrake
    case BrakeIntensityCol => r.brakeIntensity
    case GearEfficiencyCol => r.gearEfficiency
    case AccelerationCol => r.acceleration
  }

  /** One column of the rows, `driver_data[c]`. */
  function Values(rows: seq<FeatureRow>, c: Col): (v: seq<real>)
    ensures |v| == |rows|
    ensures forall i :: 0 <= i < |rows| ==> v[i] == Get(rows[i], c)
  {
    seq(|rows|, i requires 0 <= i < |rows| => Get(rows[i], c))
  }

  /** Speed strictly below (`below`) or strictly above the threshold. */
  predicate InBand(r: FeatureRow, q: real, below: bool)
  {
    if below then r.speed < q else r.speed > q
  }

  /** The positions of the rows whose Speed lies in the band: all of them, increasing. */
  function BandPositions(rows: seq<FeatureRow>, q: real, below: bool): (ps: seq<nat>)
    ensures |ps| <= |rows|
    ensures forall k :: 0 <= k < |ps| ==> ps[k] < |rows| && InBand(rows[ps[k]], q, below)
    ensures forall k, l :: 0 <= k < l < |ps| ==> ps[k] < ps[l]
    ensures forall i :: 0 <= i < |rows| && InBand(rows[i], q, below) ==> i in ps
  {
    if rows == [] then []
    else
      var n := |rows| - 1;
      var pre := BandPositions(rows[..n], q, below);
      assert forall i :: 0 <= i < n ==> rows[..n][i] == rows[i];
      if InBand(rows[n], q, below) then pre + [n] else pre
  }

  /** The Throttle values of the rows whose Speed lies in the band, in row order. */
  function ThrottleWhere(rows: seq<FeatureRow>, q: real, below: bool): (t: seq<real>)
    ensures var ps := BandPositions(rows, q, below);
      |t| == |ps| && forall k :: 0 <= k < |t| ==> t[k] == rows[ps[k]].throttle
    ensures |t| <= |rows|
    ensures forall x :: x in t ==> exists i :: 0 <= i < |rows| && InBand(rows[i], q, below) && rows[i].throttle == x
    ensures forall i :: 0 <= i < |rows| && InBand(rows[i], q, below) ==> rows[i].throttle in t
    ensures t == [] <==> forall i :: 0 <= i < |rows| ==> !InBand(rows[i], q, below)
  {
    var ps := BandPositions(rows, q, below);
    var t := seq(|ps|, k requires 0 <= k < |ps| => rows[ps[k]].throttle);
    BandThrottles(rows, q, below, t);
    t
  }

  /** The throttles at the band positions are exactly the band rows' throttles. */
  lemma BandThrottles(rows: seq<FeatureRow>, q: real, below: bool, t: seq<real>)
    requires var ps := BandPositions(rows, q, below);
      |t| == |ps| && forall k :: 0 <= k < |t| ==> t[k] == rows[ps[k]].throttle
    ensures forall x :: x in t ==> exists i :: 0 <= i < |rows| && InBand(rows[i], q, below) && rows[i].throttle == x
    ensures forall i :: 0 <= i < |rows| && InBand(rows[i], q, below) ==> rows[i].throttle in t
    ensures t == [] <==> forall i :: 0 <= i < |rows| ==> !InBand(rows[i], q, below)
  {
    var ps := BandPositions(rows, q, below);
    forall x | x in t
      ensures exists i :: 0 <= i < |rows| && InBand(rows[i], q, below) && rows[i].throttle == x
    {
      var k :| 0 <= k < |t| && t[k] == x;
      assert InBand(rows[ps[k]], q, below);
    }
    forall i | 0 <= i < |rows| && InBand(rows[i], q, below)
      ensures rows[i].throttle in t
    {
      var k :| 0 <= k < |ps| && ps[k] == i;
      assert t[k] == rows[i].throttle;
    }
    if t != [] {
      assert InBand(rows[ps[0]], q, below);
    }
  }

  /**
   * cornering_style (below the 30th percentile) or straight_line_style (above
   * the 70th): the mean Throttle of the rows in the band, or the mean Throttle
   * of all rows when the band is empty.
   */
  function Style(rows: seq<FeatureRow>, q: real, below: bool): real
    requires |rows| > 0
  {
    var band := ThrottleWhere(rows, q, below);
    if |band| > 0 then Mean(band) else Mean(Values(rows, ThrottleCol))
  }

  /** One value of the profile dict before the NaN replacement. */
  function RawValue(rows: seq<FeatureRow>, lib: Lib, k: Key): Num
    requires |rows| > 0
  {
    match k
    case AvgSpeed => Fin(Mean(Values(rows, SpeedCol)))
    case SpeedVariability => lib.std(Values(rows, SpeedCol))
    case MaxSpeed => Fin(Max(Values(rows, SpeedCol)))
    case ThrottleAggression => Fin(Mean(Values(rows, ThrottleCol)))
    case ThrottleSmoothness => Div(Fin(1.0), Fin(Mean(Values(rows, ThrottleRateCol)) + 0.001))
    case BrakeFrequency => Fin(Mean(Values(rows, NBrakeCol)))
    case BrakeIntensity => Fin(Mean(Values(rows, BrakeIntensityCol)))
    case GearEfficiency => Fin(Mean(Values(rows, GearEfficiencyCol)))
    case AccelerationPattern => Fin(Mean(Values(rows, AccelerationCol)))
    case AccelerationVariability => lib.std(Values(rows, AccelerationCol))
    case CorneringStyle => Fin(Style(rows, lib.quantile(Values(rows, SpeedCol), 0.3), true))
    case StraightLineStyle => Fin(Style(rows, lib.quantile(Values(rows, SpeedCol), 0.7), false))
  }

  /** The profile dict before the NaN replacement: every key with its value. */
  function RawProfile(rows: seq<FeatureRow>, lib: Lib): (p: Profile)
    requires |rows| > 0
    ensures Complete(p)
    ensures forall k: Key :: p[k] == RawValue(rows, lib, k)
  {
    AllKeys();
    map k | k in ALL_KEYS :: RawValue(rows, lib, k)
  }

  /** The profile after every NaN entry became 0.0. */
  function Coerced(p: Profile): (c: Profile)
    ensures c.Keys == p.Keys
    ensures forall k :: k in c ==> !c[k].NaN?
    ensures forall k :: k in p && !p[k].NaN? ==> c[k] == p[k]
  {
    map k | k in p :: FillNaN(p[k])
  }

  /** The NaN-replacement loop over the profile's keys, in dict order. */
  method CoerceMissing(profile: Profile) returns (p: Profile)
    requires Complete(profile)
    ensures p == Coerced(profile)
  {
    ProfileKeysComplete();
    p := profile;
    var i := 0;
    while i < |PROFILE_KEYS|
      invariant 0 <= i <= |PROFILE_KEYS|
      invariant p.Keys == profile.Keys
      invariant forall k :: k in p ==> p[k] == if k in PROFILE_KEYS[..i] then FillNaN(profile[k]) else profile[k]
    {
      var key := PROFILE_KEYS[i];
      if p[key].NaN? {
        p := p[key := Fin(0.0)];
      }
      assert PROFILE_KEYS[..i + 1] == PROFILE_KEYS[..i] + [key];
      i := i + 1;
    }
    assert PROFILE_KEYS[..i] == PROFILE_KEYS;
  }

  /** The profile stored for a driver with the given rows. */
  function ProfileOf(rows: seq<FeatureRow>, lib: Lib): Profile
    requires |rows| > 0
  {
    Coerced(RawProfile(rows, lib))
  }

  /** Each stored value is the dict's value with NaN replaced by 0.0. */
  lemma ProfileValue(rows: seq<FeatureRow>, lib: Lib, k: Key)
    requires |rows| > 0
    ensures k in ProfileOf(rows, lib)
    ensures ProfileOf(rows, lib)[k] == FillNaN(RawValue(rows, lib, k))
  {
  }

  /** Every stored profile has all twelve keys and no NaN value. */
  lemma ProfileShape(rows: seq<FeatureRow>, lib: Lib)
    requires |rows| > 0
    ensures Complete(ProfileOf(rows, lib))
    ensures forall k: Key :: !ProfileOf(rows, lib)[k].NaN?
  {
    forall k: Key
      ensures k in ProfileOf(rows, lib) && !ProfileOf(rows, lib)[k].NaN?
    {
      ProfileValue(rows, lib, k);
    }
  }

  /** max_speed is at least avg_speed. */
  lemma MaxSpeedAtLeastAverage(rows: seq<FeatureRow>, lib: Lib)
    requires |rows| > 0
    ensures ProfileOf(rows, lib)[MaxSpeed].Fin? && ProfileOf(rows, lib)[AvgSpeed].Fin?
    ensures ProfileOf(rows, lib)[AvgSpeed].v <= ProfileOf(rows, lib)[MaxSpeed].v
  {
    ProfileValue(rows, lib, MaxSpeed);
    ProfileValue(rows, lib, AvgSpeed);
    MeanAtMostMax(Values(rows, SpeedCol));
  }

  /** With every nBrake between 0 and 1, brake_frequency (their mean) is between 0 and 1. */
  lemma BrakeFrequencyInUnitRange(rows: seq<FeatureRow>, lib: Lib)
    requires |rows| > 0
    requires forall i :: 0 <= i < |rows| ==> 0.0 <= rows[i].nBrake <= 1.0
    ensures ProfileOf(rows, lib)[BrakeFrequency].Fin?
    ensures 0.0 <= ProfileOf(rows, lib)[BrakeFrequency].v <= 1.0
  {
    ProfileValue(rows, lib, BrakeFrequency);
    MeanBounds(Values(rows, NBrakeCol), 0.0, 1.0);
  }

  /** With non-negative throttle rates, throttle_smoothness is finite, positive and at most 1000. */
  lemma SmoothnessBounded(rows: seq<FeatureRow>, lib: Lib)
    requires |rows| > 0
    requires forall i :: 0 <= i < |rows| ==> rows[i].throttleRate >= 0.0
    ensures ProfileOf(rows, lib)[ThrottleSmoothness].Fin?
    ensures 0.0 < ProfileOf(rows, lib)[ThrottleSmoothness].v <= 1000.0
  {
    ProfileValue(rows, lib, ThrottleSmoothness);
    var rates := Values(rows, ThrottleRateCol);
    MeanBounds(rates, 0.0, Max(rates));
    var x := Mean(rates) + 0.001;
    assert x >= 0.001;
    var v := 1.0 / x;
    assert v * x == 1.0;
    assert v > 0.0;
    assert RawValue(rows, lib, ThrottleSmoothness) == Fin(v);
  }

  /**
   * cornering_style is the mean Throttle below the 30th Speed percentile,
   * or throttle_aggression when no row is strictly below it; either way it
   * lies between the smallest and the largest Throttle.
   */
  lemma CorneringStyleRule(rows: seq<FeatureRow>, lib: Lib)
    requires |rows| > 0
    ensures var q := lib.quantile(Values(rows, SpeedCol), 0.3);
      var p := ProfileOf(rows, lib);
      && ((forall i :: 0 <= i < |rows| ==> rows[i].speed >= q) ==> p[CorneringStyle] == p[ThrottleAggression])
      && ((exists i :: 0 <= i < |rows| && rows[i].speed < q) ==> p[CorneringStyle] == Fin(Mean(ThrottleWhere(rows, q, true))))
      && MinOf(Values(rows, ThrottleCol)) <= p[CorneringStyle].v <= Max(Values(rows, ThrottleCol))
  {
    var q := lib.quantile(Values(rows, SpeedCol), 0.3);
    ProfileValue(rows, lib, CorneringStyle);
    ProfileValue(rows, lib, ThrottleAggression);
    CorneringValue(rows, lib);
    AggressionValue(rows, lib);
    StyleRule(rows, q, true);
    if forall i :: 0 <= i < |rows| ==> rows[i].speed >= q {
      assert forall i :: 0 <= i < |rows| ==> !InBand(rows[i], q, true);
    }
    if exists i :: 0 <= i < |rows| && rows[i].speed < q {
      var i :| 0 <= i < |rows| && rows[i].speed < q;
      assert InBand(rows[i], q, true);
    }
  }

  /** straight_line_style: the same rule strictly above the 70th percentile. */
  lemma StraightLineStyleRule(rows: seq<FeatureRow>, lib: Lib)
    requires |rows| > 0
    ensures var q := lib.quantile(Values(rows, SpeedCol), 0.7);
      var p := ProfileOf(rows, lib);
      && ((forall i :: 0 <= i < |rows| ==> rows[i].speed <= q) ==> p[StraightLineStyle] == p[ThrottleAggression])
      && ((exists i :: 0 <= i < |rows| && rows[i].speed > q) ==> p[StraightLineStyle] == Fin(Mean(ThrottleWhere(rows, q, false))))
      && MinOf(Values(rows, ThrottleCol)) <= p[StraightLineStyle].v <= Max(Values(rows, ThrottleCol))
  {
    var q := lib.quantile(Values(rows, SpeedCol), 0.7);
    ProfileValue(rows, lib, StraightLineStyle);
    ProfileValue(rows, lib, ThrottleAggression);
    StraightLineValue(rows, lib);
    AggressionValue(rows, lib);
    StyleRule(rows, q, false);
    if forall i :: 0 <= i < |rows| ==> rows[i].speed <= q {
      assert forall i :: 0 <= i < |rows| ==> !InBand(rows[i], q, false);
    }
    if exists i :: 0 <= i < |rows| && rows[i].speed > q {
      var i :| 0 <= i < |rows| && rows[i].speed > q;
      assert InBand(rows[i], q, false);
    }
  }

  /** The dict's cornering_style entry. */
  lemma CorneringValue(rows: seq<FeatureRow>, lib: Lib)
    requires |rows| > 0
    ensures RawValue(rows, lib, CorneringStyle) == Fin(Style(rows, lib.quantile(Values(rows, SpeedCol), 0.3), true))
  {
  }

  /** The dict's straight_line_style entry. */
  lemma StraightLineValue(rows: seq<FeatureRow>, lib: Lib)
    requires |rows| > 0
    ensures RawValue(rows, lib, StraightLineStyle) == Fin(Style(rows, lib.quantile(Values(rows, SpeedCol), 0.7), false))
  {
  }

  /** The dict's throttle_aggression entry. */
  lemma AggressionValue(rows: seq<FeatureRow>, lib: Lib)
    requires |rows| > 0
    ensures RawValue(rows, lib, ThrottleAggression) == Fin(Mean(Values(rows, ThrottleCol)))
  {
  }

  /** The band rule behind both style values, and their bounds. */
  lemma StyleRule(rows: seq<FeatureRow>, q: real, below: bool)
    requires |rows| > 0
    ensures (forall i :: 0 <= i < |rows| ==> !InBand(rows[i], q, below)) ==> Style(rows, q, below) == Mean(Values(rows, ThrottleCol))
    ensures (exists i :: 0 <= i < |rows| && InBand(rows[i], q, below)) ==>
      |ThrottleWhere(rows, q, below)| > 0 && Style(rows, q, below) == Mean(ThrottleWhere(rows, q, below))
    ensures MinOf(Values(rows, ThrottleCol)) <= Style(rows, q, below) <= Max(Values(rows, ThrottleCol))
  {
    var all := Values(rows, ThrottleCol);
    var band := ThrottleWhere(rows, q, below);
    if |band| > 0 {
      forall k | 0 <= k < |band|
        ensures MinOf(all) <= band[k] <= Max(all)
      {
        assert band[k] in band;
      }
      MeanBounds(band, MinOf(all), Max(all));
    } else {
      MeanBounds(all, MinOf(all), Max(all));
    }
  }

  // ---------------------------------------------------------------------
  // Similarity analysis
  // ---------------------------------------------------------------------

  /** The profiles dict, the driver list (its keys in insertion order) and the similarity matrix. */
  datatype Similarity = Similarity(sim: seq<seq<real>>, drivers: seq<string>, profiles: map<string, Profile>)

  /** driver_profiles after visiting the drivers `ds`; a driver without rows is skipped. */
  function ProfilesOver(ds: seq<string>, data: seq<FeatureRow>, lib: Lib): map<string, Profile>
  {
    if ds == [] then map[]
    else
      var n := |ds| - 1;
      var pre := ProfilesOver(ds[..n], data, lib);
      var rows := RowsOf(data, ds[n]);
      if |rows| == 0 then pre else pre[ds[n] := ProfileOf(rows, lib)]
  }

  /** The keys of driver_profiles in insertion order. */
  function KeptOver(ds: seq<string>, data: seq<FeatureRow>): seq<string>
  {
    if ds == [] then []
    else
      var n := |ds| - 1;
      if |RowsOf(data, ds[n])| == 0 then KeptOver(ds[..n], data) else KeptOver(ds[..n], data) + [ds[n]]
  }

  /** The stored profiles are keyed by exactly the kept drivers. */
  lemma {:induction false} KeysMatch(ds: seq<string>, data: seq<FeatureRow>, lib: Lib)
    ensures forall d :: d in ProfilesOver(ds, data, lib) <==> d in KeptOver(ds, data)
  {
    if ds != [] {
      KeysMatch(ds[..|ds| - 1], data, lib);
    }
  }

  /** Every stored profile is the profile of that driver's own rows. */
  lemma {:induction false} ProfilesOverEntries(ds: seq<string>, data: seq<FeatureRow>, lib: Lib, d: string)
    requires d in ProfilesOver(ds, data, lib)
    ensures |RowsOf(data, d)| > 0
    ensures ProfilesOver(ds, data, lib)[d] == ProfileOf(RowsOf(data, d), lib)
  {
    assert ds != [];
    var n := |ds| - 1;
    if d != ds[n] || |RowsOf(data, ds[n])| == 0 {
      ProfilesOverEntries(ds[..n], data, lib, d);
    }
  }

  /** Every driver of the table has at least one row, so the empty-rows skip never fires. */
  lemma {:induction false} EveryDriverKept(data: seq<FeatureRow>)
    ensures KeptOver(Drivers(data), data) == Drivers(data)
  {
    var ds := Drivers(data);
    assert forall i :: 0 <= i < |ds| ==> ds[i] in ds;
    KeptPrefix(ds, data);
  }

  lemma {:induction false} KeptPrefix(ds: seq<string>, data: seq<FeatureRow>)
    requires forall i :: 0 <= i < |ds| ==> ds[i] in DriverColumn(data)
    ensures KeptOver(ds, data) == ds
  {
    if ds != [] {
      var n := |ds| - 1;
      assert forall i :: 0 <= i < n ==> ds[..n][i] == ds[i];
      KeptPrefix(ds[..n], data);
      HasRows(data, ds[n]);
      LastSplit(ds);
    }
  }

  /** A non-empty sequence is its prefix followed by its last element. */
  lemma LastSplit<T>(s: seq<T>)
    requires |s| > 0
    ensures s == s[..|s| - 1] + [s[|s| - 1]]
  {
  }

  /** A driver named in the driver column has at least one row. */
  lemma HasRows(data: seq<FeatureRow>, d: string)
    requires d in DriverColumn(data)
    ensures |RowsOf(data, d)| > 0
  {
    var k :| 0 <= k < |data| && DriverColumn(data)[k] == d;
    assert data[k] in RowsOf(data, d);
  }

  /** One profile as a matrix row, in key order, through `nan_to_num`. */
  function ProfileRow(p: Profile): (r: seq<real>)
    requires Complete(p)
    ensures |r| == |PROFILE_KEYS|
    ensures forall k :: 0 <= k < |r| ==> r[k] == NanToNum(p[PROFILE_KEYS[k]])
  {
    seq(|PROFILE_KEYS|, k requires 0 <= k < |PROFILE_KEYS| => NanToNum(p[PROFILE_KEYS[k]]))
  }

  function ProfileMatrix(order: seq<string>, profiles: map<string, Profile>): (m: seq<seq<real>>)
    requires forall d :: d in order ==> d in profiles && Complete(profiles[d])
    ensures |m| == |order|
    ensures forall i :: 0 <= i < |m| ==> m[i] == ProfileRow(profiles[order[i]])
  {
    seq(|order|, i requires 0 <= i < |order| => ProfileRow(profiles[order[i]]))
  }

  /** The n-by-n cosine similarity matrix of the profile matrix. */
  function CosineMatrix(m: seq<seq<real>>, lib: Lib): (s: seq<seq<real>>)
    ensures |s| == |m|
    ensures forall i :: 0 <= i < |s| ==> |s[i]| == |m|
  {
    seq(|m|, i requires 0 <= i < |m| => seq(|m|, j requires 0 <= j < |m| => lib.cosine(m, i, j)))
  }

  lemma {:induction false} ProfilesOverShape(ds: seq<string>, data: seq<FeatureRow>, lib: Lib)
    ensures forall d :: d in ProfilesOver(ds, data, lib) ==> Complete(ProfilesOver(ds, data, lib)[d])
  {
    forall d | d in ProfilesOver(ds, data, lib)
      ensures Complete(ProfilesOver(ds, data, lib)[d])
    {
      ProfilesOverEntries(ds, data, lib, d);
    }
  }

  /** Every kept driver has a stored, complete profile: the matrix rows can be built. */
  lemma MatrixReady(ds: seq<string>, data: seq<FeatureRow>, lib: Lib)
    ensures forall d :: d in KeptOver(ds, data) ==>
      d in ProfilesOver(ds, data, lib) && Complete(ProfilesOver(ds, data, lib)[d])
  {
    KeysMatch(ds, data, lib);
    ProfilesOverShape(ds, data, lib);
  }

  /**
   * The result of analyze_driving_style_similarity (the distance matrix is
   * not kept).  The lemmas below show that the drivers are the table's
   * distinct drivers in first-appearance order and exactly the profile keys;
   * that every profile is NaN-free with the twelve keys; and that the matrix
   * is empty exactly when fewer than two drivers have a profile, and square
   * over the drivers otherwise.
   */
  function SimilarityOf(data: seq<FeatureRow>, lib: Lib): Similarity
  {
    var ds := Drivers(data);
    var profiles := ProfilesOver(ds, data, lib);
    var order := KeptOver(ds, data);
    if |order| < 2 then Similarity([], order, profiles)
    else
      MatrixReady(ds, data, lib);
      Similarity(CosineMatrix(ProfileMatrix(order, profiles), lib), order, profiles)
  }

  /** The driver list is the drivers in first-appearance order, each with a stored profile and no other. */
  lemma SimilarityDrivers(data: seq<FeatureRow>, lib: Lib)
    ensures var s := SimilarityOf(data, lib);
      && s.drivers == Drivers(data)
      && Distinct(s.drivers)
      && (forall d :: d in s.profiles <==> d in s.drivers)
  {
    EveryDriverKept(data);
    KeysMatch(Drivers(data), data, lib);
  }

  /** Every stored profile has all twelve keys and no NaN value. */
  lemma SimilarityProfiles(data: seq<FeatureRow>, lib: Lib, d: string)
    requires d in SimilarityOf(data, lib).profiles
    ensures Complete(SimilarityOf(data, lib).profiles[d])
    ensures forall k: Key :: !SimilarityOf(data, lib).profiles[d][k].NaN?
  {
    ProfilesOverEntries(Drivers(data), data, lib, d);
    ProfileShape(RowsOf(data, d), lib);
  }

  /** Fewer than two drivers give the empty matrix; otherwise it is square, one row per driver. */
  lemma SimilarityMatrix(data: seq<FeatureRow>, lib: Lib)
    ensures var s := SimilarityOf(data, lib);
      && (s.sim == [] <==> |s.drivers| < 2)
      && (s.sim != [] ==> |s.sim| == |s.drivers| && forall i :: 0 <= i < |s.sim| ==> |s.sim[i]| == |s.drivers|)
  {
  }

  lemma ProfilesStep(ds: seq<string>, i: nat, data: seq<FeatureRow>, lib: Lib)
    requires i < |ds|
    ensures var rows := RowsOf(data, ds[i]);
      && ProfilesOver(ds[..i + 1], data, lib) ==
        (if |rows| == 0 then ProfilesOver(ds[..i], data, lib) else ProfilesOver(ds[..i], data, lib)[ds[i] := ProfileOf(rows, lib)])
      && KeptOver(ds[..i + 1], data) ==
        (if |rows| == 0 then KeptOver(ds[..i], data) else KeptOver(ds[..i], data) + [ds[i]])
  {
    assert ds[..i + 1][..i] == ds[..i];
  }

  /** One pass of the profile loop: None when the driver has no rows, otherwise its stored profile. */
  method DriverProfile(data: seq<FeatureRow>, driver: string, lib: Lib) returns (r: Option<Profile>)
    ensures r.None? <==> |RowsOf(data, driver)| == 0
    ensures r.Some? ==> r.value == ProfileOf(RowsOf(data, driver), lib)
  {
    var driverData := RowsOf(data, driver);
    if |driverData| == 0 {
      return None;
    }
    var profile := RawProfile(driverData, lib);
    profile := CoerceMissing(profile);
    return Some(profile);
  }

  /**
   * analyze_driving_style_similarity: build a profile per distinct driver,
   * replace its NaN entries, and compare the profiles when there are at
   * least two of them.
   */
  method AnalyzeSimilarity(data: seq<FeatureRow>, lib: Lib) returns (s: Similarity)
    ensures s == SimilarityOf(data, lib)
  {
    var drivers := Drivers(data);
    var profiles: map<string, Profile> := map[];
    var order: seq<string> := [];
    var i := 0;
    while i < |drivers|
      invariant 0 <= i <= |drivers|
      invariant profiles == ProfilesOver(drivers[..i], data, lib)
      invariant order == KeptOver(drivers[..i], data)
    {
      var driver := drivers[i];
      ProfilesStep(drivers, i, data, lib);
      var profile := DriverProfile(data, driver, lib);
      if profile.Some? {
        profiles := profiles[driver := profile.value];
        order := order + [driver];
      }
      i := i + 1;
    }
    assert drivers[..i] == drivers;
    if |order| < 2 {
      return Similarity([], order, profiles);
    }
    MatrixReady(drivers, data, lib);
    var matrix := ProfileMatrix(order, profiles);
    s := Similarity(CosineMatrix(matrix, lib), order, profiles);
  }
}
