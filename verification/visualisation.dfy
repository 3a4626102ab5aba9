/**
 * The computed parts of the driving-style figure: the early return for too
 * few drivers, the number of PCA components requested, and the radar chart's
 * min-max normalisation of five profile metrics across drivers, with its 0.5
 * fallbacks and the closing of each driver's polygon.  Plotting is not
 * modelled; a drawn panel is represented by the data it would show.
 */
module Visualisation {
  import opened Wrappers
  import opened Numeric
  import opened Config
  import opened Clustering

  /** Every listed driver has a profile; otherwise the lookup raises KeyError. */
  predicate AllPresent(drivers: seq<string>, profiles: map<string, Profile>)
  {
    forall i :: 0 <= i < |drivers| ==> drivers[i] in profiles
  }

  /** `x` is some listed driver's value for `metric`. */
  predicate DriverValue(drivers: seq<string>, profiles: map<string, Profile>, metric: Key, x: Num)
    requires AllPresent(drivers, profiles)
  {
    exists i :: 0 <= i < |drivers| && metric in profiles[drivers[i]] && profiles[drivers[i]][metric] == x
  }

  /**
   * The values compared for one metric: for each driver in order, the
   * driver's value when the profile has the metric and it is not NaN.
   */
  function Comparable(drivers: seq<string>, profiles: map<string, Profile>, metric: Key): (vs: seq<Num>)
    requires AllPresent(drivers, profiles)
    ensures |vs| <= |drivers|
    ensures forall i :: 0 <= i < |vs| ==> !vs[i].NaN?
    ensures forall i :: 0 <= i < |drivers| && metric in profiles[drivers[i]] && !profiles[drivers[i]][metric].NaN? ==>
      profiles[drivers[i]][metric] in vs
    ensures forall k :: 0 <= k < |vs| ==> DriverValue(drivers, profiles, metric, vs[k])
  {
    if drivers == [] then []
    else
      var n := |drivers| - 1;
      var d := drivers[n];
      assert AllPresent(drivers[..n], profiles);
      var pre := Comparable(drivers[..n], profiles, metric);
      assert forall i :: 0 <= i < n ==> drivers[..n][i] == drivers[i];
      if metric in profiles[d] && !profiles[d][metric].NaN? then pre + [profiles[d][metric]] else pre
  }

  /**
   * Python's `min`: the first element, replaced by each later element that
   * is strictly smaller.  Without NaN it is a least element.
   */
  function MinNum(s: seq<Num>): (m: Num)
    requires |s| > 0
    ensures m in s
    ensures (forall i :: 0 <= i < |s| ==> !s[i].NaN?) ==> forall i :: 0 <= i < |s| ==> !Less(s[i], m)
  {
    if |s| == 1 then s[0]
    else
      var n := |s| - 1;
      var m' := MinNum(s[..n]);
      assert forall i :: 0 <= i < n ==> s[..n][i] == s[i];
      if Less(s[n], m') then
        (if forall i :: 0 <= i < |s| ==> !s[i].NaN? then
           forall i | 0 <= i < n ensures !Less(s[i], s[n]) {
             if Less(s[i], s[n]) { LessTransitive(s[i], s[n], m'); }
           }
           s[n]
         else s[n])
      else m'
  }

  /** Python's `max`: the first element, replaced by each later element that is strictly larger. */
  function MaxNum(s: seq<Num>): (m: Num)
    requires |s| > 0
    ensures m in s
    ensures (forall i :: 0 <= i < |s| ==> !s[i].NaN?) ==> forall i :: 0 <= i < |s| ==> !Less(m, s[i])
  {
    if |s| == 1 then s[0]
    else
      var n := |s| - 1;
      var m' := MaxNum(s[..n]);
      assert forall i :: 0 <= i < n ==> s[..n][i] == s[i];
      if Less(m', s[n]) then
        (if forall i :: 0 <= i < |s| ==> !s[i].NaN? then
           forall i | 0 <= i < n ensures !Less(s[n], s[i]) {
             if Less(s[n], s[i]) { LessTransitive(m', s[n], s[i]); }
           }
           s[n]
         else s[n])
      else m'
  }

  /** `(value - min) / (max - min)` when the extremes differ, 0.5 when they are equal. */
  function Normalize(value: Num, lo: Num, hi: Num): Num
  {
    if hi != lo then Div(Sub(value, lo), Sub(hi, lo)) else Fin(0.5)
  }

  /** A NaN or infinite result is replaced by 0.5. */
  function OrHalf(n: Num): (r: real)
    ensures n.Fin? ==> r == n.v
    ensures !n.Fin? ==> r == 0.5
  {
    if n.Fin? then n.v else 0.5
  }

  /** The normalised radar value of driver `d` for one metric. */
  function RadarValue(drivers: seq<string>, profiles: map<string, Profile>, d: string, metric: Key): real
    requires AllPresent(drivers, profiles) && d in profiles
  {
    if metric in profiles[d] then
      var vs := Comparable(drivers, profiles, metric);
      if |vs| > 1 then OrHalf(Normalize(profiles[d][metric], MinNum(vs), MaxNum(vs)))
      else 0.5
    else 0.5
  }

  /** One driver's radar row: the normalised values of the five radar metrics, in metric order. */
  function RadarRow(drivers: seq<string>, profiles: map<string, Profile>, d: string): (row: seq<real>)
    requires AllPresent(drivers, profiles) && d in profiles
    ensures |row| == |RADAR_KEYS|
    ensures forall m :: 0 <= m < |row| ==> row[m] == RadarValue(drivers, profiles, d, RADAR_KEYS[m])
  {
    seq(|RADAR_KEYS|, m requires 0 <= m < |RADAR_KEYS| => RadarValue(drivers, profiles, d, RADAR_KEYS[m]))
  }

  /** The radar data, one row per driver in order, or None when a driver has no profile. */
  function Radar(drivers: seq<string>, profiles: map<string, Profile>): (r: Option<seq<seq<real>>>)
    ensures r.Some? <==> AllPresent(drivers, profiles)
    ensures r.Some? ==> |r.value| == |drivers|
    ensures r.Some? ==> forall i :: 0 <= i < |drivers| ==> r.value[i] == RadarRow(drivers, profiles, drivers[i])
  {
    if AllPresent(drivers, profiles) then
      Some(seq(|drivers|, i requires 0 <= i < |drivers| => RadarRow(drivers, profiles, drivers[i])))
    else None
  }

  // ---------------------------------------------------------------------
  // The radar loops
  // ---------------------------------------------------------------------

  /** The `all_values` list comprehension, which raises KeyError on a driver without a profile. */
  method CompareValues(drivers: seq<string>, profiles: map<string, Profile>, metric: Key) returns (r: Option<seq<Num>>)
    ensures r.None? <==> !AllPresent(drivers, profiles)
    ensures r.Some? ==> AllPresent(drivers, profiles) && r.value == Comparable(drivers, profiles, metric)
  {
    var vs: seq<Num> := [];
    var i := 0;
    while i < |drivers|
      invariant 0 <= i <= |drivers|
      invariant AllPresent(drivers[..i], profiles)
      invariant vs == Comparable(drivers[..i], profiles, metric)
    {
      var d := drivers[i];
      if d !in profiles {
        return None;
      }
      ComparableStep(drivers, profiles, metric, i);
      if metric in profiles[d] && !profiles[d][metric].NaN? {
        vs := vs + [profiles[d][metric]];
      }
      i := i + 1;
    }
    assert drivers[..i] == drivers;
    return Some(vs);
  }

  lemma ComparableStep(drivers: seq<string>, profiles: map<string, Profile>, metric: Key, i: nat)
    requires i < |drivers| && AllPresent(drivers[..i], profiles) && drivers[i] in profiles
    ensures AllPresent(drivers[..i + 1], profiles)
    ensures var d := drivers[i];
      Comparable(drivers[..i + 1], profiles, metric) ==
        if metric in profiles[d] && !profiles[d][metric].NaN? then Comparable(drivers[..i], profiles, metric) + [profiles[d][metric]]
        else Comparable(drivers[..i], profiles, metric)
  {
    assert drivers[..i + 1][..i] == drivers[..i];
  }

  /** One step of the inner loop: the value for `metric`, or None when the comprehension raises. */
  method NormalizedValue(drivers: seq<string>, profiles: map<string, Profile>, d: string, metric: Key) returns (r: Option<real>)
    requires d in profiles
    ensures r.None? ==> !AllPresent(drivers, profiles)
    ensures AllPresent(drivers, profiles) ==> r == Some(RadarValue(drivers, profiles, d, metric))
  {
    var normalized: Num;
    if metric in profiles[d] {
      var value := profiles[d][metric];
      var allValues := CompareValues(drivers, profiles, metric);
      if allValues.None? {
        return None;
      }
      var vs := allValues.value;
      if |vs| > 1 {
        var lo, hi := MinNum(vs), MaxNum(vs);
        normalized := if hi != lo then Div(Sub(value, lo), Sub(hi, lo)) else Fin(0.5);
      } else {
        normalized := Fin(0.5);
      }
    } else {
      normalized := Fin(0.5);
    }
    if normalized.NaN? || normalized.PosInf? || normalized.NegInf? {
      normalized := Fin(0.5);
    }
    return Some(normalized.v);
  }

  /** The inner radar loop for one driver; None when the comprehension raises. */
  method DriverRadar(drivers: seq<string>, profiles: map<string, Profile>, driver: string) returns (r: Option<seq<real>>)
    requires driver in profiles
    ensures r.None? ==> !AllPresent(drivers, profiles)
    ensures AllPresent(drivers, profiles) ==> r == Some(RadarRow(drivers, profiles, driver))
  {
    var driverRadar: seq<real> := [];
    var m := 0;
    while m < |RADAR_KEYS|
      invariant 0 <= m <= |RADAR_KEYS|
      invariant |driverRadar| == m
      invariant AllPresent(drivers, profiles) ==>
        forall k :: 0 <= k < m ==> driverRadar[k] == RadarValue(drivers, profiles, driver, RADAR_KEYS[k])
    {
      var v := NormalizedValue(drivers, profiles, driver, RADAR_KEYS[m]);
      if v.None? {
        return None;
      }
      driverRadar := driverRadar + [v.value];
      m := m + 1;
    }
    if AllPresent(drivers, profiles) {
      assert driverRadar == RadarRow(drivers, profiles, driver);
    }
    return Some(driverRadar);
  }

  /** The outer radar loop over the drivers; a KeyError anywhere abandons the chart. */
  method RadarData(drivers: seq<string>, profiles: map<string, Profile>) returns (r: Option<seq<seq<real>>>)
    ensures r == Radar(drivers, profiles)
  {
    var radarData: seq<seq<real>> := [];
    var i := 0;
    while i < |drivers|
      invariant 0 <= i <= |drivers|
      invariant forall j :: 0 <= j < i ==> drivers[j] in profiles
      invariant |radarData| == i
      invariant AllPresent(drivers, profiles) ==>
        forall j :: 0 <= j < i ==> radarData[j] == RadarRow(drivers, profiles, drivers[j])
    {
      var driver := drivers[i];
      if driver !in profiles {
        return None;
      }
      var driverRadar := DriverRadar(drivers, profiles, driver);
      if driverRadar.None? {
        return None;
      }
      radarData := radarData + [driverRadar.value];
      i := i + 1;
    }
    RadarOfRows(drivers, profiles, radarData);
    return Some(radarData);
  }

  /** A row per driver, each that driver's radar row, is the radar data. */
  lemma RadarOfRows(drivers: seq<string>, profiles: map<string, Profile>, rows: seq<seq<real>>)
    requires AllPresent(drivers, profiles) && |rows| == |drivers|
    requires forall j :: 0 <= j < |drivers| ==> rows[j] == RadarRow(drivers, profiles, drivers[j])
    ensures Radar(drivers, profiles) == Some(rows)
  {
    var r := Radar(drivers, profiles).value;
    assert forall j :: 0 <= j < |rows| ==> r[j] == rows[j];
    assert r == rows;
  }

  // ---------------------------------------------------------------------
  // Properties of the normalisation
  // ---------------------------------------------------------------------

  /** The order `Less` puts on values that are not NaN, as a non-strict comparison. */
  predicate AtMost(a: Num, b: Num)
  {
    !Less(b, a)
  }

  /** x / y lies in [0, 1] when 0 <= x <= y and y > 0. */
  lemma QuotientInUnitRange(x: real, y: real)
    requires 0.0 <= x <= y && y > 0.0
    ensures 0.0 <= x / y <= 1.0
  {
    var q := x / y;
    assert q * y == x;
  }

  /** A value between the extremes normalises into [0, 1], or falls back to 0.5. */
  lemma NormalizeInRange(value: Num, lo: Num, hi: Num)
    requires !value.NaN? && !lo.NaN? && !hi.NaN?
    requires AtMost(lo, value) && AtMost(value, hi)
    ensures 0.0 <= OrHalf(Normalize(value, lo, hi)) <= 1.0
  {
    if hi != lo && value.Fin? && lo.Fin? && hi.Fin? {
      QuotientInUnitRange(value.v - lo.v, hi.v - lo.v);
    }
  }

  /** Every radar value of a listed driver lies in [0, 1]. */
  lemma RadarValueInUnitRange(drivers: seq<string>, profiles: map<string, Profile>, i: nat, metric: Key)
    requires AllPresent(drivers, profiles) && i < |drivers|
    ensures 0.0 <= RadarValue(drivers, profiles, drivers[i], metric) <= 1.0
  {
    var d := drivers[i];
    if metric in profiles[d] {
      var vs := Comparable(drivers, profiles, metric);
      var value := profiles[d][metric];
      if |vs| > 1 && !value.NaN? {
        assert value in vs;
        NormalizeInRange(value, MinNum(vs), MaxNum(vs));
      }
    }
  }

  /** The driver holding a finite minimum gets 0 when the maximum differs from it. */
  lemma MinimumGetsZero(drivers: seq<string>, profiles: map<string, Profile>, i: nat, metric: Key)
    requires AllPresent(drivers, profiles) && i < |drivers|
    requires metric in profiles[drivers[i]]
    requires var vs := Comparable(drivers, profiles, metric);
      |vs| > 1 && profiles[drivers[i]][metric] == MinNum(vs) && MinNum(vs).Fin? && MaxNum(vs) != MinNum(vs)
    ensures RadarValue(drivers, profiles, drivers[i], metric) == 0.0
  {
    var vs := Comparable(drivers, profiles, metric);
    var hi := MaxNum(vs);
    assert hi in vs;
    NormalizeMinimum(MinNum(vs), hi);
  }

  /** The driver holding the maximum gets 1 when both extremes are finite and differ. */
  lemma MaximumGetsOne(drivers: seq<string>, profiles: map<string, Profile>, i: nat, metric: Key)
    requires AllPresent(drivers, profiles) && i < |drivers|
    requires metric in profiles[drivers[i]]
    requires var vs := Comparable(drivers, profiles, metric);
      |vs| > 1 && profiles[drivers[i]][metric] == MaxNum(vs) && MinNum(vs).Fin? && MaxNum(vs).Fin? && MaxNum(vs) != MinNum(vs)
    ensures RadarValue(drivers, profiles, drivers[i], metric) == 1.0
  {
    var vs := Comparable(drivers, profiles, metric);
    NormalizeMaximum(MinNum(vs), MaxNum(vs));
  }

  lemma NormalizeMinimum(lo: Num, hi: Num)
    requires lo.Fin? && !hi.NaN? && AtMost(lo, hi) && lo != hi
    ensures Normalize(lo, lo, hi) == Fin(0.0)
  {
    if hi.Fin? {
      assert (lo.v - lo.v) / (hi.v - lo.v) == 0.0;
    }
  }

  lemma NormalizeMaximum(lo: Num, hi: Num)
    requires lo.Fin? && hi.Fin? && lo != hi
    ensures Normalize(hi, lo, hi) == Fin(1.0)
  {
    var x := hi.v - lo.v;
    assert x != 0.0 && x / x == 1.0;
    assert Sub(hi, lo) == Fin(x);
  }

  /**
   * The value is 0.5 when the metric is missing, when at most one value is
   * comparable, when all compared values are equal, and when the driver's
   * own value is NaN.
   */
  lemma RadarFallbacks(drivers: seq<string>, profiles: map<string, Profile>, d: string, metric: Key)
    requires AllPresent(drivers, profiles) && d in profiles
    ensures metric !in profiles[d] ==> RadarValue(drivers, profiles, d, metric) == 0.5
    ensures |Comparable(drivers, profiles, metric)| <= 1 ==> RadarValue(drivers, profiles, d, metric) == 0.5
    ensures AllEqual(Comparable(drivers, profiles, metric)) ==> RadarValue(drivers, profiles, d, metric) == 0.5
    ensures metric in profiles[d] && profiles[d][metric].NaN? ==> RadarValue(drivers, profiles, d, metric) == 0.5
  {
    var vs := Comparable(drivers, profiles, metric);
    if |vs| > 0 && AllEqual(vs) {
      EqualExtremes(vs);
    }
  }

  predicate AllEqual(vs: seq<Num>)
  {
    forall j, k :: 0 <= j < k < |vs| ==> vs[j] == vs[k]
  }

  /** When all values are equal, min and max coincide. */
  lemma EqualExtremes(vs: seq<Num>)
    requires |vs| > 0 && AllEqual(vs)
    ensures MinNum(vs) == MaxNum(vs)
  {
    var a :| 0 <= a < |vs| && vs[a] == MinNum(vs);
    var b :| 0 <= b < |vs| && vs[b] == MaxNum(vs);
    if a > 0 {
      assert vs[0] == vs[a];
    }
    if b > 0 {
      assert vs[0] == vs[b];
    }
  }

  /** Every radar row has five values in [0, 1]. */
  lemma RadarShape(drivers: seq<string>, profiles: map<string, Profile>)
    requires AllPresent(drivers, profiles)
    ensures var r := Radar(drivers, profiles).value;
      forall i, m :: 0 <= i < |r| && 0 <= m < |r[i]| ==> |r[i]| == 5 && 0.0 <= r[i][m] <= 1.0
  {
    var r := Radar(drivers, profiles).value;
    forall i, m | 0 <= i < |r| && 0 <= m < |r[i]|
      ensures |r[i]| == 5 && 0.0 <= r[i][m] <= 1.0
    {
      RadarValueInUnitRange(drivers, profiles, i, RADAR_KEYS[m]);
    }
  }

  // ---------------------------------------------------------------------
  // Polygon, PCA size and the figure
  // ---------------------------------------------------------------------

  /** `values + values[:1]`: the row with its first value repeated at the end. */
  function ClosePolygon(row: seq<real>): (c: seq<real>)
    ensures row != [] ==> |c| == |row| + 1 && c[..|row|] == row && c[|row|] == c[0]
    ensures row == [] ==> c == []
  {
    row + row[..if row == [] then 0 else 1]
  }

  /** A closed radar row has six values and ends where it starts. */
  lemma ClosedRadarRow(drivers: seq<string>, profiles: map<string, Profile>, i: nat)
    requires AllPresent(drivers, profiles) && i < |drivers|
    ensures var c := ClosePolygon(Radar(drivers, profiles).value[i]);
      |c| == 6 && c[5] == c[0] && c[..5] == Radar(drivers, profiles).value[i]
  {
  }

  /** `min(2, len(features), len(drivers))`. */
  function NComponents(features: nat, drivers: nat): (n: nat)
    ensures n <= 2 && n <= features && n <= drivers
    ensures n == 2 || n == features || n == drivers
  {
    if features <= drivers then (if features <= 2 then features else 2)
    else (if drivers <= 2 then drivers else 2)
  }

  /** What the figure shows; `Skipped` is the early return for fewer than two drivers. */
  datatype Figure =
    | Skipped
    | Drawn(heatmap: bool, pcaComponents: Option<nat>, radar: Option<seq<seq<real>>>)

  /**
   * The PCA panel: with at least two profiles, the feature list is the first
   * profile's keys and every driver's profile must hold each of them; the
   * number of components requested is then `NComponents`.
   */
  function Pca(drivers: seq<string>, profiles: map<string, Profile>): (r: Option<nat>)
    ensures r.Some? <==> (|profiles| >= 2 && |drivers| > 0 && AllPresent(drivers, profiles)
      && forall i :: 0 <= i < |drivers| ==> profiles[drivers[0]].Keys <= profiles[drivers[i]].Keys)
    ensures r.Some? ==> r.value <= 2 && r.value <= |drivers| && r.value <= |profiles[drivers[0]].Keys|
  {
    if |profiles| >= 2 && |drivers| > 0 && AllPresent(drivers, profiles)
      && forall i :: 0 <= i < |drivers| ==> profiles[drivers[0]].Keys <= profiles[drivers[i]].Keys
    then Some(NComponents(|profiles[drivers[0]].Keys|, |drivers|))
    else None
  }

  function CreateVisualizations(sim: seq<seq<real>>, drivers: seq<string>, profiles: map<string, Profile>): Figure
  {
    if |drivers| < 2 then Skipped
    else Drawn(|sim| > 0 && |sim[0]| > 0, Pca(drivers, profiles), if |profiles| > 0 then Radar(drivers, profiles) else None)
  }

  /**
   * Fewer than two drivers draw nothing; otherwise the heatmap is drawn for a
   * non-empty matrix and the radar for a non-empty profile dict holding every
   * driver.
   */
  lemma FigureGuards(sim: seq<seq<real>>, drivers: seq<string>, profiles: map<string, Profile>)
    ensures |drivers| < 2 <==> CreateVisualizations(sim, drivers, profiles).Skipped?
    ensures var f := CreateVisualizations(sim, drivers, profiles);
      f.Drawn? ==> (f.heatmap <==> |sim| > 0 && |sim[0]| > 0)
    ensures var f := CreateVisualizations(sim, drivers, profiles);
      f.Drawn? ==> (f.radar.Some? <==> |profiles| > 0 && AllPresent(drivers, profiles))
    ensures var f := CreateVisualizations(sim, drivers, profiles);
      f.Drawn? && |profiles| >= 2 && AllPresent(drivers, profiles)
      && (forall i :: 0 <= i < |drivers| ==> profiles[drivers[0]].Keys <= profiles[drivers[i]].Keys) ==>
      f.pcaComponents.Some?
    ensures var f := CreateVisualizations(sim, drivers, profiles);
      f.Drawn? && f.pcaComponents.Some? ==> f.pcaComponents.value == NComponents(|profiles[drivers[0]].Keys|, |drivers|)
  {
  }
}
