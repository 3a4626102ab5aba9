/**
 * The analysis configuration: team rosters, team colours, per-track DBSCAN
 * parameters and their default, the clustering feature columns and the radar
 * metrics.  Everything here is constant.
 */
module Config {

  /** DBSCAN's neighbourhood radius and minimum neighbourhood size. */
  datatype ClusterParams = ClusterParams(eps: real, minSamples: int)

  /** Team name and its drivers, in the table's order (a Python dict keeps insertion order). */
  const TEAMS: seq<(string, seq<string>)> := [
    ("Williams", ["ALB", "SAI"]),
    ("Mercedes", ["ANT", "RUS"]),
    ("Ferrari", ["HAM", "LEC"]),
    ("RedBull", ["VER", "TSU"]),
    ("McLaren", ["PIA", "NOR"])
  ]

  const TEAM_COLORS: map<string, string> := map[
    "Williams" := "#37BEDD",
    "Mercedes" := "#00D2BE",
    "Ferrari" := "#DC143C",
    "RedBull" := "#1E41FF",
    "McLaren" := "#FF8000",
    "Unknown" := "#666666"
  ]

  const TRACK_CLUSTERING_PARAMS: map<string, ClusterParams> := map[
    "Australia" := ClusterParams(0.4, 40),
    "Bahrain" := ClusterParams(0.35, 50),
    "China" := ClusterParams(0.45, 45),
    "Japan" := ClusterParams(0.4, 35)
  ]

  const DEFAULT_CLUSTERING_PARAMS: ClusterParams := ClusterParams(0.4, 45)

  const FEATURE_COLUMNS: seq<string> := [
    "RPM", "Speed", "nGear", "Throttle", "nBrake",
    "ThrottleRate", "BrakeIntensity", "GearEfficiency",
    "SpeedVariability", "Acceleration"
  ]

  const RADAR_METRICS: seq<string> := [
    "throttle_aggression", "throttle_smoothness", "brake_intensity",
    "speed_variability", "acceleration_pattern"
  ]

  predicate Distinct<T(==)>(s: seq<T>)
  {
    forall i, j :: 0 <= i < j < |s| ==> s[i] != s[j]
  }

  /** Team names are distinct and none of them is the fallback name "Unknown". */
  lemma TeamNamesDistinct()
    ensures forall i, j :: 0 <= i < j < |TEAMS| ==> TEAMS[i].0 != TEAMS[j].0
    ensures forall i :: 0 <= i < |TEAMS| ==> TEAMS[i].0 != "Unknown"
  {
  }

  /** Every team lists exactly two distinct drivers. */
  lemma TwoDriversPerTeam()
    ensures forall i :: 0 <= i < |TEAMS| ==> |TEAMS[i].1| == 2 && TEAMS[i].1[0] != TEAMS[i].1[1]
  {
  }

  /** No driver code appears in two teams' lists. */
  lemma DriverInOneTeam()
    ensures forall i, j, c :: 0 <= i < |TEAMS| && 0 <= j < |TEAMS| && c in TEAMS[i].1 && c in TEAMS[j].1 ==> i == j
  {
  }

  /** Every team, and the fallback "Unknown", has a colour. */
  lemma TeamColorsComplete()
    ensures forall i :: 0 <= i < |TEAMS| ==> TEAMS[i].0 in TEAM_COLORS
    ensures "Unknown" in TEAM_COLORS
  {
  }

  /** Every parameter pair, the default included, has a positive radius and a positive minimum size. */
  lemma ClusterParamsSane()
    ensures forall t :: t in TRACK_CLUSTERING_PARAMS ==>
      TRACK_CLUSTERING_PARAMS[t].eps > 0.0 && TRACK_CLUSTERING_PARAMS[t].minSamples >= 1
    ensures DEFAULT_CLUSTERING_PARAMS.eps > 0.0 && DEFAULT_CLUSTERING_PARAMS.minSamples >= 1
  {
  }

  /** Ten distinct feature columns and five distinct radar metrics. */
  lemma ColumnListsDistinct()
    ensures |FEATURE_COLUMNS| == 10 && Distinct(FEATURE_COLUMNS)
    ensures |RADAR_METRICS| == 5 && Distinct(RADAR_METRICS)
  {
  }
}
