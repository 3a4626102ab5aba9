/**
 * Per-driver telemetry processing: team lookup, the derivation of feature
 * rows from one driver's raw rows, the extraction of the driver code from a
 * CSV file name, and the assembly of a track's table from its files.
 */
module Processing {
  import opened Wrappers
  import opened Numeric
  import opened Config
  import opened Foreign

  // ---------------------------------------------------------------------
  // Team lookup
  // ---------------------------------------------------------------------

  /** Position of the first team, in table order, whose driver list contains `code`. */
  function TeamIndex(teams: seq<(string, seq<string>)>, code: string): (r: Option<nat>)
    ensures r.Some? ==> r.value < |teams| && code in teams[r.value].1
    ensures r.Some? ==> forall j :: 0 <= j < r.value ==> code !in teams[j].1
    ensures r.None? <==> forall j :: 0 <= j < |teams| ==> code !in teams[j].1
  {
    if teams == [] then None
    else if code in teams[0].1 then Some(0)
    else
      match TeamIndex(teams[1..], code)
      case None => None
      case Some(k) => Some(k + 1)
  }

  /** The team of a driver, or "Unknown". */
  function TeamOf(code: string): string
  {
    match TeamIndex(TEAMS, code)
    case Some(i) => TEAMS[i].0
    case None => "Unknown"
  }

  /** The loop search of get_driver_team: scan the teams in order and return on the first hit. */
  method GetDriverTeam(code: string) returns (team: string)
    ensures team == TeamOf(code)
    ensures team == "Unknown" <==> forall j :: 0 <= j < |TEAMS| ==> code !in TEAMS[j].1
  {
    TeamNamesDistinct();
    var i := 0;
    while i < |TEAMS|
      invariant 0 <= i <= |TEAMS|
      invariant forall j :: 0 <= j < i ==> code !in TEAMS[j].1
    {
      if code in TEAMS[i].1 {
        return TEAMS[i].0;
      }
      i := i + 1;
    }
    return "Unknown";
  }

  /** Every code of the rosters resolves to the one team that lists it, never to "Unknown". */
  lemma RosterCodesHaveTeams(i: nat, p: nat)
    requires i < |TEAMS| && p < |TEAMS[i].1|
    ensures TeamOf(TEAMS[i].1[p]) == TEAMS[i].0 != "Unknown"
  {
    DriverInOneTeam();
    TeamNamesDistinct();
    var code := TEAMS[i].1[p];
    var r := TeamIndex(TEAMS, code);
    assert code in TEAMS[i].1;
    assert r.Some?;
    assert code in TEAMS[r.value].1;
    assert r.value == i;
  }

  /** `TEAMS.get(team, [])`: the roster of the first team with that name. */
  function TeamDrivers(team: string): (ds: seq<string>)
    ensures (forall j :: 0 <= j < |TEAMS| ==> TEAMS[j].0 != team) ==> ds == []
    ensures forall j :: 0 <= j < |TEAMS| && TEAMS[j].0 == team ==> ds == TEAMS[j].1
  {
    TeamNamesDistinct();
    RosterOf(TEAMS, team)
  }

  function RosterOf(teams: seq<(string, seq<string>)>, team: string): (ds: seq<string>)
    ensures (forall j :: 0 <= j < |teams| ==> teams[j].0 != team) ==> ds == []
    ensures forall j :: 0 <= j < |teams| && teams[j].0 == team && (forall i :: 0 <= i < j ==> teams[i].0 != team) ==>
      ds == teams[j].1
  {
    if teams == [] then [] else if teams[0].0 == team then teams[0].1 else RosterOf(teams[1..], team)
  }

  /** The second-listed driver of a team; an unknown team has none. */
  function IsSecondDriver(code: string, team: string): (r: bool)
    ensures r <==> |TeamDrivers(team)| > 1 && code == TeamDrivers(team)[1]
  {
    var ds := TeamDrivers(team);
    |ds| > 1 && code == ds[1]
  }

  /** Of each team's two drivers exactly the second is the second driver; an unknown team gives false. */
  lemma SecondDriverPerTeam(i: nat, code: string)
    requires i < |TEAMS|
    ensures IsSecondDriver(code, TEAMS[i].0) <==> code == TEAMS[i].1[1]
    ensures !IsSecondDriver(code, "Unknown")
  {
    TeamNamesDistinct();
    TwoDriversPerTeam();
  }

  // ---------------------------------------------------------------------
  // Raw telemetry and feature derivation
  // ---------------------------------------------------------------------

  /**
   * One raw telemetry row as read from a CSV file.  A field whose column is
   * absent from the file's header holds an arbitrary value and is never read.
   */
  datatype RawRow = RawRow(rpm: Num, speed: Num, gear: Num, throttle: Num, brake: bool, nBrake: Num)

  /** A driver's CSV file: its header and its rows in time order. */
  datatype RawTable = RawTable(columns: set<string>, rows: seq<RawRow>)

  const REQUIRED_COLUMNS: seq<string> := ["RPM", "Speed", "nGear", "Throttle"]

  /** The names of `cols` absent from `present`, in order. */
  function Absent(cols: seq<string>, present: set<string>): (m: seq<string>)
    ensures forall c :: c in m <==> c in cols && c !in present
    ensures |m| <= |cols|
  {
    if cols == [] then []
    else (if cols[0] in present then [] else [cols[0]]) + Absent(cols[1..], present)
  }

  /**
   * The nBrake value of row i: the Brake flag cast to 0/1 when a Brake column
   * exists, otherwise an existing nBrake column, otherwise 0.
   */
  function NBrake(t: RawTable, i: nat): (r: Num)
    requires i < |t.rows|
    ensures "Brake" in t.columns ==> r == (if t.rows[i].brake then Fin(1.0) else Fin(0.0))
    ensures "Brake" !in t.columns && "nBrake" in t.columns ==> r == t.rows[i].nBrake
    ensures "Brake" !in t.columns && "nBrake" !in t.columns ==> r == Fin(0.0)
  {
    if "Brake" in t.columns then (if t.rows[i].brake then Fin(1.0) else Fin(0.0))
    else if "nBrake" in t.columns then t.rows[i].nBrake
    else Fin(0.0)
  }

  function Speeds(t: RawTable): (s: seq<Num>)
    ensures |s| == |t.rows|
  {
    seq(|t.rows|, i requires 0 <= i < |t.rows| => t.rows[i].speed)
  }

  function Throttles(t: RawTable): (s: seq<Num>)
    ensures |s| == |t.rows|
  {
    seq(|t.rows|, i requires 0 <= i < |t.rows| => t.rows[i].throttle)
  }

  /** `x.diff().abs().fillna(0)` at position i. */
  function AbsDiff(xs: seq<Num>, i: nat): Num
    requires i < |xs|
  {
    if i == 0 then Fin(0.0) else FillNaN(Abs(Sub(xs[i], xs[i - 1])))
  }

  /** `x.diff().fillna(0)` at position i. */
  function Diff(xs: seq<Num>, i: nat): Num
    requires i < |xs|
  {
    if i == 0 then Fin(0.0) else FillNaN(Sub(xs[i], xs[i - 1]))
  }

  /** The ten feature values of one row before undefined values are filtered out. */
  datatype Cells = Cells(
    rpm: Num, speed: Num, gear: Num, throttle: Num, nBrake: Num,
    throttleRate: Num, brakeIntensity: Num, gearEfficiency: Num,
    speedVariability: Num, acceleration: Num)

  predicate Defined(c: Cells)
  {
    && c.rpm.Fin? && c.speed.Fin? && c.gear.Fin? && c.throttle.Fin? && c.nBrake.Fin?
    && c.throttleRate.Fin? && c.brakeIntensity.Fin? && c.gearEfficiency.Fin?
    && c.speedVariability.Fin? && c.acceleration.Fin?
  }

  /** The derived cells of raw row i; differences look at raw row i - 1, dropped or not. */
  function CellsAt(t: RawTable, lib: Lib, i: nat): Cells
    requires i < |t.rows|
  {
    var r := t.rows[i];
    var nb := NBrake(t, i);
    Cells(
      r.rpm, r.speed, r.gear, r.throttle, nb,
      AbsDiff(Throttles(t), i),
      Mul(nb, r.speed),
      Div(r.rpm, Add(r.gear, Fin(1.0))),
      FillNaN(lib.rollingStd(Speeds(t), i)),
      Diff(Speeds(t), i))
  }

  function Derive(t: RawTable, lib: Lib): (cs: seq<Cells>)
    ensures |cs| == |t.rows|
  {
    seq(|t.rows|, i requires 0 <= i < |t.rows| => CellsAt(t, lib, i))
  }

  /** Positions of the rows that survive `replace([inf, -inf], nan).dropna()`. */
  function Kept(cs: seq<Cells>): (ks: seq<nat>)
    ensures |ks| <= |cs|
    ensures forall k :: 0 <= k < |ks| ==> ks[k] < |cs| && Defined(cs[ks[k]])
    ensures forall k, l :: 0 <= k < l < |ks| ==> ks[k] < ks[l]
    ensures forall i :: 0 <= i < |cs| && Defined(cs[i]) ==> i in ks
  {
    if cs == [] then []
    else
      var n := |cs| - 1;
      var prefix := Kept(cs[..n]);
      assert forall i :: 0 <= i < n ==> cs[..n][i] == cs[i];
      if Defined(cs[n]) then prefix + [n] else prefix
  }

  /** A derived feature row; every value is finite. */
  datatype FeatureRow = FeatureRow(
    rpm: real, speed: real, gear: real, throttle: real, nBrake: real,
    throttleRate: real, brakeIntensity: real, gearEfficiency: real,
    speedVariability: real, acceleration: real,
    driver: string, team: string)

  function ToRow(c: Cells, driver: string, team: string): FeatureRow
    requires Defined(c)
  {
    FeatureRow(c.rpm.v, c.speed.v, c.gear.v, c.throttle.v, c.nBrake.v,
               c.throttleRate.v, c.brakeIntensity.v, c.gearEfficiency.v,
               c.speedVariability.v, c.acceleration.v, driver, team)
  }

  /** The value of a derived column, by its name. */
  function Column(r: FeatureRow, name: string): real
  {
    match name
    case "RPM" => r.rpm
    case "Speed" => r.speed
    case "nGear" => r.gear
    case "Throttle" => r.throttle
    case "nBrake" => r.nBrake
    case "ThrottleRate" => r.throttleRate
    case "BrakeIntensity" => r.brakeIntensity
    case "GearEfficiency" => r.gearEfficiency
    case "SpeedVariability" => r.speedVariability
    case "Acceleration" => r.acceleration
    case _ => 0.0
  }

  /** The columns that feature derivation produces, in the order it adds them. */
  const DERIVED_COLUMNS: seq<string> := [
    "RPM", "Speed", "nGear", "Throttle", "nBrake",
    "ThrottleRate", "BrakeIntensity", "GearEfficiency", "SpeedVariability", "Acceleration"
  ]

  /** Every clustering feature column is one of the derived columns. */
  lemma FeatureColumnsAreDerived()
    ensures FEATURE_COLUMNS == DERIVED_COLUMNS
  {
  }

  /** Result of processing one driver's file. */
  datatype Telemetry = Features(rows: seq<FeatureRow>) | MissingColumns(missing: seq<string>)

  /**
   * process_driver_telemetry without the file read: check the required
   * columns, derive the features, drop every row holding an undefined or
   * infinite value, and tag the rows with driver and team.
   */
  function ProcessDriverTelemetry(t: RawTable, driver: string, lib: Lib): (r: Telemetry)
    ensures r.MissingColumns? <==> exists c :: c in REQUIRED_COLUMNS && c !in t.columns
    ensures r.MissingColumns? ==> forall c :: c in r.missing <==> c in REQUIRED_COLUMNS && c !in t.columns
    ensures r.Features? ==> |r.rows| <= |t.rows|
    ensures r.Features? ==> forall k :: 0 <= k < |r.rows| ==>
      r.rows[k].driver == driver && r.rows[k].team == TeamOf(driver)
  {
    var missing := Absent(REQUIRED_COLUMNS, t.columns);
    assert forall c :: c in REQUIRED_COLUMNS && c !in t.columns ==> c in missing;
    if missing != [] then
      assert missing[0] in missing;
      MissingColumns(missing)
    else
      var cs := Derive(t, lib);
      var ks := Kept(cs);
      Features(seq(|ks|, k requires 0 <= k < |ks| => ToRow(cs[ks[k]], driver, TeamOf(driver))))
  }

  /** The positions of the raw rows behind the produced rows, in increasing order. */
  function Origins(t: RawTable, lib: Lib): seq<nat>
  {
    Kept(Derive(t, lib))
  }

  /** Produced row k is the finite image of the derived cells at its origin. */
  lemma OriginCells(t: RawTable, driver: string, lib: Lib, k: nat)
    requires ProcessDriverTelemetry(t, driver, lib).Features?
    requires k < |ProcessDriverTelemetry(t, driver, lib).rows|
    ensures |Origins(t, lib)| == |ProcessDriverTelemetry(t, driver, lib).rows|
    ensures Origins(t, lib)[k] < |t.rows|
    ensures Defined(CellsAt(t, lib, Origins(t, lib)[k]))
    ensures ProcessDriverTelemetry(t, driver, lib).rows[k] ==
      ToRow(CellsAt(t, lib, Origins(t, lib)[k]), driver, TeamOf(driver))
  {
    var cs := Derive(t, lib);
    var ks := Kept(cs);
    assert cs[ks[k]] == CellsAt(t, lib, ks[k]);
  }

  /** What finiteness of the derived cells at raw row i says about the raw rows i and i - 1. */
  lemma DefinedCellsFacts(t: RawTable, lib: Lib, i: nat)
    requires i < |t.rows| && Defined(CellsAt(t, lib, i))
    ensures
      var c := CellsAt(t, lib, i);
      var raw := t.rows[i];
      && raw.rpm == c.rpm && raw.speed == c.speed && raw.gear == c.gear && raw.throttle == c.throttle
      && NBrake(t, i) == c.nBrake
      && c.brakeIntensity.v == c.nBrake.v * c.speed.v
      && c.gear.v + 1.0 != 0.0 && c.gearEfficiency.v == c.rpm.v / (c.gear.v + 1.0)
      && (i == 0 ==> c.throttleRate.v == 0.0 && c.acceleration.v == 0.0)
      && (i > 0 ==> (t.rows[i - 1].throttle.Fin? || t.rows[i - 1].throttle.NaN?))
      && (i > 0 && t.rows[i - 1].throttle.Fin? ==>
            c.throttleRate.v == (if c.throttle.v >= t.rows[i - 1].throttle.v
                                 then c.throttle.v - t.rows[i - 1].throttle.v
                                 else t.rows[i - 1].throttle.v - c.throttle.v))
      && (i > 0 && t.rows[i - 1].throttle.NaN? ==> c.throttleRate.v == 0.0)
      && (i > 0 && t.rows[i - 1].speed.Fin? ==> c.acceleration.v == c.speed.v - t.rows[i - 1].speed.v)
      && (i > 0 && !t.rows[i - 1].speed.Fin? ==> t.rows[i - 1].speed.NaN? && c.acceleration.v == 0.0)
  {
    if i > 0 {
      assert Throttles(t)[i - 1] == t.rows[i - 1].throttle;
      assert Speeds(t)[i - 1] == t.rows[i - 1].speed;
      assert Throttles(t)[i] == t.rows[i].throttle;
      assert Speeds(t)[i] == t.rows[i].speed;
    }
  }

  /**
   * Feature row `row` is what raw row i gives: it carries that row's raw
   * values, its ThrottleRate and Acceleration are differences with raw row
   * i - 1 (zero at the first row and when that difference is undefined),
   * BrakeIntensity is nBrake x Speed and GearEfficiency is RPM / (nGear + 1)
   * with a non-zero denominator.
   */
  predicate RowFromRaw(t: RawTable, i: nat, row: FeatureRow)
    requires i < |t.rows|
  {
    var raw := t.rows[i];
    && raw.rpm == Fin(row.rpm) && raw.speed == Fin(row.speed)
    && raw.gear == Fin(row.gear) && raw.throttle == Fin(row.throttle)
    && NBrake(t, i) == Fin(row.nBrake)
    && row.brakeIntensity == row.nBrake * row.speed
    && row.gear + 1.0 != 0.0 && row.gearEfficiency == row.rpm / (row.gear + 1.0)
    && (i == 0 ==> row.throttleRate == 0.0 && row.acceleration == 0.0)
    && (i > 0 ==> (t.rows[i - 1].throttle.Fin? || t.rows[i - 1].throttle.NaN?))
    && (i > 0 && t.rows[i - 1].throttle.Fin? ==>
          row.throttleRate == (if row.throttle >= t.rows[i - 1].throttle.v
                               then row.throttle - t.rows[i - 1].throttle.v
                               else t.rows[i - 1].throttle.v - row.throttle))
    && (i > 0 && t.rows[i - 1].throttle.NaN? ==> row.throttleRate == 0.0)
    && (i > 0 && t.rows[i - 1].speed.Fin? ==> row.acceleration == row.speed - t.rows[i - 1].speed.v)
    && (i > 0 && !t.rows[i - 1].speed.Fin? ==> t.rows[i - 1].speed.NaN? && row.acceleration == 0.0)
  }

  /** The row made from defined cells satisfies RowFromRaw. */
  lemma CellsRowFromRaw(t: RawTable, lib: Lib, i: nat, driver: string, team: string)
    requires i < |t.rows| && Defined(CellsAt(t, lib, i))
    ensures RowFromRaw(t, i, ToRow(CellsAt(t, lib, i), driver, team))
  {
    DefinedCellsFacts(t, lib, i);
  }

  /** Produced row k comes from raw row Origins[k] as RowFromRaw describes. */
  lemma ProducedRow(t: RawTable, driver: string, lib: Lib, k: nat)
    requires ProcessDriverTelemetry(t, driver, lib).Features?
    requires k < |ProcessDriverTelemetry(t, driver, lib).rows|
    ensures |Origins(t, lib)| == |ProcessDriverTelemetry(t, driver, lib).rows|
    ensures Origins(t, lib)[k] < |t.rows|
    ensures RowFromRaw(t, Origins(t, lib)[k], ProcessDriverTelemetry(t, driver, lib).rows[k])
  {
    OriginCells(t, driver, lib, k);
    CellsRowFromRaw(t, lib, Origins(t, lib)[k], driver, TeamOf(driver));
  }

  /** ThrottleRate is never negative. */
  lemma ThrottleRateNonNegative(t: RawTable, driver: string, lib: Lib, k: nat)
    requires ProcessDriverTelemetry(t, driver, lib).Features?
    requires k < |ProcessDriverTelemetry(t, driver, lib).rows|
    ensures ProcessDriverTelemetry(t, driver, lib).rows[k].throttleRate >= 0.0
  {
    ProducedRow(t, driver, lib, k);
    var row := ProcessDriverTelemetry(t, driver, lib).rows[k];
    assert RowFromRaw(t, Origins(t, lib)[k], row);
  }

  /** A raw row produces a feature row exactly when all of its derived values are finite. */
  lemma RowSurvivesIffDefined(t: RawTable, lib: Lib, i: nat)
    requires i < |t.rows|
    ensures i in Origins(t, lib) <==> Defined(CellsAt(t, lib, i))
  {
    var cs := Derive(t, lib);
    assert cs[i] == CellsAt(t, lib, i);
  }

  /** A row in gear -1 divides by zero and never produces a feature row. */
  lemma GearMinusOneDropped(t: RawTable, lib: Lib, i: nat)
    requires i < |t.rows| && t.rows[i].gear == Fin(-1.0)
    ensures i !in Origins(t, lib)
  {
    RowSurvivesIffDefined(t, lib, i);
  }

  // ---------------------------------------------------------------------
  // Driver code from a file name
  // ---------------------------------------------------------------------

  predicate EndsWithCsv(s: string)
  {
    |s| >= 4 && s[|s| - 4..] == ".csv"
  }

  /** `os.path.basename`: the part after the last '/'. */
  function Basename(path: string): (b: string)
    ensures '/' !in b
    ensures |b| <= |path| && b == path[|path| - |b|..]
    ensures |b| < |path| ==> path[|path| - |b| - 1] == '/'
  {
    if path == [] || path[|path| - 1] == '/' then []
    else Basename(path[..|path| - 1]) + [path[|path| - 1]]
  }

  lemma BasenameKeepsCsv(path: string)
    requires EndsWithCsv(path)
    ensures EndsWithCsv(Basename(path))
  {
    var b := Basename(path);
    assert b[|b| - 4..] == path[|path| - 4..];
  }

  /** `s.replace(pat, '')`: every occurrence of `pat`, scanned left to right, removed. */
  function RemoveAll(s: string, pat: string): string
    requires |pat| > 0
    decreases |s|
  {
    if |s| < |pat| then s
    else if s[..|pat|] == pat then RemoveAll(s[|pat|..], pat)
    else [s[0]] + RemoveAll(s[1..], pat)
  }

  /** `s.split(sep)`: never empty, and an empty string gives one empty part. */
  function Split(s: string, sep: char): (parts: seq<string>)
    ensures |parts| >= 1
    ensures forall p :: p in parts ==> sep !in p
  {
    if s == [] then [[]]
    else
      var ps := Split(s[..|s| - 1], sep);
      var c := s[|s| - 1];
      if c == sep then ps + [[]]
      else ps[..|ps| - 1] + [ps[|ps| - 1] + [c]]
  }

  /** `sep.join(parts)`. */
  function Join(parts: seq<string>, sep: char): string
    requires |parts| >= 1
  {
    if |parts| == 1 then parts[0]
    else Join(parts[..|parts| - 1], sep) + [sep] + parts[|parts| - 1]
  }

  lemma JoinAppendChar(ps: seq<string>, sep: char, c: char)
    requires |ps| >= 1
    ensures Join(ps[..|ps| - 1] + [ps[|ps| - 1] + [c]], sep) == Join(ps, sep) + [c]
  {
    var qs := ps[..|ps| - 1] + [ps[|ps| - 1] + [c]];
    if |ps| > 1 {
      assert qs[..|qs| - 1] == ps[..|ps| - 1];
    }
  }

  lemma JoinAppendEmpty(ps: seq<string>, sep: char)
    requires |ps| >= 1
    ensures Join(ps + [[]], sep) == Join(ps, sep) + [sep]
  {
    assert (ps + [[]])[..|ps|] == ps;
  }

  /** Joining the parts of a split gives back the string. */
  lemma {:induction false} SplitJoin(s: string, sep: char)
    ensures Join(Split(s, sep), sep) == s
  {
    if s != [] {
      var pre := s[..|s| - 1];
      SplitJoin(pre, sep);
      if s[|s| - 1] == sep {
        JoinAppendEmpty(Split(pre, sep), sep);
      } else {
        JoinAppendChar(Split(pre, sep), sep, s[|s| - 1]);
      }
      assert s == pre + [s[|s| - 1]];
    }
  }

  /** Splitting `p + sep + c` adds `c` as the last part when `c` holds no separator. */
  lemma {:induction false} SplitAppendPart(p: string, sep: char, c: string)
    requires sep !in c
    ensures Split(p + [sep] + c, sep) == Split(p, sep) + [c]
  {
    if c == [] {
      assert (p + [sep] + c)[..|p + [sep] + c| - 1] == p;
    } else {
      var c' := c[..|c| - 1];
      SplitAppendPart(p, sep, c');
      assert (p + [sep] + c)[..|p + [sep] + c| - 1] == p + [sep] + c';
      assert c' + [c[|c| - 1]] == c;
    }
  }

  predicate IsLowerChar(ch: char) { 'a' <= ch <= 'z' }
  predicate IsUpperChar(ch: char) { 'A' <= ch <= 'Z' }

  /** Python's `str.isupper` over ASCII: some cased character and no lower-case one. */
  predicate IsUpper(s: string)
  {
    (exists i :: 0 <= i < |s| && IsUpperChar(s[i])) && forall i :: 0 <= i < |s| ==> !IsLowerChar(s[i])
  }

  predicate IsCode(s: string)
  {
    |s| == 3 && IsUpper(s)
  }

  /** The first part that looks like a driver code. */
  function FirstCode(parts: seq<string>): (r: Option<string>)
    ensures r.Some? ==> r.value in parts && IsCode(r.value)
    ensures r.None? <==> forall p :: p in parts ==> !IsCode(p)
    ensures r.Some? ==> exists i :: 0 <= i < |parts| && parts[i] == r.value &&
                                   forall j :: 0 <= j < i ==> !IsCode(parts[j])
  {
    if parts == [] then None
    else if IsCode(parts[0]) then Some(parts[0])
    else
      var r := FirstCode(parts[1..]);
      if r.Some? then
        var i :| 0 <= i < |parts[1..]| && parts[1..][i] == r.value &&
                 forall j :: 0 <= j < i ==> !IsCode(parts[1..][j]);
        assert parts[i + 1] == r.value && forall j :: 0 <= j < i + 1 ==> !IsCode(parts[j]);
        r
      else r
  }

  /** The file name without its ".csv" occurrences. */
  function Stem(base: string): string
  {
    RemoveAll(base, ".csv")
  }

  /**
   * The driver code of a CSV file name: a three-character upper-case stem as
   * it is, else the first '-'-separated three-character upper-case part,
   * else the whole stem.
   */
  function DriverCode(base: string): (code: string)
    requires EndsWithCsv(base)
    ensures IsCode(Stem(base)) ==> code == Stem(base)
    ensures !IsCode(Stem(base)) && FirstCode(Split(Stem(base), '-')).Some? ==>
      code == FirstCode(Split(Stem(base), '-')).value
    ensures code == Stem(base) || (IsCode(code) && code in Split(Stem(base), '-'))
  {
    var stem := Stem(base);
    if IsCode(stem) then stem
    else
      match FirstCode(Split(stem, '-'))
      case Some(c) => c
      case None => stem
  }

  lemma {:induction false} RemoveCsvSuffix(s: string)
    requires '.' !in s
    ensures RemoveAll(s + ".csv", ".csv") == s
  {
    if s != [] {
      assert (s + ".csv")[..4] != ".csv" by {
        assert (s + ".csv")[0] == s[0] != '.';
      }
      assert (s + ".csv")[1..] == s[1..] + ".csv";
      RemoveCsvSuffix(s[1..]);
    } else {
      assert (s + ".csv")[4..] == [];
    }
  }

  /**
   * The file names the collector writes, `<prefix>-<CODE>.csv`, give back the
   * code when no '-'-part of the prefix looks like a code, and so does
   * `<CODE>.csv`.
   */
  lemma DriverCodeOfCollectedFile(prefix: string, code: string)
    requires IsCode(code) && '.' !in code && '-' !in code && '.' !in prefix
    requires forall p :: p in Split(prefix, '-') ==> !IsCode(p)
    ensures DriverCode(code + ".csv") == code
    ensures DriverCode(prefix + "-" + code + ".csv") == code
  {
    RemoveCsvSuffix(code);
    var s := prefix + "-" + code;
    assert '.' !in s;
    assert prefix + "-" + code + ".csv" == s + ".csv";
    RemoveCsvSuffix(s);
    assert Stem(prefix + "-" + code + ".csv") == s;
    assert |s| > 3;
    assert s == prefix + ['-'] + code;
    SplitAppendPart(prefix, '-', code);
    var parts := Split(s, '-');
    assert parts == Split(prefix, '-') + [code];
    var r := FirstCode(parts);
    assert r.Some?;
    var i :| 0 <= i < |parts| && parts[i] == r.value && forall j :: 0 <= j < i ==> !IsCode(parts[j]);
    assert i == |parts| - 1;
  }

  // ---------------------------------------------------------------------
  // Loading a track
  // ---------------------------------------------------------------------

  /** A CSV file found under the track's directory (possibly one level down) and its parsed contents. */
  datatype CsvFile = CsvFile(name: string, table: RawTable)

  /** Per-driver summary kept in driver_stats. */
  datatype DriverStats = DriverStats(
    samples: nat, team: string, avgSpeed: real, maxSpeed: real, avgThrottle: real, brakeUsage: real)

  /** The combined table of all loaded drivers and the per-driver summaries. */
  datatype LoadedTrack = LoadedTrack(data: seq<FeatureRow>, stats: map<string, DriverStats>)

  function SpeedColumn(rows: seq<FeatureRow>): (s: seq<real>)
    ensures |s| == |rows|
  {
    seq(|rows|, i requires 0 <= i < |rows| => rows[i].speed)
  }

  function ThrottleColumn(rows: seq<FeatureRow>): (s: seq<real>)
    ensures |s| == |rows|
  {
    seq(|rows|, i requires 0 <= i < |rows| => rows[i].throttle)
  }

  function BrakeColumn(rows: seq<FeatureRow>): (s: seq<real>)
    ensures |s| == |rows|
  {
    seq(|rows|, i requires 0 <= i < |rows| => rows[i].nBrake)
  }

  /** The summary of a loaded driver: its sample count, team and column means and maximum. */
  function StatsOf(rows: seq<FeatureRow>, code: string): (s: DriverStats)
    requires |rows| > 0
    ensures s.samples == |rows| > 0
    ensures s.avgSpeed <= s.maxSpeed
    ensures s.team == TeamOf(code)
  {
    MeanAtMostMax(SpeedColumn(rows));
    DriverStats(|rows|, TeamOf(code), Mean(SpeedColumn(rows)), Max(SpeedColumn(rows)),
                Mean(ThrottleColumn(rows)), Mean(BrakeColumn(rows)))
  }

  predicate AllCsv(files: seq<CsvFile>)
  {
    forall i :: 0 <= i < |files| ==> EndsWithCsv(files[i].name)
  }

  /** What the listing of a track directory yields: the files whose names end in ".csv". */
  type CsvListing = files: seq<CsvFile> | AllCsv(files) witness []

  /** The code extracted from a file's name and the result of processing the file under it. */
  datatype Outcome = Outcome(code: string, result: Telemetry)

  function Process(f: CsvFile, lib: Lib): Outcome
    requires EndsWithCsv(f.name)
  {
    BasenameKeepsCsv(f.name);
    var code := DriverCode(Basename(f.name));
    Outcome(code, ProcessDriverTelemetry(f.table, code, lib))
  }

  function Outcomes(files: seq<CsvFile>, lib: Lib): (os: seq<Outcome>)
    requires AllCsv(files)
    ensures |os| == |files|
  {
    if files == [] then []
    else
      var n := |files| - 1;
      assert AllCsv(files[..n]);
      Outcomes(files[..n], lib) + [Process(files[n], lib)]
  }

  /** A file is kept when its processing produced at least one row. */
  predicate Loaded(o: Outcome)
  {
    o.result.Features? && |o.result.rows| > 0
  }

  /** The positions of the files whose table is appended to all_data: all of them, increasing. */
  function LoadedPositions(os: seq<Outcome>): (ps: seq<nat>)
    ensures |ps| <= |os|
    ensures forall k :: 0 <= k < |ps| ==> ps[k] < |os| && Loaded(os[ps[k]])
    ensures forall k, l :: 0 <= k < l < |ps| ==> ps[k] < ps[l]
    ensures forall i :: 0 <= i < |os| && Loaded(os[i]) ==> i in ps
  {
    if os == [] then []
    else
      var n := |os| - 1;
      var pre := LoadedPositions(os[..n]);
      assert forall i :: 0 <= i < n ==> os[..n][i] == os[i];
      if Loaded(os[n]) then pre + [n] else pre
  }

  /** The tables appended to all_data, in file order. */
  function LoadedTables(os: seq<Outcome>): (ts: seq<seq<FeatureRow>>)
    ensures var ps := LoadedPositions(os);
      |ts| == |ps| && forall k :: 0 <= k < |ts| ==> ts[k] == os[ps[k]].result.rows
    ensures forall k :: 0 <= k < |ts| ==> |ts[k]| > 0
    ensures |ts| <= |os|
    ensures ts == [] <==> forall i :: 0 <= i < |os| ==> !Loaded(os[i])
  {
    var ps := LoadedPositions(os);
    assert ps != [] ==> Loaded(os[ps[0]]);
    seq(|ps|, k requires 0 <= k < |ps| => os[ps[k]].result.rows)
  }

  /** driver_stats after the loop: one entry per loaded code, the last file with that code winning. */
  function StatsTable(os: seq<Outcome>): map<string, DriverStats>
  {
    if os == [] then map[]
    else
      var n := |os| - 1;
      var pre := StatsTable(os[..n]);
      if Loaded(os[n]) then pre[os[n].code := StatsOf(os[n].result.rows, os[n].code)] else pre
  }

  function Concat(ts: seq<seq<FeatureRow>>): seq<FeatureRow>
  {
    if ts == [] then [] else Concat(ts[..|ts| - 1]) + ts[|ts| - 1]
  }

  function TotalRows(ts: seq<seq<FeatureRow>>): nat
  {
    if ts == [] then 0 else TotalRows(ts[..|ts| - 1]) + |ts[|ts| - 1]|
  }

  /** The combined row count is the sum of the per-driver counts. */
  lemma {:induction false} ConcatSize(ts: seq<seq<FeatureRow>>)
    ensures |Concat(ts)| == TotalRows(ts)
  {
    if ts != [] {
      ConcatSize(ts[..|ts| - 1]);
    }
  }

  /** The driver_stats keys are exactly the codes of the loaded files, each with a positive count. */
  lemma {:induction false} StatsTableKeys(os: seq<Outcome>)
    ensures forall c :: c in StatsTable(os) <==> exists i :: 0 <= i < |os| && Loaded(os[i]) && os[i].code == c
    ensures forall c :: c in StatsTable(os) ==> StatsTable(os)[c].samples > 0
  {
    if os != [] {
      var n := |os| - 1;
      StatsTableKeys(os[..n]);
      assert forall i :: 0 <= i < n ==> os[..n][i] == os[i];
    }
  }

  /** Result of load_track_data on the listed files: nothing when no driver loaded. */
  function LoadTrack(files: seq<CsvFile>, lib: Lib): Option<LoadedTrack>
    requires AllCsv(files)
  {
    var os := Outcomes(files, lib);
    var ts := LoadedTables(os);
    if ts == [] then None else Some(LoadedTrack(Concat(ts), StatsTable(os)))
  }

  /**
   * The loop of load_track_data over the listed files: extract the code,
   * process the file, keep a non-empty result and record its summary.
   */
  method LoadTrackData(files: seq<CsvFile>, lib: Lib) returns (r: Option<LoadedTrack>)
    requires AllCsv(files)
    ensures r == LoadTrack(files, lib)
    ensures r.Some? ==> |r.value.data| == TotalRows(LoadedTables(Outcomes(files, lib))) > 0
  {
    var allData: seq<seq<FeatureRow>> := [];
    var stats: map<string, DriverStats> := map[];
    var i := 0;
    while i < |files|
      invariant 0 <= i <= |files|
      invariant allData == LoadedTables(Outcomes(files[..i], lib))
      invariant stats == StatsTable(Outcomes(files[..i], lib))
    {
      var o := Process(files[i], lib);
      OutcomesSnoc(files, i, lib);
      if Loaded(o) {
        allData := allData + [o.result.rows];
        stats := stats[o.code := StatsOf(o.result.rows, o.code)];
      }
      i := i + 1;
    }
    assert files[..i] == files;
    if allData == [] {
      return None;
    }
    ConcatSize(allData);
    TotalPositive(allData);
    r := Some(LoadedTrack(Concat(allData), stats));
  }

  lemma OutcomesSnoc(files: seq<CsvFile>, i: nat, lib: Lib)
    requires AllCsv(files) && i < |files|
    ensures var os := Outcomes(files[..i], lib); var o := Process(files[i], lib);
      LoadedTables(Outcomes(files[..i + 1], lib)) ==
        (if Loaded(o) then LoadedTables(os) + [o.result.rows] else LoadedTables(os)) &&
      StatsTable(Outcomes(files[..i + 1], lib)) ==
        (if Loaded(o) then StatsTable(os)[o.code := StatsOf(o.result.rows, o.code)] else StatsTable(os))
  {
    assert files[..i + 1][..i] == files[..i];
    assert Outcomes(files[..i + 1], lib) == Outcomes(files[..i], lib) + [Process(files[i], lib)];
    LoadedSnoc(Outcomes(files[..i], lib), Process(files[i], lib));
  }

  lemma LoadedSnoc(os: seq<Outcome>, o: Outcome)
    ensures LoadedTables(os + [o]) == if Loaded(o) then LoadedTables(os) + [o.result.rows] else LoadedTables(os)
    ensures StatsTable(os + [o]) ==
      if Loaded(o) then StatsTable(os)[o.code := StatsOf(o.result.rows, o.code)] else StatsTable(os)
  {
    assert (os + [o])[..|os|] == os;
    if Loaded(o) {
      TablesSnocLoaded(os, o);
    } else {
      TablesSnocSkipped(os, o);
    }
  }

  lemma TablesSnocLoaded(os: seq<Outcome>, o: Outcome)
    requires Loaded(o)
    ensures LoadedTables(os + [o]) == LoadedTables(os) + [o.result.rows]
  {
    LoadedPositionsSnoc(os, o);
    var ps := LoadedPositions(os);
    var ts := LoadedTables(os);
    var ts' := LoadedTables(os + [o]);
    assert forall k :: 0 <= k < |ps| ==> ts'[k] == ts[k];
    assert ts'[|ps|] == o.result.rows;
    assert ts' == ts + [o.result.rows];
  }

  lemma TablesSnocSkipped(os: seq<Outcome>, o: Outcome)
    requires !Loaded(o)
    ensures LoadedTables(os + [o]) == LoadedTables(os)
  {
    LoadedPositionsSnoc(os, o);
    var ps := LoadedPositions(os);
    var ts := LoadedTables(os);
    var ts' := LoadedTables(os + [o]);
    assert forall k :: 0 <= k < |ps| ==> ts'[k] == ts[k];
    assert ts' == ts;
  }

  /** Appending an outcome appends its position exactly when it loaded. */
  lemma LoadedPositionsSnoc(os: seq<Outcome>, o: Outcome)
    ensures LoadedPositions(os + [o]) == if Loaded(o) then LoadedPositions(os) + [|os|] else LoadedPositions(os)
  {
    assert (os + [o])[..|os|] == os;
  }

  lemma {:induction false} TotalPositive(ts: seq<seq<FeatureRow>>)
    requires |ts| > 0 && forall k :: 0 <= k < |ts| ==> |ts[k]| > 0
    ensures TotalRows(ts) > 0
  {
  }
}
