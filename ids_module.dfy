/** The command-line driver (src/ids_module.py): the `--data` checks of the
    modes, dispatch on the data file's suffix, the inclusive threshold filter
    and the alert loop of `main`, and the top-five selection and alert loop
    of `run_demo`. Everything outside the program (files, the model store,
    the clock, the dataset download, the packet library) is a field of
    `Env`; the parsed command line is an `Args` value. */
module IdsModule {
  import opened Wrappers
  import opened Seqs
  import opened Stats
  import opened Flows
  import opened Frames
  import opened FeatureEngineering
  import opened NetworkIds

  // ---------------------------------------------------------------------
  // Command line

  datatype Mode = TrainMode | DetectMode | DemoMode | DeepLearningMode

  /** The parsed arguments: `--mode`, `--data` (optional), `--model`,
      `--threshold` and `--output_path`. */
  datatype Args = Args(mode: Mode, data: Option<string>, model: string, threshold: real, outputPath: string)

  const DefaultMode := DemoMode
  const DefaultModelPath := "models/ids_model.pkl"
  const DefaultThreshold := 0.8
  const DefaultOutputPath := "results"

  /** The demo's fixed file locations. */
  const DemoModelPath := "models/ids_model.pkl"
  const DemoTrainPath := "datasets/nsl-kdd_train.csv"
  const DemoTestPath := "datasets/nsl-kdd_test.csv"

  /** Every mode but the demo reads `--data`. */
  predicate NeedsData(m: Mode)
  {
    m != DemoMode
  }

  /** The arguments `parse_args` yields for an empty command line: the
      demo, which reads no `--data`, with the demo's own model file, whose
      non-empty name `detect` would load. */
  function DefaultArgs(): (a: Args)
    ensures !NeedsData(a.mode) && a.data.None?
    ensures a.model == DemoModelPath && Truthy(Some(a.model))
    ensures a.threshold == 0.8 && |a.outputPath| > 0
  {
    Args(DefaultMode, None, DefaultModelPath, DefaultThreshold, DefaultOutputPath)
  }

  // ---------------------------------------------------------------------
  // Data-format dispatch

  predicate EndsWith(s: string, suffix: string)
  {
    |suffix| <= |s| && s[|s| - |suffix|..] == suffix
  }

  datatype DataKind = PcapData | CsvData | Unsupported

  /** The reader a data path is dispatched to, by its (case-sensitive) suffix. */
  function KindOf(path: string): (k: DataKind)
    ensures k == PcapData ==> EndsWith(path, ".pcap") || EndsWith(path, ".pcapng")
    ensures k == CsvData ==> EndsWith(path, ".csv")
    ensures k == Unsupported ==> !EndsWith(path, ".pcap") && !EndsWith(path, ".pcapng") && !EndsWith(path, ".csv")
  {
    if EndsWith(path, ".pcap") || EndsWith(path, ".pcapng") then PcapData
    else if EndsWith(path, ".csv") then CsvData
    else Unsupported
  }

  /** Appending a recognised suffix to any stem selects its reader. */
  lemma KindBySuffix(stem: string)
    ensures KindOf(stem + ".pcap") == PcapData
    ensures KindOf(stem + ".pcapng") == PcapData
    ensures KindOf(stem + ".csv") == CsvData
  {
    assert (stem + ".pcap")[|stem| + 5 - 5..] == ".pcap";
    assert (stem + ".pcapng")[|stem| + 7 - 7..] == ".pcapng";
    var c := stem + ".csv";
    assert c[|c| - 4..] == ".csv";
    if |c| >= 5 {
      assert c[|c| - 5..][4] == 'v';
    }
    if |c| >= 7 {
      assert c[|c| - 7..][6] == 'v';
    }
  }

  /** The suffix test is exact: upper case and trailing extensions are refused. */
  lemma KindIsCaseSensitive()
    ensures KindOf("capture.PCAP") == Unsupported
    ensures KindOf("flows.csv.gz") == Unsupported
  {
    assert "capture.PCAP"[7..] != ".pcap" by { assert "capture.PCAP"[7..][1] == 'P'; }
    assert "capture.PCAP"[5..] != ".pcapng" by { assert "capture.PCAP"[5..][6] == 'P'; }
    assert "capture.PCAP"[8..] != ".csv" by { assert "capture.PCAP"[8..][0] == 'P'; }
    assert "flows.csv.gz"[7..] != ".pcap" by { assert "flows.csv.gz"[7..][4] == 'z'; }
    assert "flows.csv.gz"[5..] != ".pcapng" by { assert "flows.csv.gz"[5..][6] == 'z'; }
    assert "flows.csv.gz"[8..] != ".csv" by { assert "flows.csv.gz"[8..][3] == 'z'; }
  }

  /** `os.path.join` of a directory and a relative file name. */
  function JoinPath(dir: string, name: string): (p: string)
    ensures EndsWith(p, name)
  {
    var p := if |dir| == 0 || dir[|dir| - 1] == '/' then dir + name else dir + "/" + name;
    assert p[|p| - |name|..] == name;
    p
  }

  // ---------------------------------------------------------------------
  // Scored rows and the threshold filter

  /** A row of the table alerts are chosen from: its prediction, its anomaly
      score, and the row as `to_dict` gives it (column name to value). */
  datatype ScoredRow = ScoredRow(prediction: int, score: real, record: map<string, Cell>)

  /** A row with its two result columns set (replacing columns of the same
      name). */
  function Scored(record: map<string, Cell>, p: int, s: real): ScoredRow
  {
    ScoredRow(p, s, record["prediction" := Num(p as real)]["anomaly_score" := Num(s)])
  }

  /** Row `i` of `records` with the `i`-th prediction and score. */
  function ScoreTable(records: seq<map<string, Cell>>, d: Detection): (rows: seq<ScoredRow>)
    requires |records| == |d.predictions| && |records| == |d.scores|
    ensures |rows| == |records|
    ensures forall i :: 0 <= i < |rows| ==>
      && rows[i].prediction == d.predictions[i] && rows[i].score == d.scores[i]
      && rows[i].record == records[i]["prediction" := Num(d.predictions[i] as real)]["anomaly_score" := Num(d.scores[i])]
  {
    var n := |records|;
    if n == 0 then []
    else
      ScoreTable(records[..n - 1], Detection(d.predictions[..n - 1], d.scores[..n - 1]))
        + [Scored(records[n - 1], d.predictions[n - 1], d.scores[n - 1])]
  }

  function AtLeast(t: real): ScoredRow -> bool
  {
    (r: ScoredRow) => r.score >= t
  }

  /** `alerts_df[alerts_df['anomaly_score'] >= threshold]`. */
  function SelectAlerts(rows: seq<ScoredRow>, t: real): (alerts: seq<ScoredRow>)
    ensures |alerts| <= |rows|
    ensures forall j :: 0 <= j < |alerts| ==> alerts[j].score >= t && alerts[j] in rows
    ensures forall i :: 0 <= i < |rows| && rows[i].score >= t ==> rows[i] in alerts
  {
    FilterMembers(rows, AtLeast(t));
    Filter(rows, AtLeast(t))
  }

  /** The alerts are exactly the rows scoring at least the threshold, in
      their original order: alert `j` is row `idx[j]`, the positions are
      increasing, and every row at or above the threshold is among them. */
  lemma SelectAlertsExactly(rows: seq<ScoredRow>, t: real)
    ensures var alerts, idx := SelectAlerts(rows, t), Positions(rows, AtLeast(t));
      && |alerts| == |idx|
      && (forall j :: 0 <= j < |idx| ==> idx[j] < |rows| && alerts[j] == rows[idx[j]] && rows[idx[j]].score >= t)
      && (forall j, j' :: 0 <= j < j' < |idx| ==> idx[j] < idx[j'])
      && (forall i :: 0 <= i < |rows| && rows[i].score >= t ==> i in idx)
  {
    FilterAt(rows, AtLeast(t));
    PositionsComplete(rows, AtLeast(t));
  }

  /** `n` rows without columns. */
  function Blank(n: nat): (records: seq<map<string, Cell>>)
    ensures |records| == n
  {
    seq(n, _ => map[])
  }

  /** The alerts of `main`: the rows of the two-column table of predictions
      and scores that reach `t`. */
  function Alerts(d: Detection, t: real): seq<ScoredRow>
    requires |d.predictions| == |d.scores|
  {
    SelectAlerts(ScoreTable(Blank(|d.scores|), d), t)
  }

  /** The alerts of a detection run of model `m` on `traffic`. */
  function DetectAlerts(m: Forest, traffic: DataFrame, t: real): seq<ScoredRow>
  {
    Alerts(Detected(m, PrepareData(traffic)), t)
  }

  // ---------------------------------------------------------------------
  // The alert loops

  /** The log entry for an alert row stamped `stamp`; the demo keeps the
      whole row as details, `main` an empty mapping. */
  function AlertFor(r: ScoredRow, stamp: string, withDetails: bool): (e: AlertEntry)
    ensures e.timestamp == stamp && e.prediction == r.prediction && e.score == r.score
    ensures withDetails ==> e.details == r.record
    ensures !withDetails ==> |e.details| == 0
  {
    AlertEntry(stamp, r.prediction, r.score, if withDetails then r.record else map[])
  }

  /** The entries an alert loop appends for `rows`; the `i`-th reads the
      clock as `now(i)`. */
  function AlertEntries(rows: seq<ScoredRow>, now: nat -> string, withDetails: bool): (entries: seq<AlertEntry>)
    ensures |entries| == |rows|
  {
    if |rows| == 0 then []
    else AlertEntries(rows[..|rows| - 1], now, withDetails) + [AlertFor(rows[|rows| - 1], now(|rows| - 1), withDetails)]
  }

  /** Entry `i` copies the prediction and score of row `i`. */
  lemma {:induction false} AlertEntriesCopyRows(rows: seq<ScoredRow>, now: nat -> string, withDetails: bool)
    ensures forall i :: 0 <= i < |rows| ==>
      var e := AlertEntries(rows, now, withDetails)[i];
      && e.timestamp == now(i) && e.prediction == rows[i].prediction && e.score == rows[i].score
      && e.details == (if withDetails then rows[i].record else map[])
  {
    if |rows| > 0 {
      var n := |rows| - 1;
      AlertEntriesCopyRows(rows[..n], now, withDetails);
      forall i | 0 <= i < n
        ensures AlertEntries(rows, now, withDetails)[i] == AlertEntries(rows[..n], now, withDetails)[i]
      {
      }
    }
  }

  /** An alert loop: appends one entry per row, in order, to the log. */
  method AppendAlerts(ids: NetworkIDS, rows: seq<ScoredRow>, now: nat -> string, withDetails: bool)
    modifies ids`alertLog
    ensures ids.alertLog == old(ids.alertLog) + AlertEntries(rows, now, withDetails)
  {
    for i := 0 to |rows|
      invariant ids.alertLog == old(ids.alertLog) + AlertEntries(rows[..i], now, withDetails)
    {
      assert rows[..i + 1][..i] == rows[..i];
      ids.alertLog := ids.alertLog + [AlertFor(rows[i], now(i), withDetails)];
    }
    assert rows[..|rows|] == rows;
  }

  // ---------------------------------------------------------------------
  // Top anomalies of the demo

  predicate Descending(s: seq<ScoredRow>)
  {
    forall i, j :: 0 <= i < j < |s| ==> s[i].score >= s[j].score
  }

  /** `x` placed after every leading element scoring at least as high. */
  function Insert(x: ScoredRow, s: seq<ScoredRow>): (r: seq<ScoredRow>)
    ensures |r| == |s| + 1
  {
    if |s| == 0 then [x]
    else if s[0].score >= x.score then [s[0]] + Insert(x, s[1..])
    else [x] + s
  }

  /** Inserting adds exactly `x` to the rows. */
  lemma {:induction false} InsertPermutes(x: ScoredRow, s: seq<ScoredRow>)
    ensures multiset(Insert(x, s)) == multiset(s) + multiset{x}
  {
    if |s| > 0 && s[0].score >= x.score {
      InsertPermutes(x, s[1..]);
      assert s == [s[0]] + s[1..];
    }
  }

  /** Inserting keeps every score under a bound both sides respect. */
  lemma {:induction false} InsertBounded(x: ScoredRow, s: seq<ScoredRow>, bound: real)
    requires x.score <= bound
    requires forall i :: 0 <= i < |s| ==> s[i].score <= bound
    ensures forall i :: 0 <= i < |Insert(x, s)| ==> Insert(x, s)[i].score <= bound
  {
    if |s| > 0 && s[0].score >= x.score {
      InsertBounded(x, s[1..], bound);
    }
  }

  lemma {:induction false} InsertDescending(x: ScoredRow, s: seq<ScoredRow>)
    requires Descending(s)
    ensures Descending(Insert(x, s))
  {
    if |s| > 0 {
      var r := Insert(x, s);
      if s[0].score >= x.score {
        var rest := Insert(x, s[1..]);
        InsertDescending(x, s[1..]);
        InsertBounded(x, s[1..], s[0].score);
        assert r == [s[0]] + rest;
        forall i, j | 0 <= i < j < |r| ensures r[i].score >= r[j].score {
          assert r[j] == rest[j - 1];
          if i > 0 {
            assert r[i] == rest[i - 1];
          }
        }
      } else {
        assert r == [x] + s;
        forall i, j | 0 <= i < j < |r| ensures r[i].score >= r[j].score {
          assert r[j] == s[j - 1];
          if i > 0 {
            assert r[i] == s[i - 1];
          } else {
            assert s[0].score >= s[j - 1].score;
          }
        }
      }
    }
  }

  /** `sort_values('anomaly_score', ascending=False)`, taking equal scores
      in row order. */
  function SortByScore(rows: seq<ScoredRow>): (sorted: seq<ScoredRow>)
    ensures |sorted| == |rows|
  {
    if |rows| == 0 then []
    else Insert(rows[|rows| - 1], SortByScore(rows[..|rows| - 1]))
  }

  /** Sorting neither adds nor drops a row. */
  lemma {:induction false} SortByScorePermutes(rows: seq<ScoredRow>)
    ensures multiset(SortByScore(rows)) == multiset(rows)
  {
    if |rows| > 0 {
      var n := |rows| - 1;
      SortByScorePermutes(rows[..n]);
      InsertPermutes(rows[n], SortByScore(rows[..n]));
      assert rows == rows[..n] + [rows[n]];
    }
  }

  lemma {:induction false} SortByScoreDescending(rows: seq<ScoredRow>)
    ensures Descending(SortByScore(rows))
  {
    if |rows| > 0 {
      var n := |rows| - 1;
      SortByScoreDescending(rows[..n]);
      InsertDescending(rows[n], SortByScore(rows[..n]));
    }
  }

  /** `.head(5)` of the sorted table. */
  function TopAnomalies(rows: seq<ScoredRow>): (top: seq<ScoredRow>)
    ensures |top| == if |rows| < 5 then |rows| else 5
  {
    SortByScore(rows)[..if |rows| < 5 then |rows| else 5]
  }

  /** The top anomalies are in non-increasing score order, are rows of the
      table, and no row left out scores higher than any row selected. */
  lemma TopAnomaliesAreHighest(rows: seq<ScoredRow>)
    ensures var top := TopAnomalies(rows);
      && Descending(top)
      && multiset(top) <= multiset(rows)
      && forall x, j :: x in multiset(rows) - multiset(top) && 0 <= j < |top| ==> x.score <= top[j].score
  {
    SortByScoreDescending(rows);
    SortByScorePermutes(rows);
    PrefixIsHighest(SortByScore(rows), |TopAnomalies(rows)|);
  }

  /** In a non-increasing sequence, a prefix is non-increasing and nothing
      after it scores higher than anything in it. */
  lemma PrefixIsHighest(sorted: seq<ScoredRow>, k: nat)
    requires Descending(sorted) && k <= |sorted|
    ensures Descending(sorted[..k])
    ensures multiset(sorted[..k]) <= multiset(sorted)
    ensures forall x, j :: x in multiset(sorted) - multiset(sorted[..k]) && 0 <= j < k ==> x.score <= sorted[..k][j].score
  {
    var top, rest := sorted[..k], sorted[k..];
    SplitMultiset(sorted, k);
    forall x, j | x in multiset(sorted) - multiset(top) && 0 <= j < k
      ensures x.score <= top[j].score
    {
      assert x in rest;
      var i :| 0 <= i < |rest| && rest[i] == x;
      assert sorted[k + i] == x && sorted[j] == top[j];
    }
  }

  lemma SplitMultiset(s: seq<ScoredRow>, k: nat)
    requires k <= |s|
    ensures multiset(s[..k]) <= multiset(s)
    ensures multiset(s) - multiset(s[..k]) == multiset(s[k..])
  {
    assert s == s[..k] + s[k..];
  }

  /** A row of a DataFrame as `to_dict` gives it: each column name mapped to
      its cell (a later column of the same name wins). */
  function RowRecord(columns: seq<Column>, row: seq<Cell>): (rec: map<string, Cell>)
    requires |row| == |columns|
    ensures forall j :: 0 <= j < |columns| ==> columns[j].name in rec
  {
    var n := |columns|;
    if n == 0 then map[]
    else RowRecord(columns[..n - 1], row[..n - 1])[columns[n - 1].name := row[n - 1]]
  }

  /** With distinct column names, each name maps to its own cell. */
  lemma {:induction false} RowRecordAt(columns: seq<Column>, row: seq<Cell>, j: nat)
    requires |row| == |columns| && j < |columns|
    requires forall a, b :: 0 <= a < b < |columns| ==> columns[a].name != columns[b].name
    ensures RowRecord(columns, row)[columns[j].name] == row[j]
  {
    var n := |columns| - 1;
    if j < n {
      RowRecordAt(columns[..n], row[..n], j);
      assert columns[..n][j] == columns[j] && row[..n][j] == row[j];
    }
  }

  /** `results_df`: the test rows with their prediction and score columns. */
  function ResultsTable(test: DataFrame, d: Detection): (rows: seq<ScoredRow>)
    requires |d.predictions| == |test.rows| && |d.scores| == |test.rows|
    ensures |rows| == |test.rows|
  {
    var records := Map(test.rows, (row: seq<Cell>) requires |row| == |test.columns| => RowRecord(test.columns, row));
    ScoreTable(records, d)
  }

  // ---------------------------------------------------------------------
  // Runs

  /** The world a run sees: numpy, the model store (`load` reads a stored
      model), the IsolationForest fit, the CSV reader, whether the packet
      library is installed and how it decodes a capture file, the clock
      (its `i`-th reading in an alert loop), whether the demo datasets are
      present, what their download yields (None when it raises), and whether
      the demo's model file exists. */
  datatype Env = Env(
    np: NumPy,
    load: string -> Forest,
    fit: (ForestParams, Matrix) -> Forest,
    readCsv: string -> DataFrame,
    scapyInstalled: bool,
    readPcap: string -> seq<Packet>,
    now: nat -> string,
    datasetsPresent: bool,
    download: Option<(string, string)>,
    modelFileExists: bool)

  /** How `main` ends: with an exit code, or with the error `detect` raises. */
  datatype Outcome = Exit(code: int) | Raised(error: IdsError)

  /** An HTML report: where it is written and the alert log it renders. */
  datatype Report = Report(path: string, alerts: seq<AlertEntry>)

  /** The traffic table detect mode reads from `path`; None when the format
      is not supported or the packet library is missing. */
  function Traffic(path: string, env: Env): Option<DataFrame>
  {
    match KindOf(path)
    case PcapData =>
      if env.scapyInstalled then Some(FeatureFrame(FeatureRows(env.readPcap(path), env.np))) else None
    case CsvData => Some(env.readCsv(path))
    case Unsupported => None
  }

  /** Reading the traffic table: dispatch on the suffix, then the feature
      extractor or the CSV reader. */
  method ReadTraffic(data: string, env: Env) returns (traffic: Option<DataFrame>)
    ensures traffic == Traffic(data, env)
    ensures traffic.None? <==> KindOf(data).Unsupported? || (KindOf(data).PcapData? && !env.scapyInstalled)
  {
    match KindOf(data) {
      case PcapData =>
        traffic := ExtractFeaturesFrom(data, env.scapyInstalled, env.readPcap, env.np);
      case CsvData =>
        traffic := Some(env.readCsv(data));
      case Unsupported =>
        traffic := None;
    }
  }

  /** The end of detect mode: the alerts are appended to the (empty) log
      and reported when there is at least one. */
  method ReportAlerts(ids: NetworkIDS, d: Detection, threshold: real, outputPath: string, now: nat -> string)
    returns (report: Option<Report>)
    requires ids.alertLog == [] && |d.predictions| == |d.scores|
    modifies ids`alertLog
    ensures ids.alertLog == AlertEntries(Alerts(d, threshold), now, false)
    ensures report.Some? <==> |Alerts(d, threshold)| > 0
    ensures report.Some? ==>
      report.value == Report(JoinPath(outputPath, "intrusion_report.html"), AlertEntries(Alerts(d, threshold), now, false))
  {
    var alerts := SelectAlerts(ScoreTable(Blank(|d.scores|), d), threshold);
    if |alerts| > 0 {
      AppendAlerts(ids, alerts, now, false);
      report := Some(Report(JoinPath(outputPath, "intrusion_report.html"), ids.alertLog));
    } else {
      report := None;
    }
  }

  /** Detect mode once `--data` is present: read the traffic, detect with
      the model stored at `modelPath`, and log and report the alerts. */
  method RunDetect(data: string, modelPath: string, threshold: real, outputPath: string, env: Env)
    returns (outcome: Outcome, report: Option<Report>)
    ensures Traffic(data, env).None? ==> outcome == Exit(1) && report.None?
    ensures Traffic(data, env).Some? && |modelPath| == 0 ==> outcome == Raised(ModelNotLoaded) && report.None?
    ensures Traffic(data, env).Some? && |modelPath| > 0 ==>
      var alerts := DetectAlerts(env.load(modelPath), Traffic(data, env).value, threshold);
      && outcome == Exit(0)
      && (report.Some? <==> |alerts| > 0)
      && (report.Some? ==> report.value == Report(JoinPath(outputPath, "intrusion_report.html"), AlertEntries(alerts, env.now, false)))
  {
    var ids := new NetworkIDS(Some(modelPath), env.load);
    var traffic := ReadTraffic(data, env);
    if traffic.None? {
      return Exit(1), None;
    }
    var r := ids.Detect(traffic.value);
    if r.Failure? {
      return Raised(r.error), None;
    }
    report := ReportAlerts(ids, r.value, threshold, outputPath, env.now);
    outcome := Exit(0);
  }

  /** Whether the demo has its datasets, on disk or downloaded. */
  predicate HasDatasets(env: Env)
  {
    env.datasetsPresent || env.download.Some?
  }

  /** The demo's model: the stored one when its file exists, else one fitted
      on the training set. */
  function DemoModel(trainPath: string, env: Env): Forest
  {
    if env.modelFileExists then env.load(DemoModelPath)
    else env.fit(TrainingParams, PrepareData(env.readCsv(trainPath)))
  }

  /** The demo's results table: the test set scored by the demo's model. */
  function DemoResults(trainPath: string, testPath: string, env: Env): seq<ScoredRow>
  {
    var test := env.readCsv(testPath);
    ResultsTable(test, Detected(DemoModel(trainPath, env), PrepareData(test)))
  }

  /** The demo's dataset files: the fixed ones when present, else the ones
      the download returned. */
  function DemoPaths(env: Env): (string, string)
    requires HasDatasets(env)
  {
    if env.datasetsPresent then (DemoTrainPath, DemoTestPath) else env.download.value
  }

  /** Loads the demo's model when its file exists, else trains and stores one. */
  method LoadOrTrain(ids: NetworkIDS, trainPath: string, env: Env) returns (saved: Option<(string, Forest)>)
    modifies ids`model
    ensures ids.model == Some(DemoModel(trainPath, env))
    ensures saved == if env.modelFileExists then None else Some((DemoModelPath, DemoModel(trainPath, env)))
  {
    if env.modelFileExists {
      ids.LoadModel(DemoModelPath, env.load);
      saved := None;
    } else {
      saved := ids.Train(trainPath, env.readCsv, env.fit, Some(DemoModelPath));
    }
  }

  /** The demo once its datasets are there: load or train, score the test
      set, log the five highest-scoring rows with their details, report. */
  method DemoWithDatasets(trainPath: string, testPath: string, outputPath: string, env: Env)
    returns (saved: Option<(string, Forest)>, report: Report)
    ensures saved == if env.modelFileExists then None else Some((DemoModelPath, DemoModel(trainPath, env)))
    ensures report == Report(JoinPath(outputPath, "demo_report.html"),
                             AlertEntries(TopAnomalies(DemoResults(trainPath, testPath, env)), env.now, true))
  {
    var ids := new NetworkIDS(None, env.load);
    saved := LoadOrTrain(ids, trainPath, env);
    assert ids.alertLog == [];
    var test := env.readCsv(testPath);
    var r := ids.Detect(test);
    assert r.value == Detected(DemoModel(trainPath, env), PrepareData(test));
    var top := TopAnomalies(ResultsTable(test, r.value));
    assert top == TopAnomalies(DemoResults(trainPath, testPath, env));
    AppendAlerts(ids, top, env.now, true);
    assert ids.alertLog == AlertEntries(top, env.now, true);
    report := Report(JoinPath(outputPath, "demo_report.html"), ids.alertLog);
  }

  /** `run_demo`: without datasets (none on disk and the download failing)
      it stops; otherwise it runs on them. */
  method RunDemo(outputPath: string, env: Env) returns (saved: Option<(string, Forest)>, report: Option<Report>)
    ensures !HasDatasets(env) ==> saved.None? && report.None?
    ensures HasDatasets(env) ==>
      var (trainPath, testPath) := DemoPaths(env);
      && saved == (if env.modelFileExists then None else Some((DemoModelPath, DemoModel(trainPath, env))))
      && report == Some(Report(JoinPath(outputPath, "demo_report.html"),
                               AlertEntries(TopAnomalies(DemoResults(trainPath, testPath, env)), env.now, true)))
  {
    if !HasDatasets(env) {
      return None, None;
    }
    var trainPath, testPath := DemoTrainPath, DemoTestPath;
    if !env.datasetsPresent {
      trainPath, testPath := env.download.value.0, env.download.value.1;
    }
    var r;
    saved, r := DemoWithDatasets(trainPath, testPath, outputPath, env);
    report := Some(r);
  }

  /** `main`: the modes that read `--data` return 1 without it; train mode
      fits and stores a model; detect and demo mode run as above; the
      deep-learning mode's work is not part of this model. */
  method RunMain(args: Args, env: Env) returns (outcome: Outcome, saved: Option<(string, Forest)>, report: Option<Report>)
    ensures NeedsData(args.mode) && !Truthy(args.data) ==> outcome == Exit(1) && saved.None? && report.None?
    ensures args.mode == TrainMode && Truthy(args.data) ==>
      && outcome == Exit(0) && report.None?
      && var m := env.fit(TrainingParams, PrepareData(env.readCsv(args.data.value)));
         saved == if |args.model| > 0 then Some((args.model, m)) else None
    ensures args.mode == DetectMode && Truthy(args.data) ==>
      && saved.None?
      && var traffic := Traffic(args.data.value, env);
      && (traffic.None? ==> outcome == Exit(1) && report.None?)
      && (traffic.Some? && |args.model| == 0 ==> outcome == Raised(ModelNotLoaded) && report.None?)
      && (traffic.Some? && |args.model| > 0 ==>
            var alerts := DetectAlerts(env.load(args.model), traffic.value, args.threshold);
            && outcome == Exit(0)
            && (report.Some? <==> |alerts| > 0)
            && (report.Some? ==> report.value == Report(JoinPath(args.outputPath, "intrusion_report.html"), AlertEntries(alerts, env.now, false))))
    ensures args.mode == DemoMode ==>
      && outcome == Exit(0)
      && (!HasDatasets(env) ==> saved.None? && report.None?)
      && (HasDatasets(env) ==>
            var (trainPath, testPath) := DemoPaths(env);
            && saved == (if env.modelFileExists then None else Some((DemoModelPath, DemoModel(trainPath, env))))
            && report == Some(Report(JoinPath(args.outputPath, "demo_report.html"),
                                     AlertEntries(TopAnomalies(DemoResults(trainPath, testPath, env)), env.now, true))))
    ensures args.mode == DeepLearningMode && Truthy(args.data) ==> outcome == Exit(0) && saved.None? && report.None?
  {
    saved, report := None, None;
    match args.mode {
      case TrainMode =>
        if !Truthy(args.data) {
          return Exit(1), None, None;
        }
        var ids := new NetworkIDS(None, env.load);
        saved := ids.Train(args.data.value, env.readCsv, env.fit, Some(args.model));
      case DetectMode =>
        if !Truthy(args.data) {
          return Exit(1), None, None;
        }
        outcome, report := RunDetect(args.data.value, args.model, args.threshold, args.outputPath, env);
        return;
      case DemoMode =>
        saved, report := RunDemo(args.outputPath, env);
      case DeepLearningMode =>
        if !Truthy(args.data) {
          return Exit(1), None, None;
        }
    }
    outcome := Exit(0);
  }

  /** A concrete run of the threshold: scores 0.42, 0.8 and 0.95 against the
      default threshold select the last two, in order. */
  lemma DefaultThresholdIsInclusive(a: ScoredRow, b: ScoredRow, c: ScoredRow)
    requires a.score == 0.42 && b.score == 0.8 && c.score == 0.95
    ensures SelectAlerts([a, b, c], DefaultThreshold) == [b, c]
  {
    var keep := AtLeast(DefaultThreshold);
    FilterSnoc([], a, keep);
    assert [] + [a] == [a];
    FilterSnoc([a], b, keep);
    assert [a] + [b] == [a, b];
    FilterSnoc([a, b], c, keep);
    assert [a, b] + [c] == [a, b, c];
    assert !keep(a) && keep(b) && keep(c);
  }
}
