/** The detector object of src/network_ids.py: an optional fitted model and
    the alert log, with loading, training, detection and the numeric
    projection `_prepare_data`. The IsolationForest is supplied from outside
    as the two functions `detect` calls on it. */
module NetworkIds {
  import opened Wrappers
  import opened Seqs
  import opened Frames

  /** A fitted IsolationForest, as `detect` uses it: `predict` gives the raw
      label of a feature row (-1 for an anomaly, 1 otherwise) and `decision`
      its decision-function value (lower is more anomalous). */
  datatype Forest = Forest(predict: seq<real> -> int, decision: seq<real> -> real)

  /** The constructor arguments `train` gives IsolationForest. */
  datatype ForestParams = ForestParams(estimators: nat, maxSamples: string, contamination: real, randomState: int)

  const TrainingParams := ForestParams(100, "auto", 0.1, 42)

  datatype IdsError = ModelNotLoaded

  /** An entry of the alert log: when, the prediction, the score and a
      mapping of further details. */
  datatype AlertEntry = AlertEntry(timestamp: string, prediction: int, score: real, details: map<string, Cell>)

  /** What `detect` returns: one prediction and one anomaly score per row. */
  datatype Detection = Detection(predictions: seq<int>, scores: seq<real>)

  /** Python truthiness of an optional path: None and "" are false. */
  predicate Truthy(path: Option<string>)
  {
    path.Some? && |path.value| > 0
  }

  // ---------------------------------------------------------------------
  // _prepare_data

  predicate IsNumeric(c: Column)
  {
    c.numeric
  }

  /** `fillna(0)` on a cell of a numeric column. */
  function FillNa(c: Cell): real
    requires !c.Text?
  {
    if c.Missing? then 0.0 else c.value
  }

  /** Every position of `idx` is a numeric column. */
  predicate NumericPositions(idx: seq<nat>, columns: seq<Column>)
  {
    forall j :: 0 <= j < |idx| ==> idx[j] < |columns| && columns[idx[j]].numeric
  }

  /** The cells of `row` at the positions `idx`, missing ones as 0. */
  function Project(row: seq<Cell>, columns: seq<Column>, idx: seq<nat>): (values: seq<real>)
    requires RowFits(row, columns) && NumericPositions(idx, columns)
    ensures |values| == |idx|
    ensures forall j :: 0 <= j < |idx| ==> !row[idx[j]].Text? && values[j] == FillNa(row[idx[j]])
  {
    if |idx| == 0 then []
    else
      var last := idx[|idx| - 1];
      assert columns[last].numeric;
      Project(row, columns, idx[..|idx| - 1]) + [FillNa(row[last])]
  }

  /** `Project` applied to every row. */
  function ProjectRows(rows: seq<seq<Cell>>, columns: seq<Column>, idx: seq<nat>): (out: seq<seq<real>>)
    requires forall i :: 0 <= i < |rows| ==> RowFits(rows[i], columns)
    requires NumericPositions(idx, columns)
    ensures |out| == |rows|
    ensures forall i :: 0 <= i < |rows| ==> out[i] == Project(rows[i], columns, idx)
  {
    if |rows| == 0 then []
    else ProjectRows(rows[..|rows| - 1], columns, idx) + [Project(rows[|rows| - 1], columns, idx)]
  }

  /** `_prepare_data`: the numeric columns in their original order, with
      missing values replaced by 0. */
  function PrepareData(data: DataFrame): (x: Matrix)
    ensures |x.rows| == |data.rows|
    ensures forall i :: 0 <= i < |x.rows| ==> |x.rows[i]| == |x.names|
  {
    var idx := Positions(data.columns, IsNumeric);
    Matrix(Map(idx, (j: nat) requires j < |data.columns| => data.columns[j].name),
           ProjectRows(data.rows, data.columns, idx))
  }

  /** The projection keeps exactly the numeric columns, in their order. */
  lemma PrepareDataColumns(data: DataFrame)
    ensures var x, idx := PrepareData(data), Positions(data.columns, IsNumeric);
      && |x.names| == |idx|
      && (forall j :: 0 <= j < |idx| ==>
            idx[j] < |data.columns| && data.columns[idx[j]].numeric && x.names[j] == data.columns[idx[j]].name)
      && (forall j, j' :: 0 <= j < j' < |idx| ==> idx[j] < idx[j'])
      && (forall c :: 0 <= c < |data.columns| && data.columns[c].numeric ==> c in idx)
  {
    PositionsComplete(data.columns, IsNumeric);
  }

  /** Every kept cell is 0 where the value was missing and the value itself
      where it was present. */
  lemma PrepareDataCells(data: DataFrame)
    ensures var x, idx := PrepareData(data), Positions(data.columns, IsNumeric);
      forall i, j :: 0 <= i < |x.rows| && 0 <= j < |idx| ==>
        && j < |x.rows[i]| && idx[j] < |data.rows[i]|
        && (data.rows[i][idx[j]].Missing? ==> x.rows[i][j] == 0.0)
        && (data.rows[i][idx[j]].Num? ==> x.rows[i][j] == data.rows[i][idx[j]].value)
  {
    var x, idx := PrepareData(data), Positions(data.columns, IsNumeric);
    forall i, j | 0 <= i < |x.rows| && 0 <= j < |idx|
      ensures j < |x.rows[i]| && idx[j] < |data.rows[i]|
      ensures data.rows[i][idx[j]].Missing? ==> x.rows[i][j] == 0.0
      ensures data.rows[i][idx[j]].Num? ==> x.rows[i][j] == data.rows[i][idx[j]].value
    {
      assert RowFits(data.rows[i], data.columns);
      assert x.rows[i] == Project(data.rows[i], data.columns, idx);
    }
  }

  // ---------------------------------------------------------------------
  // detect

  /** The label mapping of `detect`: 1 for the raw anomaly label -1, else 0. */
  function AnomalyFlag(raw: int): (flag: int)
    ensures flag == 0 || flag == 1
    ensures flag == 1 <==> raw == -1
  {
    if raw == -1 then 1 else 0
  }

  /** The predictions and scores `detect` computes from a fitted model. */
  function Detected(m: Forest, x: Matrix): (d: Detection)
    ensures |d.predictions| == |x.rows| && |d.scores| == |x.rows|
    ensures forall i :: 0 <= i < |x.rows| ==>
      && (d.predictions[i] == 0 || d.predictions[i] == 1)
      && (d.predictions[i] == 1 <==> m.predict(x.rows[i]) == -1)
      && d.scores[i] == -m.decision(x.rows[i])
  {
    var predictions := Map(x.rows, row => AnomalyFlag(m.predict(row)));
    var scores := Map(x.rows, row => -m.decision(row));
    assert forall i :: 0 <= i < |x.rows| ==> predictions[i] == AnomalyFlag(m.predict(x.rows[i]));
    Detection(predictions, scores)
  }

  /** Negating the decision values reverses their order: a row scores higher
      exactly when the model's decision value for it is lower. */
  lemma ScoresReverseDecisionOrder(m: Forest, x: Matrix, i: nat, j: nat)
    requires i < |x.rows| && j < |x.rows|
    ensures var d := Detected(m, x);
      (d.scores[i] < d.scores[j] <==> m.decision(x.rows[i]) > m.decision(x.rows[j]))
      && (d.scores[i] == d.scores[j] <==> m.decision(x.rows[i]) == m.decision(x.rows[j]))
  {
  }

  class NetworkIDS {
    var model: Option<Forest>
    var alertLog: seq<AlertEntry>

    /** `__init__`: no model and an empty log; a truthy path loads a model. */
    constructor(modelPath: Option<string>, load: string -> Forest)
      ensures model == if Truthy(modelPath) then Some(load(modelPath.value)) else None
      ensures alertLog == []
    {
      model := None;
      alertLog := [];
      new;
      if Truthy(modelPath) {
        LoadModel(modelPath.value, load);
      }
    }

    /** `load_model`: the model becomes the one stored at `path`. */
    method LoadModel(path: string, load: string -> Forest)
      modifies this`model
      ensures model == Some(load(path))
    {
      model := Some(load(path));
    }

    /** `train`: reads the training table from `dataPath`, fits an
        IsolationForest with the fixed parameters on its numeric projection,
        and hands the fitted model to be stored when a path is given. */
    method Train(dataPath: string, readCsv: string -> DataFrame, fit: (ForestParams, Matrix) -> Forest,
                 modelPath: Option<string>) returns (saved: Option<(string, Forest)>)
      modifies this`model
      ensures model == Some(fit(TrainingParams, PrepareData(readCsv(dataPath))))
      ensures saved == if Truthy(modelPath) then Some((modelPath.value, model.value)) else None
    {
      var data := readCsv(dataPath);
      var x := PrepareData(data);
      model := Some(fit(TrainingParams, x));
      saved := None;
      if Truthy(modelPath) {
        saved := Some((modelPath.value, model.value));
      }
    }

    /** `detect`: fails without a model; otherwise one prediction and one
        score per input row. It changes neither the model nor the log. */
    method Detect(data: DataFrame) returns (r: Result<Detection, IdsError>)
      ensures r.Failure? <==> model.None?
      ensures r.Failure? ==> r.error == ModelNotLoaded
      ensures r.Success? ==> r.value == Detected(model.value, PrepareData(data))
      ensures r.Success? ==> |r.value.predictions| == |data.rows| && |r.value.scores| == |data.rows|
    {
      if model.None? {
        return Failure(ModelNotLoaded);
      }
      var x := PrepareData(data);
      var m := model.value;
      var predictions := Map(x.rows, row => AnomalyFlag(m.predict(row)));
      var scores := Map(x.rows, row => -m.decision(row));
      r := Success(Detection(predictions, scores));
    }
  }
}
