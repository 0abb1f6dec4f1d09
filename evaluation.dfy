/** The Evaluator of deepchem/utils/evaluate.py: task-type dispatch, the per-task loop
    with its weight mask and skipping, and the assembly of the performance table. */
module Evaluation {
  import opened Errors
  import opened Transforms
  import opened Masking
  import opened Metrics

  /** The two task types the evaluator knows. */
  datatype TaskType = Classification | Regression

  /** The prediction table returned by the model: one column per name, holding
      `<task>`, `<task>_pred` and `<task>_weight` for every task. */
  type PredictionTable = map<string, Vector>

  /** A row of the performance table, under the index of its task in the task names. */
  datatype PerformanceRow = PerformanceRow(index: nat, cells: seq<Cell>)

  datatype PerformanceTable = PerformanceTable(columns: seq<string>, rows: seq<PerformanceRow>)

  /** The task type string: "classification", "regression", or a ValueError. */
  function TaskKind(taskType: string): (r: Result<TaskType>)
    ensures r == Ok(Classification) <==> taskType == "classification"
    ensures r == Ok(Regression) <==> taskType == "regression"
    ensures r.Err? ==> r.error == ValueError("Unrecognized task type: " + taskType)
  {
    if taskType == "classification" then Ok(Classification)
    else if taskType == "regression" then Ok(Regression)
    else Err(ValueError("Unrecognized task type: " + taskType))
  }

  /** The column names of the performance table for a task type. */
  function ColumnNames(kind: TaskType): (columns: seq<string>)
    ensures |columns| == (if kind == Classification then 5 else 3)
    ensures columns[0] == "task_name"
  {
    match kind
    case Classification => ["task_name", "roc_auc_score", "matthews_corrcoef", "recall_score", "accuracy_score"]
    case Regression => ["task_name", "r2_score", "rms_error"]
  }

  /** A row that fits the schema of the task type: one cell per column, the task name
      first and a score or NaN in every other cell. */
  predicate RowFits(kind: TaskType, name: string, cells: seq<Cell>)
  {
    |cells| == |ColumnNames(kind)|
    && cells[0] == Text(name)
    && forall k :: 1 <= k < |cells| ==> !cells[k].Text?
  }

  /** Column lookup on the prediction table; a missing column raises KeyError. */
  function Column(predictions: PredictionTable, name: string): (r: Result<Vector>)
    ensures r.Ok? <==> name in predictions
    ensures r.Ok? ==> r.value == predictions[name]
    ensures r.Err? ==> r.error == KeyError(name)
  {
    if name in predictions then Ok(predictions[name]) else Err(KeyError(name))
  }

  /** The three columns of a task are present in the prediction table. */
  predicate HasColumns(predictions: PredictionTable, name: string)
  {
    name in predictions && name + "_pred" in predictions && name + "_weight" in predictions
  }

  /** Some example of the task carries a nonzero weight. */
  predicate IsWeighted(predictions: PredictionTable, name: string)
  {
    name + "_weight" in predictions && !Unweighted(predictions[name + "_weight"])
  }

  /** y[w.nonzero()].astype(int) for one vector: the entries at the positions of nonzero
      weight, in order, truncated to integers; IndexError when a weighted position lies
      beyond the end of the vector. */
  function MaskAndCast(v: Vector, w: Vector): (r: Result<seq<int>>)
    ensures r.Err? ==> r.error == IndexError
    ensures |w| <= |v| ==> r.Ok?
    ensures |v| == |w| ==> r == Ok(AsInt(KeepWeighted(v, w)))
    ensures r.Ok? ==> |r.value| == |w| - multiset(w)[0.0]
    ensures r.Ok? ==> (r.value == [] <==> Unweighted(w))
  {
    var idx := NonzeroIndices(w);
    var masked :- Take(v, idx);
    assert |v| == |w| ==> masked == KeepWeighted(v, w) by {
      if |v| == |w| {
        MaskKeepsWeightedEntries(v, w);
      }
    }
    NonzeroIndicesExact(w);
    assert idx != [] ==> w[idx[0]] != 0.0;
    Ok(AsInt(masked))
  }

  /** One pass of the loop body for the task `name`: the cells of its row, None when the
      classification branch skips it, or the exception raised. */
  function TaskCells(kind: TaskType, name: string, predictions: PredictionTable,
                     transformers: seq<Transformer>, lib: MetricLibrary): (r: Result<Option<seq<Cell>>>)
    ensures r.Ok? ==> HasColumns(predictions, name)
    ensures r.Ok? && r.value.Some? ==> RowFits(kind, name, r.value.value)
    ensures kind == Regression && r.Ok? ==> r.value.Some?
    ensures r == Ok(None)
        <==> kind == Classification && HasColumns(predictions, name) && !IsWeighted(predictions, name)
  {
    var y :- Column(predictions, name);
    var yPred :- Column(predictions, name + "_pred");
    var w :- Column(predictions, name + "_weight");
    var yBack := UndoAll(y, transformers);
    var yPredBack := UndoAll(yPred, transformers);
    match kind
    case Classification =>
      var labels :- MaskAndCast(yBack, w);
      var guesses :- MaskAndCast(yPredBack, w);
      if |labels| == 0 then
        Ok(None)
      else
        var auc :- ComputeRocAucScores(lib, labels, guesses);
        var mcc :- lib.matthews(labels, guesses);
        var recall :- lib.recall(labels, guesses);
        var accuracy :- lib.accuracy(labels, guesses);
        Ok(Some([Text(name), Number(auc), Number(mcc), Number(recall), Number(accuracy)]))
    case Regression =>
      var scores :- RegressionScores(lib, yBack, yPredBack);
      Ok(Some([Text(name), scores.0, scores.1]))
  }

  /** A classification row holds, in the order of the columns, the ROC-AUC score (with its
      fallback), the Matthews coefficient, the recall and the accuracy of the undone,
      masked, truncated labels against the predictions treated the same way; a task is
      skipped exactly when no example carries weight. */
  lemma {:induction false} ClassificationCellsAreMaskedScores(name: string, predictions: PredictionTable,
                                                              transformers: seq<Transformer>, lib: MetricLibrary)
    requires HasColumns(predictions, name)
    requires |UndoAll(predictions[name], transformers)| == |predictions[name + "_weight"]|
    requires |UndoAll(predictions[name + "_pred"], transformers)| == |predictions[name + "_weight"]|
    ensures var r := TaskCells(Classification, name, predictions, transformers, lib);
            var w := predictions[name + "_weight"];
            var labels := AsInt(KeepWeighted(UndoAll(predictions[name], transformers), w));
            var guesses := AsInt(KeepWeighted(UndoAll(predictions[name + "_pred"], transformers), w));
            && (r == Ok(None) <==> labels == [])
            && (labels != [] ==>
                  (r.Ok? <==> ComputeRocAucScores(lib, labels, guesses).Ok? && lib.matthews(labels, guesses).Ok?
                              && lib.recall(labels, guesses).Ok? && lib.accuracy(labels, guesses).Ok?))
            && (r.Ok? && r.value.Some? ==>
                  r.value.value == [Text(name), Number(ComputeRocAucScores(lib, labels, guesses).value),
                                    Number(lib.matthews(labels, guesses).value),
                                    Number(lib.recall(labels, guesses).value),
                                    Number(lib.accuracy(labels, guesses).value)])
  {
  }

  /** A regression row holds the r2 score and the root-mean-square error of the undone
      labels, unmasked: every example counts whatever its weight. */
  lemma {:induction false} RegressionCellsAreUnmaskedScores(name: string, predictions: PredictionTable,
                                                            transformers: seq<Transformer>, lib: MetricLibrary)
    requires HasColumns(predictions, name)
    ensures var s := RegressionScores(lib, UndoAll(predictions[name], transformers),
                                      UndoAll(predictions[name + "_pred"], transformers));
            TaskCells(Regression, name, predictions, transformers, lib)
              == if s.Ok? then Ok(Some([Text(name), s.value.0, s.value.1])) else Err(s.error)
  {
  }

  /** The outcome of the loop body for every task, in the order of the task names. */
  function Outcomes(kind: TaskType, taskNames: seq<string>, predictions: PredictionTable,
                    transformers: seq<Transformer>, lib: MetricLibrary): (outcomes: seq<Result<Option<seq<Cell>>>>)
    ensures |outcomes| == |taskNames|
    ensures forall i :: 0 <= i < |taskNames| ==>
              outcomes[i] == TaskCells(kind, taskNames[i], predictions, transformers, lib)
  {
    seq(|taskNames|, i requires 0 <= i < |taskNames| => TaskCells(kind, taskNames[i], predictions, transformers, lib))
  }

  /** The table the loop builds from the outcomes of its first n passes: pass i adds its
      cells under index i, a skipped pass adds nothing, and the first exception stops the
      loop and is what it raises. */
  function Assemble(outcomes: seq<Result<Option<seq<Cell>>>>, n: nat): (r: Result<seq<PerformanceRow>>)
    requires n <= |outcomes|
    ensures r.Ok? <==> forall i :: 0 <= i < n ==> outcomes[i].Ok?
    ensures r.Ok? ==> |r.value| <= n
    ensures r.Ok? ==> forall k :: 0 <= k < |r.value| ==>
              r.value[k].index < n && outcomes[r.value[k].index] == Ok(Some(r.value[k].cells))
    ensures r.Ok? ==> forall k, l :: 0 <= k < l < |r.value| ==> r.value[k].index < r.value[l].index
    ensures r.Err? ==> exists i :: 0 <= i < n && outcomes[i] == Err(r.error)
                                  && forall j :: 0 <= j < i ==> outcomes[j].Ok?
  {
    if n == 0 then Ok([])
    else
      var rows :- Assemble(outcomes, n - 1);
      var cells :- outcomes[n - 1];
      match cells
      case None => Ok(rows)
      case Some(added) => Ok(rows + [PerformanceRow(n - 1, added)])
  }

  /** compute_model_performance on a given prediction table: the performance table, or the
      exception raised. An unknown task type raises before any task is looked at. */
  function Performance(taskType: string, taskNames: seq<string>, predictions: PredictionTable,
                       transformers: seq<Transformer>, lib: MetricLibrary): (r: Result<PerformanceTable>)
    ensures TaskKind(taskType).Err? ==> r == Err(ValueError("Unrecognized task type: " + taskType))
    ensures r.Ok? ==> TaskKind(taskType).Ok? && r.value.columns == ColumnNames(TaskKind(taskType).value)
    ensures r.Ok? ==> |r.value.rows| <= |taskNames|
  {
    var kind :- TaskKind(taskType);
    var rows :- Assemble(Outcomes(kind, taskNames, predictions, transformers, lib), |taskNames|);
    Ok(PerformanceTable(ColumnNames(kind), rows))
  }

  /** One more pass of the loop that does not raise adds its cells under its index, or
      nothing when the task is skipped. */
  lemma AssembleStep(outcomes: seq<Result<Option<seq<Cell>>>>, i: nat)
    requires i < |outcomes|
    requires Assemble(outcomes, i).Ok? && outcomes[i].Ok?
    ensures Assemble(outcomes, i + 1)
         == Ok(match outcomes[i].value
               case None => Assemble(outcomes, i).value
               case Some(cells) => Assemble(outcomes, i).value + [PerformanceRow(i, cells)])
  {
  }

  /** Once the loop has passed task i without exception, an exception at task i is the one
      compute_model_performance raises. */
  lemma FirstErrorWins(outcomes: seq<Result<Option<seq<Cell>>>>, i: nat)
    requires i < |outcomes|
    requires Assemble(outcomes, i).Ok? && outcomes[i].Err?
    ensures Assemble(outcomes, |outcomes|) == Err(outcomes[i].error)
  {
  }

  /** Some row of the table was added for the task at position i. */
  predicate HasRowFor(rows: seq<PerformanceRow>, i: nat)
  {
    exists k :: 0 <= k < |rows| && rows[k].index == i
  }

  /** Appending a row adds exactly the task of that row. */
  lemma HasRowForSnoc(rows: seq<PerformanceRow>, row: PerformanceRow, i: nat)
    ensures HasRowFor(rows + [row], i) <==> HasRowFor(rows, i) || row.index == i
  {
    if HasRowFor(rows, i) {
      var k :| 0 <= k < |rows| && rows[k].index == i;
      assert (rows + [row])[k] == rows[k];
    }
    if row.index == i {
      assert (rows + [row])[|rows|] == row;
    }
  }

  /** A task has a row exactly when its pass of the loop produced cells. */
  lemma {:induction false} RowExactlyWhenNotSkipped(outcomes: seq<Result<Option<seq<Cell>>>>, n: nat)
    requires n <= |outcomes|
    requires Assemble(outcomes, n).Ok?
    ensures forall i :: 0 <= i < n ==> (HasRowFor(Assemble(outcomes, n).value, i) <==> outcomes[i].value.Some?)
  {
    if n > 0 {
      RowExactlyWhenNotSkipped(outcomes, n - 1);
      var before := Assemble(outcomes, n - 1).value;
      assert !HasRowFor(before, n - 1);
      if outcomes[n - 1].value.Some? {
        var row := PerformanceRow(n - 1, outcomes[n - 1].value.value);
        assert Assemble(outcomes, n).value == before + [row];
        forall i | 0 <= i < n {
          HasRowForSnoc(before, row, i);
        }
      }
    }
  }

  /** When no pass is skipped, the table holds one row per task, row k for task k. */
  lemma {:induction false} RowPerTaskWhenNoneSkipped(outcomes: seq<Result<Option<seq<Cell>>>>, n: nat)
    requires n <= |outcomes|
    requires Assemble(outcomes, n).Ok?
    requires forall i :: 0 <= i < n ==> outcomes[i].value.Some?
    ensures |Assemble(outcomes, n).value| == n
    ensures forall k :: 0 <= k < n ==> Assemble(outcomes, n).value[k].index == k
  {
    if n > 0 {
      RowPerTaskWhenNoneSkipped(outcomes, n - 1);
    }
  }

  /** Every row of the performance table fits the schema of the task type and names the
      task of its index; rows follow the order of the task names. */
  lemma TableFollowsSchema(taskType: string, taskNames: seq<string>, predictions: PredictionTable,
                           transformers: seq<Transformer>, lib: MetricLibrary)
    requires Performance(taskType, taskNames, predictions, transformers, lib).Ok?
    ensures var table := Performance(taskType, taskNames, predictions, transformers, lib).value;
            && TaskKind(taskType).Ok?
            && (forall k :: 0 <= k < |table.rows| ==>
                  table.rows[k].index < |taskNames|
                  && RowFits(TaskKind(taskType).value, taskNames[table.rows[k].index], table.rows[k].cells))
            && (forall k, l :: 0 <= k < l < |table.rows| ==> table.rows[k].index < table.rows[l].index)
  {
  }

  /** In regression every task yields a row, in the order of the task names. */
  lemma RegressionRowForEveryTask(taskNames: seq<string>, predictions: PredictionTable,
                                  transformers: seq<Transformer>, lib: MetricLibrary)
    requires Performance("regression", taskNames, predictions, transformers, lib).Ok?
    ensures var rows := Performance("regression", taskNames, predictions, transformers, lib).value.rows;
            && |rows| == |taskNames|
            && forall k :: 0 <= k < |rows| ==> rows[k].index == k && rows[k].cells[0] == Text(taskNames[k])
  {
    var outcomes := Outcomes(Regression, taskNames, predictions, transformers, lib);
    RowPerTaskWhenNoneSkipped(outcomes, |taskNames|);
    TableFollowsSchema("regression", taskNames, predictions, transformers, lib);
  }

  /** In classification a task has a row exactly when some of its examples carry weight. */
  lemma ClassificationRowsAreWeightedTasks(taskNames: seq<string>, predictions: PredictionTable,
                                           transformers: seq<Transformer>, lib: MetricLibrary)
    requires Performance("classification", taskNames, predictions, transformers, lib).Ok?
    ensures var rows := Performance("classification", taskNames, predictions, transformers, lib).value.rows;
            forall i :: 0 <= i < |taskNames| ==>
              HasColumns(predictions, taskNames[i])
              && (HasRowFor(rows, i) <==> IsWeighted(predictions, taskNames[i]))
  {
    var outcomes := Outcomes(Classification, taskNames, predictions, transformers, lib);
    RowExactlyWhenNotSkipped(outcomes, |taskNames|);
  }

  /** In regression, row k holds the r2 score and the root-mean-square error of task k's
      undone labels and predictions, over all of its examples. */
  lemma RegressionRowsHoldUnmaskedScores(taskNames: seq<string>, predictions: PredictionTable,
                                         transformers: seq<Transformer>, lib: MetricLibrary)
    requires Performance("regression", taskNames, predictions, transformers, lib).Ok?
    ensures var rows := Performance("regression", taskNames, predictions, transformers, lib).value.rows;
            forall k :: 0 <= k < |rows| ==>
              var name := taskNames[k];
              && HasColumns(predictions, name)
              && var s := RegressionScores(lib, UndoAll(predictions[name], transformers),
                                           UndoAll(predictions[name + "_pred"], transformers));
                 s.Ok? && rows[k].cells == [Text(name), s.value.0, s.value.1]
  {
    var outcomes := Outcomes(Regression, taskNames, predictions, transformers, lib);
    RegressionRowForEveryTask(taskNames, predictions, transformers, lib);
    forall k | 0 <= k < |taskNames| {
      RegressionCellsAreUnmaskedScores(taskNames[k], predictions, transformers, lib);
    }
  }

  /** In classification, when every task's undone columns are as long as its weights, each
      row holds the ROC-AUC score, the Matthews coefficient, the recall and the accuracy of
      its task's masked, truncated labels against its predictions treated the same way. */
  lemma ClassificationRowsHoldMaskedScores(taskNames: seq<string>, predictions: PredictionTable,
                                           transformers: seq<Transformer>, lib: MetricLibrary)
    requires Performance("classification", taskNames, predictions, transformers, lib).Ok?
    requires forall i :: 0 <= i < |taskNames| && HasColumns(predictions, taskNames[i]) ==>
               && |UndoAll(predictions[taskNames[i]], transformers)| == |predictions[taskNames[i] + "_weight"]|
               && |UndoAll(predictions[taskNames[i] + "_pred"], transformers)| == |predictions[taskNames[i] + "_weight"]|
    ensures var rows := Performance("classification", taskNames, predictions, transformers, lib).value.rows;
            forall k :: 0 <= k < |rows| ==>
              var name := taskNames[rows[k].index];
              && HasColumns(predictions, name)
              && var w := predictions[name + "_weight"];
                 var labels := AsInt(KeepWeighted(UndoAll(predictions[name], transformers), w));
                 var guesses := AsInt(KeepWeighted(UndoAll(predictions[name + "_pred"], transformers), w));
                 && labels != []
                 && ComputeRocAucScores(lib, labels, guesses).Ok? && lib.matthews(labels, guesses).Ok?
                 && lib.recall(labels, guesses).Ok? && lib.accuracy(labels, guesses).Ok?
                 && rows[k].cells == [Text(name), Number(ComputeRocAucScores(lib, labels, guesses).value),
                                      Number(lib.matthews(labels, guesses).value),
                                      Number(lib.recall(labels, guesses).value),
                                      Number(lib.accuracy(labels, guesses).value)]
  {
    forall i | 0 <= i < |taskNames| && HasColumns(predictions, taskNames[i]) {
      ClassificationCellsAreMaskedScores(taskNames[i], predictions, transformers, lib);
    }
  }

  /** The model under evaluation: the task type shared by its tasks, and its predict service. */
  datatype Model = Model(taskType: string, predict: Dataset -> PredictionTable)

  /** The dataset: its task names in order, and its output transform names. */
  datatype Dataset = Dataset(taskNames: seq<string>, outputTransforms: seq<string>)

  /** Evaluates a model on a dataset. Its configuration is fixed at construction. */
  class Evaluator {
    const model: Model
    const dataset: Dataset
    const transformers: seq<Transformer>
    const taskNames: seq<string>
    const taskType: string
    const outputTransforms: seq<string>
    const verbose: bool

    constructor (model: Model, dataset: Dataset, transformers: seq<Transformer>, verbose: bool)
      ensures this.model == model && this.dataset == dataset && this.transformers == transformers
      ensures taskNames == dataset.taskNames && taskType == model.taskType
      ensures outputTransforms == dataset.outputTransforms && this.verbose == verbose
    {
      this.model := model;
      this.dataset := dataset;
      this.transformers := transformers;
      this.taskNames := dataset.taskNames;
      this.taskType := model.taskType;
      this.outputTransforms := dataset.outputTransforms;
      this.verbose := verbose;
    }

    /** The loop body for one task: reads its three columns, undoes the transformers on
        labels and predictions, and scores them; None when the classification branch
        skips the task. */
    method ScoreTask(kind: TaskType, taskName: string, predictions: PredictionTable, lib: MetricLibrary)
      returns (r: Result<Option<seq<Cell>>>)
      ensures r == TaskCells(kind, taskName, predictions, transformers, lib)
    {
      var y :- Column(predictions, taskName);
      var yPred :- Column(predictions, taskName + "_pred");
      var w :- Column(predictions, taskName + "_weight");
      y := UndoTransforms(y, transformers);
      yPred := UndoTransforms(yPred, transformers);
      if kind == Classification {
        var labels :- MaskAndCast(y, w);
        var guesses :- MaskAndCast(yPred, w);
        if |labels| == 0 {
          return Ok(None);
        }
        var auc :- ComputeRocAucScores(lib, labels, guesses);
        var mcc :- lib.matthews(labels, guesses);
        var recall :- lib.recall(labels, guesses);
        var accuracy :- lib.accuracy(labels, guesses);
        return Ok(Some([Text(taskName), Number(auc), Number(mcc), Number(recall), Number(accuracy)]));
      } else {
        var scores :- RegressionScores(lib, y, yPred);
        return Ok(Some([Text(taskName), scores.0, scores.1]));
      }
    }

    /** Predicts on the dataset, checks the task type, then scores every task in order;
        returns the prediction table unchanged together with the performance table, or
        the exception raised. */
    method ComputeModelPerformance(lib: MetricLibrary) returns (r: Result<(PredictionTable, PerformanceTable)>)
      ensures r.Ok? ==> r.value.0 == model.predict(dataset)
      ensures r.Ok? ==> Performance(taskType, taskNames, model.predict(dataset), transformers, lib) == Ok(r.value.1)
      ensures r.Err? ==> Performance(taskType, taskNames, model.predict(dataset), transformers, lib) == Err(r.error)
    {
      var predictions := model.predict(dataset);
      var kind: TaskType;
      var columns: seq<string>;
      if taskType == "classification" {
        kind, columns := Classification, ColumnNames(Classification);
      } else if taskType == "regression" {
        kind, columns := Regression, ColumnNames(Regression);
      } else {
        return Err(ValueError("Unrecognized task type: " + taskType));
      }
      ghost var outcomes := Outcomes(kind, taskNames, predictions, transformers, lib);
      var rows: seq<PerformanceRow> := [];
      for i := 0 to |taskNames|
        invariant Assemble(outcomes, i) == Ok(rows)
      {
        var cells := ScoreTask(kind, taskNames[i], predictions, lib);
        if cells.Err? {
          FirstErrorWins(outcomes, i);
          return Err(cells.error);
        }
        AssembleStep(outcomes, i);
        if cells.value.Some? {
          rows := rows + [PerformanceRow(i, cells.value.value)];
        }
      }
      return Ok((predictions, PerformanceTable(columns, rows)));
    }
  }

  /** compute_model_performance as written: past the task-type check, the first task's
      columns are read and then undo_transforms is called with one argument, which raises
      TypeError; only an empty task list yields a table. */
  function PerformanceAsWritten(taskType: string, taskNames: seq<string>, predictions: PredictionTable): Result<PerformanceTable>
  {
    var kind :- TaskKind(taskType);
    if taskNames == [] then
      Ok(PerformanceTable(ColumnNames(kind), []))
    else
      var y :- Column(predictions, taskNames[0]);
      var yPred :- Column(predictions, taskNames[0] + "_pred");
      var w :- Column(predictions, taskNames[0] + "_weight");
      Err(TypeError("undo_transforms() takes exactly 2 arguments (1 given)"))
  }

  /** One regression task with all its columns, scored by a library whose regression
      metrics compute: the evaluator as intended returns a one-row table, the code as
      written raises TypeError. */
  lemma AsWrittenRaisesOnOneRegressionTask(lib: MetricLibrary)
    requires forall y, yPred :: lib.r2(y, yPred).Ok? && lib.meanSquaredError(y, yPred).Ok?
    ensures var predictions := map["t" := [1.0], "t_pred" := [1.0], "t_weight" := [1.0]];
            && Performance("regression", ["t"], predictions, [], lib).Ok?
            && |Performance("regression", ["t"], predictions, [], lib).value.rows| == 1
            && PerformanceAsWritten("regression", ["t"], predictions).Err?
            && PerformanceAsWritten("regression", ["t"], predictions).error.TypeError?
  {
    var predictions := map["t" := [1.0], "t_pred" := [1.0], "t_weight" := [1.0]];
    assert "t" + "_pred" == "t_pred" && "t" + "_weight" == "t_weight";
    assert TaskCells(Regression, "t", predictions, [], lib).Ok?;
    RegressionRowForEveryTask(["t"], predictions, [], lib);
  }
}
