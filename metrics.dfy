/** The scoring calls of the evaluator. The metric functions themselves belong to a numerics
    library that is not part of this model; they appear as opaque functions that either
    return a score or raise. */
module Metrics {
  import opened Errors

  /** A cell of the performance table: the task name, a score, or NaN. */
  datatype Cell = Text(text: string) | Number(number: real) | NaN

  /** roc_auc_score, matthews_corrcoef, recall_score, accuracy_score, r2_score,
      mean_squared_error and np.sqrt, as opaque functions. */
  datatype MetricLibrary = MetricLibrary(
    rocAuc: (seq<int>, seq<int>) -> Result<real>,
    matthews: (seq<int>, seq<int>) -> Result<real>,
    recall: (seq<int>, seq<int>) -> Result<real>,
    accuracy: (seq<int>, seq<int>) -> Result<real>,
    r2: (seq<real>, seq<real>) -> Result<real>,
    meanSquaredError: (seq<real>, seq<real>) -> Result<real>,
    sqrt: real -> real)

  /** compute_roc_auc_scores: the library's ROC-AUC, or 0.5 when the library rejects the
      input with ValueError. A ValueError never escapes; any other exception does. */
  function ComputeRocAucScores(lib: MetricLibrary, y: seq<int>, yPred: seq<int>): (score: Result<real>)
    ensures !RaisesValueError(score)
    ensures RaisesValueError(lib.rocAuc(y, yPred)) ==> score == Ok(0.5)
    ensures lib.rocAuc(y, yPred).Ok? ==> score == lib.rocAuc(y, yPred)
    ensures score.Err? <==> lib.rocAuc(y, yPred).Err? && !RaisesValueError(lib.rocAuc(y, yPred))
    ensures score.Err? ==> score.error == lib.rocAuc(y, yPred).error
  {
    match lib.rocAuc(y, yPred)
    case Ok(s) => Ok(s)
    case Err(ValueError(_)) => Ok(0.5)
    case Err(e) => Err(e)
  }

  /** The try block of the regression branch: r2_score, then the square root of
      mean_squared_error; a ValueError from either call makes both scores NaN. */
  function RegressionScores(lib: MetricLibrary, y: seq<real>, yPred: seq<real>): (r: Result<(Cell, Cell)>)
    ensures !RaisesValueError(r)
    ensures r.Ok? ==> r.value == (NaN, NaN) || (r.value.0.Number? && r.value.1.Number?)
    ensures r == Ok((NaN, NaN))
        <==> RaisesValueError(lib.r2(y, yPred))
             || (lib.r2(y, yPred).Ok? && RaisesValueError(lib.meanSquaredError(y, yPred)))
    ensures lib.r2(y, yPred).Ok? && lib.meanSquaredError(y, yPred).Ok? ==>
              r == Ok((Number(lib.r2(y, yPred).value),
                       Number(lib.sqrt(lib.meanSquaredError(y, yPred).value))))
  {
    match lib.r2(y, yPred)
    case Err(ValueError(_)) => Ok((NaN, NaN))
    case Err(e) => Err(e)
    case Ok(r2s) =>
      match lib.meanSquaredError(y, yPred)
      case Err(ValueError(_)) => Ok((NaN, NaN))
      case Err(e) => Err(e)
      case Ok(mse) => Ok((Number(r2s), Number(lib.sqrt(mse))))
  }
}
