# deepchem evaluation pipeline, modelled in Dafny

This project models `deepchem/utils/evaluate.py`. That file evaluates a trained model against a dataset and produces one row of statistics per task. The model covers its four parts:

- **Transform reversal** (`undo_transforms`). This is the `Transforms` module. A transformer is an opaque pair of functions, `transform` and `untransform`. The imperative loop `UndoTransforms` is proved equal to `UndoAll`, which undoes the first-applied transformer last. The lemmas show that this equals folding `untransform` over `reversed(transformers)`. They also show that it inverts applying the transformers in order, and that the order matters.
- **ROC-AUC fallback** (`compute_roc_auc_scores`). This is `Metrics.ComputeRocAucScores`. The metric functions of the numerics library are the opaque fields of a `MetricLibrary`. Each scoring function either returns a score or raises an exception (`Result`); `sqrt` is a plain function on reals and cannot raise.
- **The weight mask** (`y[w.nonzero()].astype(int)`). This is the `Masking` module: `w.nonzero()`, fancy indexing that raises `IndexError`, and truncation toward zero.
- **The evaluator** (`Evaluator`). This is the `Evaluation` module:
  - `TaskKind` dispatches on the task type.
  - `TaskCells` and the method `Evaluator.ScoreTask` model the loop body for one task. Lemmas state what goes in each cell: the four classification metrics of the masked labels, or the regression scores of the unmasked ones.
  - `Assemble` models how the loop builds the table from the tasks' outcomes: skipped tasks add nothing, each row is keyed by its task's index, and the first exception stops the loop.
  - `Performance` specifies the whole operation.
  - The method `Evaluator.ComputeModelPerformance` runs the loop and is proved equal to `Performance`.

External collaborators are inputs:
- The model is a `Model` value holding its task type and its `predict` function.
- The dataset is a `Dataset` value holding its task names and output transform names.
- The prediction table is a map from column name to a vector of reals.

## Model

| member | source | states |
|---|---|---|
| `Transforms.UndoTransforms` | deepchem/utils/evaluate.py:44-49 | the loop over `reversed(transformers)` returns `UndoAll(y, transformers)`; with no transformers `y` comes back unchanged |
| `Transforms.UndoIsFoldOverReversed` | deepchem/utils/evaluate.py:46-48 | calling `untransform` on each element of `reversed(transformers)` in turn gives `UndoAll`, so the last-applied transformer is undone first |
| `Transforms.LastUndoneFirst` | deepchem/utils/evaluate.py:46-47 | the last transformer in the list is undone first, before the rest are undone in turn |
| `Transforms.UndoAllAppend` | deepchem/utils/evaluate.py:46-48 | undoing a concatenated list undoes the later part first, then the earlier part |
| `Transforms.UndoAfterApply` | deepchem/utils/evaluate.py:44-46 | when every transformer's `untransform` inverts its `transform`, undoing the list recovers the labels that applying the list in order started from |
| `Transforms.Reversed` | deepchem/utils/evaluate.py:47 | `reversed()` keeps the length and puts element `k` at position `len - 1 - k` |
| `Transforms.NormalizerInvertible` | deepchem/utils/evaluate.py:23-25 | undoing a normalisation (`y * std + mean`) inverts it for every nonzero `std` |
| `Transforms.OrderMatters` | deepchem/utils/evaluate.py:46 | two normalisations undone in the wrong order give a different result (4.0 against 3.0), so the order cannot be dropped |
| `Transforms.AsWrittenAgreesOnlyWhenEmpty` | deepchem/utils/evaluate.py:47-48 | the code as written (which raises `NameError`) matches the intended result only for an empty transformer list |
| `Metrics.ComputeRocAucScores` | deepchem/utils/evaluate.py:61-66 | returns the library score when it computes one and exactly 0.5 when the library raises `ValueError`; a `ValueError` never escapes, and any other exception passes through unchanged |
| `Metrics.RegressionScores` | deepchem/utils/evaluate.py:119-124 | a `ValueError` from `r2_score`, or from `mean_squared_error` after `r2_score` succeeded, makes both scores NaN; otherwise the scores are the r2 score and the square root of the MSE; the two scores are NaN together or not at all, and no `ValueError` escapes |
| `Masking.NonzeroIndices` | deepchem/utils/evaluate.py:108 | every position returned is in range and has a nonzero weight |
| `Masking.NonzeroIndicesExact` | deepchem/utils/evaluate.py:108 | `w.nonzero()` lists every nonzero-weight position in strictly increasing order; it has as many entries as there are nonzero weights |
| `Masking.Take` | deepchem/utils/evaluate.py:108 | `v[idx]` succeeds exactly when every index is in range; it then returns `v[idx[k]]` at position `k`; otherwise it raises `IndexError` |
| `Masking.MaskKeepsWeightedEntries` | deepchem/utils/evaluate.py:108 | for equal-length columns, `v[w.nonzero()]` equals keeping each entry whose weight is nonzero, in the original order; its length is the number of nonzero weights |
| `Masking.Truncate` | deepchem/utils/evaluate.py:108 | the float-to-integer cast truncates toward zero: the result is at most 1 away from the input, on the zero side |
| `Masking.AsInt` | deepchem/utils/evaluate.py:108 | `astype(int)` keeps the length and truncates every entry |
| `Evaluation.TaskKind` | deepchem/utils/evaluate.py:90-96 | "classification" and "regression" are accepted, each to its own kind; any other string raises `ValueError("Unrecognized task type: …")` |
| `Evaluation.ColumnNames` | deepchem/utils/evaluate.py:91-94 | classification tables have 5 columns and regression tables 3, both led by `task_name` |
| `Evaluation.Column` | deepchem/utils/evaluate.py:101-103 | a column lookup succeeds exactly when the column exists and returns it; a missing column raises `KeyError` |
| `Evaluation.MaskAndCast` | deepchem/utils/evaluate.py:108 | the masked integer vector: for equal lengths it is the truncated nonzero-weight entries in order; its length is the number of nonzero weights; it is empty exactly when all weights are zero; it raises only `IndexError`, and never when the weights are no longer than the vector |
| `Evaluation.TaskCells` | deepchem/utils/evaluate.py:101-125 | a task that gets through has all three columns; every row it emits fits the task type's schema, with the task name first; regression never skips; a task is skipped exactly when the type is classification, the columns exist and every weight is zero |
| `Evaluation.ClassificationCellsAreMaskedScores` | deepchem/utils/evaluate.py:107-116 | for a classification task whose undone columns are as long as its weights, the labels scored are the undone labels restricted to nonzero weights and truncated, and the predictions likewise; the task is skipped exactly when that is empty; otherwise it raises unless all four metrics compute, and its row is the task name followed by the ROC-AUC score (with its 0.5 fallback), the Matthews coefficient, the recall and the accuracy of those vectors, in column order |
| `Evaluation.RegressionCellsAreUnmaskedScores` | deepchem/utils/evaluate.py:118-125 | a regression task's row is the task name followed by `RegressionScores` of the undone labels and predictions over every example, whatever the weights; when those scores raise, the task raises the same exception |
| `Evaluation.Outcomes` | deepchem/utils/evaluate.py:100 | one loop outcome per task name, in task-name order |
| `Evaluation.Assemble` | deepchem/utils/evaluate.py:100-125 | the loop gets through exactly when no task raised; at most one row per task; each row is keyed by its task's index and carries that task's cells; keys strictly increase; on failure the error is the first task's exception |
| `Evaluation.Performance` | deepchem/utils/evaluate.py:90-125 | an unknown task type raises `ValueError` before any task is looked at; a finished table has the schema of its task type and no more rows than task names |
| `Evaluation.FirstErrorWins` | deepchem/utils/evaluate.py:100-125 | an exception from task `i`, after all earlier tasks went through, is the exception the whole evaluation raises |
| `Evaluation.RowExactlyWhenNotSkipped` | deepchem/utils/evaluate.py:109-116 | after the loop, a task has a row exactly when its pass emitted one instead of continuing |
| `Evaluation.RowPerTaskWhenNoneSkipped` | deepchem/utils/evaluate.py:118-125 | when no pass skips, there is one row per task and row `k` belongs to task `k` |
| `Evaluation.TableFollowsSchema` | deepchem/utils/evaluate.py:90-125 | every row has one cell per column, holds the name `task_names[i]` of its own index, and has a score or NaN in every other cell; rows follow task-name order |
| `Evaluation.RegressionRowForEveryTask` | deepchem/utils/evaluate.py:118-125 | in regression, the table has exactly one row per task name, in order, named after that task |
| `Evaluation.RegressionRowsHoldUnmaskedScores` | deepchem/utils/evaluate.py:118-125 | in a finished regression table, row `k` holds task `k`'s name, r2 score and root-mean-square error of its undone, unmasked labels and predictions |
| `Evaluation.ClassificationRowsHoldMaskedScores` | deepchem/utils/evaluate.py:107-116 | in a finished classification table, when every task's undone columns are as long as its weights, each row holds its task's name and the four metrics of its masked, truncated labels and predictions, in column order |
| `Evaluation.ClassificationRowsAreWeightedTasks` | deepchem/utils/evaluate.py:107-116 | in classification, every task had its columns, and a task has a row exactly when some of its weights are nonzero |
| `Evaluation.Evaluator.constructor` | deepchem/utils/evaluate.py:71-80 | captures the model, dataset, transformers and verbosity, the dataset's task names and output transforms, and the model's task type |
| `Evaluation.Evaluator.ScoreTask` | deepchem/utils/evaluate.py:101-125 | the loop body, run step by step, gives exactly the outcome `TaskCells` specifies |
| `Evaluation.Evaluator.ComputeModelPerformance` | deepchem/utils/evaluate.py:82-130 | returns the prediction table unchanged together with `Performance`'s table, or raises exactly `Performance`'s exception |
| `Evaluation.AsWrittenRaisesOnOneRegressionTask` | deepchem/utils/evaluate.py:104-105 | for one regression task whose columns exist and whose metrics compute, the intended evaluator returns a one-row table, but the code as written raises `TypeError` |

## Left out

- The internals of `roc_auc_score`, `matthews_corrcoef`, `recall_score`, `accuracy_score`, `r2_score`, `mean_squared_error` and `np.sqrt`: these are floating-point code in a library that is not part of this model. They are opaque fields of `MetricLibrary`.
- `Masking.AsInt`: `astype(int)` casts to 64-bit integers; entries outside that range, where the cast gives no defined value, are not modelled, and the model's integers are unbounded.
- Floating point in general: values are Dafny reals. NaN only appears as a table cell; NaN or infinite weights and labels are not modelled.
- The pandas `DataFrame`: the prediction table is a map from column name to vector. The performance table is a list of rows keyed by task index, under its column names.
- Writing the two CSV files (`to_csv` on `csv_out` and `stats_file`) and the `log` messages: these are I/O. `ComputeModelPerformance` therefore takes no file names, and `verbose` is captured but has no effect.
- The `warnings.warn` call in the ROC-AUC fallback: it is a diagnostic only.
- `model.predict`, `dataset.get_task_names` and `dataset.get_output_transforms`: these belong to objects that are not part of this model. They appear as the `predict` field of `Model` and the fields of `Dataset`.
- `model.task_types.itervalues().next()`: it depends on Python 2 dict iteration order. `Model.taskType` holds the chosen task type directly.
- The commented-out `undo_normalization` and `undo_transform`: they are dead code. Only the normalisation formula is used, as a sample transformer for `OrderMatters` and `NormalizerInvertible`.
- A log transformer (`exp` to undo it): the exponential has no exact counterpart over the reals in Dafny.
- `output_transforms`: it is captured by the constructor but never used by the live code, and the model does the same.
- Task-type validation: the code validates the task type in `compute_model_performance`, not at construction, and the model follows the code.
- Masking in regression: masking and skipping happen only in the classification branch. A regression task with all-zero weights still gets a row, as in the code.
- Which transformers the evaluator undoes: the code calls `undo_transforms(y)` with no transformer list. The corrected evaluator undoes the constructor's `transformers`, whose name matches the parameter of `undo_transforms`. See Findings.

## Findings

| source | as written | input that shows it | evidently intended | confidence | as-written member | corrected member |
|---|---|---|---|---|---|---|
| deepchem/utils/evaluate.py:47-48 | the loop body calls `transform.unstranform(y)`; the name `transform` is bound nowhere, and the method name is misspelt | any non-empty transformer list raises `NameError`; only `[]` returns `y` | `y = transformer.untransform(y)` for each transformer of `reversed(transformers)` | high; not executed | `Transforms.UndoTransformsAsWritten`, with `Transforms.AsWrittenAgreesOnlyWhenEmpty` | `Transforms.UndoTransforms`, with `Transforms.UndoIsFoldOverReversed` and `Transforms.UndoAfterApply` |
| deepchem/utils/evaluate.py:104-105 | `undo_transforms(y)` passes one argument to a two-parameter function; `undo_transform(y_pred)` names a function that is commented out | task type "regression", task names `["t"]`, all three columns present: `TypeError` on the first task, so no table is ever produced | `y = undo_transforms(y, self.transformers)` and the same for `y_pred` | high; not executed | `Evaluation.PerformanceAsWritten`, with `Evaluation.AsWrittenRaisesOnOneRegressionTask` | `Evaluation.Evaluator.ComputeModelPerformance` (specified by `Evaluation.Performance`) |
