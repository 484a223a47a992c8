# Phishing-website detector: schema validation and model leaderboard in Dafny

This project models the two pieces of real logic in the phishing-website
detection pipeline, with pandas, scikit-learn and the file system abstracted
away:

* **Data validation** (`DataValidation`). Column headers are normalised: lower
  case, spaces become underscores. The frame is then checked against the
  schema's declared columns, in order. Each column is checked for presence,
  for its dtype (only when the schema gives a non-empty `data_type`), and for
  whether its distinct values lie in `allowed_unique_values`. The first column
  that fails ends the run with one recorded error. A run where every column
  passes updates the counters and per-column details, sets the status to
  "Passed" and writes the report exactly once. `validate_data` validates the
  train frame and then the test frame against one shared report. It saves
  both frames whatever the verdicts are.
* **Training report** (`ModelTraining._save_report`, `train_model`, and
  `extract_clf_name`). `train_model` rejects a frame without the target
  column and splits the features from the label. Each grid-search result row
  is tagged with a model family by priority-ordered substring tests. Per
  family, the first row with the top `mean_test_score` is kept (`idxmax`).
  Those rows are sorted by score, highest first, and projected to five fields.

Modules, one per source file or shared concept:

| file | module | models |
|---|---|---|
| `outcomes.dfy` | `Outcomes` | `Option` and `Result` values standing in for `None` defaults and raised exceptions |
| `frames.dfy` | `Frames` | a data frame as an ordered sequence of named, typed columns |
| `clf_name.dfy` | `ClfName` | `utils/core.py`: `extract_clf_name` |
| `validation.dfy` | `Validation` | `components/data_validation.py` |
| `training.dfy` | `Training` | `components/model_training.py` |

Validation threads the report through as a value. `ValidateSchema` returns a
`Run` with three parts:

* the verdict: `Valid`, `Invalid`, or `Raised` for the errors `validate_schema` raises;
* the report as the run leaves it, which `validate_schema` mutates in place even when it raises;
* the list of report snapshots written to storage.

Points of behaviour worth knowing:

* A schema entry without `allowed_unique_values` is read as the empty set, so
  any non-empty column then fails (`MissingAllowedListRejectsValues`).
* The train and test runs share one report, so counters and errors add up
  (`ValidateDataAccumulates`).
* Both verdicts are ignored and both frames are saved; only a raised error
  stops `validate_data`.
* Families can tie on their best score, so the leaderboard's order is only
  non-increasing.

## Model

| member | source | states |
|---|---|---|
| `ClfName.ExtractClfName` | src/phishdetector/utils/core.py:1-15 | The family tag is always one of RandomForest, KNeighbors, SVC, Ridge, Logistic or Unknown. |
| `ClfName.ExtractClfNamePriority` | src/phishdetector/utils/core.py:4-15 | A string containing "RandomForestClassifier" is RandomForest whatever else it contains. The result is SVC exactly when "SVC" occurs and neither of the two earlier names does. It is Logistic exactly when "LogisticRegression" occurs and none of the four earlier substrings does. It is Unknown exactly when none of the five occurs. |
| `ClfName.FirstMatch` | src/phishdetector/utils/core.py:4-15 | Reference reading of the tagging as a first-match search of a priority table: a result other than Unknown is the family of an entry whose substring occurs, with no earlier entry occurring; when no family is called Unknown, the result is Unknown exactly when no entry occurs. |
| `ClfName.ExtractMatchesTable` | src/phishdetector/utils/core.py:4-15 | On every input, the if-chain gives the same family as the first match in the table (RandomForest, KNeighbors, SVC, Ridge, Logistic). |
| `ClfName.ClassNamesRecoverFamily` | src/phishdetector/utils/core.py:4-13 | Tagging the bare class name of each known estimator yields that estimator's own family, so no earlier test shadows a later one. |
| `Frames.ValueSet` | src/phishdetector/components/data_validation.py:90-91 | `set(...)` of a list of cells holds exactly the listed values, never more of them than there are cells. |
| `Validation.Lower` | src/phishdetector/components/data_validation.py:42 | Lowercasing keeps the length and changes each character independently. |
| `Validation.Replace` | src/phishdetector/components/data_validation.py:42 | Replacing one character keeps the length and changes only the positions holding that character. |
| `Validation.NormalizeName` | src/phishdetector/components/data_validation.py:42 | The new header has the old header's length. Each space becomes "_" and each other character is lowercased. The result has no space and no upper-case letter. |
| `Validation.NormalizeFixesExactlyNormal` | src/phishdetector/components/data_validation.py:42 | A header is left unchanged exactly when it already has no space and no upper-case letter. |
| `Validation.NormalizeIdempotent` | src/phishdetector/components/data_validation.py:42 | Normalising a header twice gives the same result as normalising it once. |
| `Validation.TransformColumnNames` | src/phishdetector/components/data_validation.py:31-43 | The number and order of columns and their dtypes and cells are kept. Only each header is normalised. |
| `Validation.TransformIdempotent` | src/phishdetector/components/data_validation.py:31-43 | Transforming an already transformed frame changes nothing. |
| `Validation.AllowedSet` | src/phishdetector/components/data_validation.py:91 | A missing `allowed_unique_values` gives the empty set. A given list gives exactly its values, at most as many as are listed. |
| `Validation.NewReport` | src/phishdetector/components/data_validation.py:16-29 | The constructor's report has schema version 1.0 and is "Pending" with the given date, zero counters, no details and no errors, so it records no failure. |
| `Validation.CheckColumn` | src/phishdetector/components/data_validation.py:72-103 | A recorded failure always names the schema column being checked. |
| `Validation.CheckColumnOutcomes` | src/phishdetector/components/data_validation.py:72-103 | "Missing" is reported exactly when the header is absent. A header that occurs twice raises. A type mismatch is recorded exactly when the header occurs once, `data_type` is non-empty and the dtype differs, so the dtype test decides before the value test. A type error carries the actual and expected dtype, and a value error carries the column's distinct values and the allowed set. The column passes exactly when it occurs once, its dtype matches any given `data_type`, and every cell is an allowed value. |
| `Validation.MissingAllowedListRejectsValues` | src/phishdetector/components/data_validation.py:90-94 | Without `allowed_unique_values`, a present column with any cell fails the value check. |
| `Validation.Checks` | src/phishdetector/components/data_validation.py:67-103 | One outcome per schema column. |
| `Validation.ChecksAt` | src/phishdetector/components/data_validation.py:67-103 | The outcomes are in schema order, each the result of that column's checks on the frame. |
| `Validation.FirstFailure` | src/phishdetector/components/data_validation.py:67-103 | The point where the loop stops: every earlier outcome is a pass, and the outcome at the index, if any, is not. |
| `Validation.FailureIndex` | src/phishdetector/components/data_validation.py:67-103 | The index where the loop over the schema columns stops is at most the number of columns. |
| `Validation.FailureIndexIsFirst` | src/phishdetector/components/data_validation.py:67-103 | That index is the first schema column whose checks do not pass on the frame: every earlier column passes, and this one, if any, does not. |
| `Validation.Walk` | src/phishdetector/components/data_validation.py:67-117 | Given the per-column outcomes, failure at index k grows `total_columns_checked` and `columns_passed` by exactly k and leaves `columns_failed` alone. It appends exactly one error on a failed check, none on a raise or on success. It leaves the status, version and date alone. A report with no failed column and no "Failed" detail still has none afterwards. |
| `Validation.RecordColumn` | src/phishdetector/components/data_validation.py:105-117 | A column's bookkeeping counts it once as checked, adds one to `columns_passed` exactly when the column passed and to `columns_failed` otherwise, and sets its own detail entry to "Passed" or "Failed". It adds no other key and changes no other entry, no error, and neither the status, the version nor the date. |
| `Validation.WalkDetails` | src/phishdetector/components/data_validation.py:105-117 | After a walk that stops at index k, the detail keys are the prior keys plus the first k column names, those k columns are "Passed", and every other entry is as it was. |
| `Validation.WalkDetailKeys` | src/phishdetector/components/data_validation.py:108-110 | A walk adds a detail key for each column before the first failure, and no other key. |
| `Validation.WalkDetailsPassed` | src/phishdetector/components/data_validation.py:112-114 | Every column before the first failure ends up "Passed". (The model's schema is a sequence, which is more general than the YAML mapping; distinct names are not required.) |
| `Validation.WalkDetailsUntouched` | src/phishdetector/components/data_validation.py:105-117 | A detail entry whose name is not among the columns before the first failure keeps its prior value. |
| `Validation.ValidateSchema` | src/phishdetector/components/data_validation.py:45-128 | A missing or empty `columns` mapping raises with the report unchanged and nothing written. Otherwise the run is valid exactly when every column passes. On success, both counters grow by the column count, every column's detail is "Passed", the status becomes "Passed", errors are unchanged and the report is written exactly once. On failure at index k, both counters grow by k, nothing is written and the status keeps its prior value. An invalid run appends exactly that column's error. A raising run raises that column's fault and adds no error. In every case the schema version and date are kept. With the run stopping at index k, the detail keys are the prior keys plus the first k column names, those k columns are "Passed", and every other entry keeps its prior value. |
| `Validation.NoLaterColumnExamined` | src/phishdetector/components/data_validation.py:67-103 | Replacing the schema columns after the first failing one changes nothing the run produces. |
| `Validation.ValidateData` | src/phishdetector/components/data_validation.py:130-167 | The train frame and then the test frame are normalised and validated against one report. The call succeeds exactly when neither run raises, whatever the verdicts. It saves both normalised frames. If the train run raises, the call fails with that run's fault, leaves that run's report behind and has written nothing. Otherwise the report is the test run's, the writes are the train run's followed by the test run's, and a raising test run's fault is the one propagated. `columns_failed` never moves. |
| `Validation.ValidateDataAccumulates` | src/phishdetector/components/data_validation.py:145-153 | On success, the train and test runs share the report. Both counters grow by the sum of the two passing prefixes. The errors are the earlier ones, then the train run's failing-column error, then the test run's, each present exactly when that run is invalid. Each valid run adds one write. |
| `Validation.RunErrors` | src/phishdetector/components/data_validation.py:67-128 | A run that does not raise leaves the earlier errors followed by the first failing column's error, if any: one error exactly when it is invalid. It writes once exactly when it is valid. |
| `Validation.FreshReportNeverRecordsFailure` | src/phishdetector/components/data_validation.py:105-117 | Starting from the constructor's report, `columns_failed` stays 0 and no detail entry is ever "Failed". |
| `Validation.MissingCountryExample` | src/phishdetector/components/data_validation.py:67-77 | Example: a frame lacking `country` fails with the single error "missing country", one column counted as passed, only `age` marked "Passed" in the details, and nothing written. |
| `Training.DropColumn` | src/phishdetector/components/model_training.py:68 | Defined only for a column that is present, as pandas raises `KeyError` otherwise. The features are the input columns, in their original order, with every column named like the target removed. |
| `Training.SplitFeatures` | src/phishdetector/components/model_training.py:62-69 | A missing target column raises `TargetColumnMissing`. Otherwise the label is the target column, and the features are all the other columns in their original order. |
| `Training.TagRows` | src/phishdetector/components/model_training.py:29-31 | Each row keeps its data and gains the `clf_name` that `extract_clf_name` gives for its `param_clf`. |
| `Training.Project` | src/phishdetector/components/model_training.py:37-45 | A report record keeps its row's family tag, the `mean_test_score` the selection compared, and its `param_clf` string. |
| `Training.Families` | src/phishdetector/components/model_training.py:33-34 | The group keys: each family tag of the table, listed once. |
| `Training.BestUpTo` | src/phishdetector/components/model_training.py:33-34 | Over a prefix of the table, the index of the family's highest score. It is the first such row when scores tie, and absent only when the family does not occur. |
| `Training.IdxMax` | src/phishdetector/components/model_training.py:33-34 | The `idxmax` row of a family scores at least every row of that family, and strictly more than every earlier one. |
| `Training.FamilyBestUnique` | src/phishdetector/components/model_training.py:33-34 | A family has exactly one such `idxmax` row. |
| `Training.BestPerFamily` | src/phishdetector/components/model_training.py:33-34 | One record per family, carrying that family's tag, in the order the families are listed. |
| `Training.BestPerFamilyRowsAreBest` | src/phishdetector/components/model_training.py:33-34 | Record k is the projection of family k's `idxmax` row: its top score, taken from the first row that reaches it. |
| `Training.Insert` | src/phishdetector/components/model_training.py:35 | Inserting into a sequence sorted by descending score keeps it sorted. The result is a permutation of the input plus the new record, and it starts with either the new record or the old first record. |
| `Training.SortDesc` | src/phishdetector/components/model_training.py:35 | The result is in non-increasing score order and is a permutation of the input. |
| `Training.Leaderboard` | src/phishdetector/components/model_training.py:27-48 | The report `_save_report` writes is in non-increasing score order and never names a family twice. |
| `Training.LeaderboardOnePerFamily` | src/phishdetector/components/model_training.py:33-35 | The report has one record per distinct family tag of the results, no family twice, and no family of the results missing. |
| `Training.LeaderboardRowsAreFamilyBest` | src/phishdetector/components/model_training.py:33-45 | The report is in non-increasing score order. Each record is a result row projected to `clf_name`, `mean_test_score`, `std_test_score`, `mean_fit_time` and `param_clf`, and that row is its family's first top-scoring row. |
| `Training.LeaderboardTopIsGlobalMax` | src/phishdetector/components/model_training.py:33-35 | For non-empty results, the first record's score is the highest `mean_test_score` over all result rows. |
| `Training.TrainModel` | src/phishdetector/components/model_training.py:55-91 | Fails, with the target's name, exactly when the target column is absent. Otherwise the label is that column of the frame and the features are all other columns in their original order, none named like the target. The report is the leaderboard of the grid-search rows: one record per family, sorted by score, highest first. |

## Left out

- File I/O: `read_yaml`, `write_yaml`, `read_csv`, `to_csv` and pickling are not modelled. The schema and the frames are inputs. A report write is recorded as a snapshot in `Run.written`. The saved frames are the artifact's fields.
- The `validation_date` timestamp reads the clock, so `NewReport` takes it as a parameter.
- Logging is left out; it has no effect on results.
- The grid search is not modelled: the `GridSearchCV` fit, the cross-validation, the choice of `best_estimator_` and `_save_model`. These are library calls. Their `cv_results_` rows are an input of `TrainModel`, and the fitted estimator is not represented.
- Scores are `real`. NaN scores from failed fits, and pandas skipping NaN in `idxmax`, are not modelled.
- `is_dtype_equal` is modelled as equality of dtype tag strings.
- Python's cross-type equality of set members (`1 == 1.0 == True`) is not modelled: cell values compare structurally.
- Validation.Lower: lowercases only the ASCII letters A-Z. `str.lower` also lowercases other scripts, which is not modelled.
- Error messages are structured values (column, observed, expected), not the formatted text. Python's printing of sets has no fixed order to model.
- Ties among families with equal best scores: pandas' sort is not stable. The model sorts one admissible way, and its contracts promise only non-increasing order and a permutation.
- `groupby` lists families in key order before the sort. The model lists them in first-occurrence order, which the following sort makes irrelevant.
- Training.SplitFeatures: requires unique column names, as `read_csv` produces them. With duplicates, pandas would hand back a two-column label.
- Floating-point cells, NaN in particular, are not modelled: `Value` has only integer and text cells. In the Python code a NaN cell never equals an allowed value, so a column holding one always fails the subset test at src/phishdetector/components/data_validation.py:94.
- A schema entry whose `allowed_unique_values` is written as `null` makes `set(None)` raise `TypeError` at src/phishdetector/components/data_validation.py:91 for a present column. `AllowedSet` reads it like a missing key, as the empty set. Where the Python code raises, the model therefore fails a non-empty column and passes an empty one.
- A schema entry whose value is null raises `AttributeError` in `validate_schema` when its column is present in the frame. A missing column returns False at src/phishdetector/components/data_validation.py:72-77 before the entry is read, and the model does the same. The raise is not modelled: a `ColumnSpec` always exists, with optional keys. A schema file that is not a mapping is not modelled either.
- The training report's YAML write is not modelled. The model returns the report content.
- Data ingestion and the train/test split, evaluation metrics, prediction, the pipeline entry points, the configuration and artifact path classes, and the HTTP API are outside the two components modelled here.
