# E-commerce transaction shield: the decision logic of the fraud pipeline

This project models the decision-making core of a fraud-detection training and serving pipeline and proves properties of it. It leaves out the plumbing around it: pandas, sklearn, mlflow, bentoml, pickle and YAML I/O. The parts modelled are:

- **Data validation** (`DataValidation`, `src/components/data_validation.py`):
  - a schema check that compares column sets;
  - a drift loop over the train columns that clears the status when any p-value is below 0.03 and builds a per-column report;
  - the validation artifact, which fills either the valid snapshot pair or the invalid one, never both.
- **Feature engineering** (`DataTransformation`): the row-level rules of `engineer_features`:
  - identifier columns are dropped;
  - only adult rows are kept;
  - `New_Account` and `Early_Txn` flags are added.
  The stage's artifact and metadata are modelled too.
- **Best-model selection** (`ModelTrainer`): Python `max` over the insertion-ordered `results` dictionary, plus the artifact and the metrics file.
- **Evaluation gate** (`ModelEvaluation`): predictions use the fixed threshold 0.15, and acceptance is an AND of three metric floors.
- **Promotion** (`Utils`): `update_latest_artifacts` removes the latest tree and then copies the current one. It is modelled as a `FileSystem` class whose directory map the method updates.
- **Run configuration** (`ConfigEntity`): POSIX `os.path.join` path derivation from a timestamp.
- **Serving** (`Service`): the feature list, the threshold default, request alignment and the fraud decision.
- **Requirements parsing** (`Setup`): `get_requirements` over the lines of the requirements file.

Shared modules:

- `Outcomes`: `Option`, `Result`, and the raised errors, with `CustomException` wrapping a cause.
- `Seqs`: order-preserving filtering, with its index witness `Kept`.
- `Frames`: a data frame as column labels plus rows of numeric cells.
- `Constants`: the pipeline constants.
- `ArtifactEntity`: the artifact records.

Library numerics enter as function parameters and are only compared, never computed:

- the Kolmogorov–Smirnov p-value `pValue(column)`;
- sklearn metrics `measure`;
- `predict_proba`;
- the trainers.

The file system enters as a `Reader` from path to optional frame.

Two kinds of code are modelled as methods whose `ensures` ties them to a specification function:

- Code that updates state step by step: `DetectDatasetDrift` (a while loop with invariants), `InitiateDataValidation`, `InitiateModelTraining` (fills `results`), `GetRequirements` (removes in place) and `FileSystem.UpdateLatestArtifacts`.
- Code that is pure in the source is modelled as functions and lemmas.

## Model

| member | source | states |
|---|---|---|
| Frames.DropColumns | src/components/data_transformation.py:41 | `drop(errors="ignore")`: the surviving columns are the unlisted ones in their original order, so a column survives iff it was present and not listed; every row loses exactly the listed keys; row count unchanged |
| Frames.DropColumn | src/components/model_trainer.py:35-39 | `drop(columns=[name])` raises `KeyError(name)` iff the column is absent; otherwise exactly that column is gone and the others keep their order, the row count is unchanged and every row keeps all its other cells |
| Frames.Column | src/components/model_trainer.py:36-39 | `df[name]` raises iff the column is absent; otherwise it is the column's cells in row order |
| Frames.AssignColumn | src/components/data_transformation.py:56-57 | `df[name] = ...` overwrites an existing column in place or appends a new one at the right; each row gains the value computed from itself |
| Frames.FilterRows | src/components/data_transformation.py:46 | a boolean row mask keeps the columns and keeps exactly the passing rows, in order |
| ConfigEntity.Join | src/entity/config_entity.py:12-13 | `os.path.join`: an absolute component replaces the base; a relative one extends it |
| ConfigEntity.JoinExtends | src/entity/config_entity.py:12-13 | joining a relative component extends the base, with a `/` between them when the base lacks a trailing one |
| ConfigEntity.JoinEndsLikeComponent | src/entity/config_entity.py:23-26 | a path joined with a non-empty relative component ends with that component's last character |
| ConfigEntity.JoinEndsWithComponent | src/entity/config_entity.py:33-41 | a joined path ends with the component joined |
| ConfigEntity.JoinInjective | src/entity/config_entity.py:33-41 | different relative components joined to one base give different paths |
| ConfigEntity.NewTrainingPipelineConfig | src/entity/config_entity.py:6-14 | the timestamp is the one supplied, or else the clock reading, and is stored unchanged; `artifact_dir == "artifacts/" + timestamp` for a relative timestamp; `model_dir == artifact_dir + "/saved_models"` for a relative timestamp that is non-empty and does not end in `/` |
| ConfigEntity.NewDataIngestionConfig | src/entity/config_entity.py:21-41 | raw path is `data/raw/transactions.csv`; the ingestion dir is `artifact_dir + "/data_ingestion"` (when `artifact_dir` is non-empty and does not end in `/`, and always extends it); train and test paths are the ingestion dir followed by `/train.csv` and `/test.csv`, and differ |
| ConfigEntity.IngestionPathsUnderRun | src/entity/config_entity.py:12 | for a non-empty relative timestamp not ending in `/`, the ingestion dir is `artifacts/<timestamp>/data_ingestion` and the train and test paths lie inside the directory `artifacts/<timestamp>/`; the raw path is the same for every timestamp |
| ConfigEntity.AbsoluteTimestampEscapesRoot | src/entity/config_entity.py:12 | `os.path.join` with an absolute timestamp discards the artifact root |
| DataValidation.ValidateSchema | src/components/data_validation.py:38-45 | missing `columns` key raises `KeyError`; otherwise true iff every declared column is a frame column and vice versa |
| DataValidation.SchemaIgnoresOrder | src/components/data_validation.py:39-40 | reordering or repeating frame columns does not change the verdict |
| DataValidation.FirstMissing | src/components/data_validation.py:53-55 | the first train column the test frame lacks (all earlier ones are present) |
| DataValidation.DriftSpec | src/components/data_validation.py:47-74 | raises `KeyError` on a train column missing from test; else status iff no train column's p-value is below the threshold, report keys are exactly the train columns, each entry holds its p-value and `drift_detected <==> p < threshold` |
| DataValidation.DetectDatasetDrift | src/components/data_validation.py:47-74 | the loop (status flag cleared on drift, report filled per column, early raise) computes exactly `DriftSpec` |
| DataValidation.ThresholdIsNotDrift | src/components/data_validation.py:59-61 | a column whose p-value equals the threshold is not flagged, whatever the other columns hold, and the status is decided by the other columns alone |
| DataValidation.OneDriftedColumnFails | src/components/data_validation.py:59-61 | one drifted train column clears the status and is flagged in the report |
| DataValidation.OnlyTrainColumnsMatter | src/components/data_validation.py:53 | p-values of test-only columns never affect the drift result |
| DataValidation.ReadData | src/components/data_validation.py:31-36 | a read failure is wrapped once in `CustomException`; success returns the frame |
| DataValidation.Outcome | src/components/data_validation.py:88-116 | status is `schema_valid and drift_status`; the valid pair is set iff the status holds, the invalid pair iff not; the snapshot writes go to the matching pair; the drift report path is always set |
| DataValidation.SchemaValid | src/components/data_validation.py:84 | schema is valid only if both train and test column sets equal the declared set |
| DataValidation.Validation | src/components/data_validation.py:76-119 | every error is wrapped; an unreadable train or test file gives its path's error wrapped twice, a schema without `columns` gives `KeyError` wrapped once; with both files readable and the key present the stage succeeds iff the drift check does not raise; on success the result is exactly `Outcome` of the two frames, the schema verdict and the drift result (status = schema AND drift, exclusive pairs, snapshot writes, report path) |
| DataValidation.InitiateDataValidation | src/components/data_validation.py:76-119 | the stage (reads, schema check, drift loop, artifact) returns exactly `Validation` |
| DataValidation.DriftFailureRejects | src/components/data_validation.py:86-88 | a drifted train column rejects the pair even when both schema checks pass, and the invalid pair is written |
| DataValidation.DriftReportWhateverSchema | src/components/data_validation.py:84-86 | with readable inputs and no missing train column, the stage returns normally with a report on every train column whatever the schema verdict (no short-circuit) |
| DataValidation.MissingTestColumnRaises | src/components/data_validation.py:53-55 | a train column absent from test makes the stage raise instead of returning status false |
| DataValidation.SharedDrift | src/components/data_validation.py:47-74 | drift over the shared columns: report keys are the shared columns; status iff none of them drifted |
| DataValidation.ValidationShared | src/components/data_validation.py:76-119 | corrected stage: never raises on readable inputs; the pairs are exclusive; status is the schema verdict AND shared-column drift |
| DataValidation.MissingTestColumnFailsSchema | src/components/data_validation.py:84-104 | corrected stage: a test frame missing a declared column yields status false with the invalid pair set |
| DataTransformation.NewAccountFlag | src/components/data_transformation.py:56 | 1 iff Account Age Days <= 30, else 0 |
| DataTransformation.EarlyTxnFlag | src/components/data_transformation.py:57 | 1 iff 0 <= Transaction Hour <= 5 (inclusive at both ends), else 0 |
| DataTransformation.Engineered | src/components/data_transformation.py:41-57 | result columns are the input columns minus the seven dropped ones, plus the two flags |
| DataTransformation.EngineerFeatures | src/components/data_transformation.py:26-78 | raises `KeyError` (on the first missing column read) iff an input column is missing; none of the seven listed columns survives, and listed columns that are absent cause no error |
| DataTransformation.FlagsOfDroppedRow | src/components/data_transformation.py:41-57 | dropping the identifier columns does not change a row's flags or its other cells |
| DataTransformation.DropThenFilter | src/components/data_transformation.py:41-46 | dropping non-age columns commutes with the age filter |
| DataTransformation.EngineeredRowsAre | src/components/data_transformation.py:41-57 | the result rows are the adult input rows, in order, without the dropped columns, with the two flags added |
| DataTransformation.EngineeredRows | src/components/data_transformation.py:46-57 | each result row carries the flags of its own adult source row and keeps that row's surviving cells |
| DataTransformation.AdultRowsKept | src/components/data_transformation.py:46 | exactly the rows with Customer Age >= 18 survive, at increasing source positions (original order) |
| DataTransformation.ReadOptional | src/components/data_transformation.py:84-85 | a `None` path is rejected; otherwise the file is read |
| DataTransformation.InitiateDataTransformation | src/components/data_transformation.py:80-116 | succeeds iff both valid paths are set, both files read and `engineer_features` succeeds on each; errors are wrapped; train and test are each `engineer_features` of their own valid snapshot; metadata is the train columns and `Is Fraudulent`; the artifact holds the config's three paths |
| DataTransformation.FailedValidationStopsTransformation | src/components/data_transformation.py:84-85 | a failed validation artifact has no valid paths, so the stage raises |
| ModelTrainer.Put | src/components/model_trainer.py:92-102 | `results[name] = ...`: the key set gains the name; a new name is appended after the existing entries; an existing name keeps its position and only its value changes |
| ModelTrainer.BestIndex | src/components/model_trainer.py:107-109 | the selected entry's score is >= every score, and every earlier entry scores strictly less (first maximum) |
| ModelTrainer.LoadData | src/components/model_trainer.py:31-41 | succeeds iff both frames read and both carry the target; the features are each frame without the target column (every other cell kept) and the labels are each frame's target column, one cell per row |
| ModelTrainer.InitiateModelTraining | src/components/model_trainer.py:77-137 | errors are wrapped; the name is RandomForest or LogisticRegression; the score is >= both candidates; a tie goes to RandomForest; the saved model and the score are the chosen candidate's; the metrics file holds the same name and score; the model path is the config's |
| ModelEvaluation.Predictions | src/components/model_evaluation.py:54-56 | a prediction is 1 iff the probability is >= 0.15 (inclusive), else 0 |
| ModelEvaluation.IsAccepted | src/components/model_evaluation.py:66-70 | accepted iff f2, recall and precision each meet their floor (inclusive) |
| ModelEvaluation.OneMissedFloorRejects | src/components/model_evaluation.py:66-70 | for each of f2, recall and precision: that metric below its floor rejects, even with the other two at 1.0 |
| ModelEvaluation.AcceptanceMonotone | src/components/model_evaluation.py:66-70 | metrics at least as good on all three counts as accepted ones are accepted too |
| ModelEvaluation.Measure | src/components/model_evaluation.py:44-61 | succeeds iff the model loads, the test frame reads and it carries the target; the metrics are those of the thresholded probabilities on the test features |
| ModelEvaluation.InitiateModelEvaluation | src/components/model_evaluation.py:40-94 | only load failures raise, wrapped; acceptance is the AND of the three floors; the report holds the three metrics and `accepted == is_model_accepted`; `evaluated_metric` is f2; the report path is the config's |
| ModelEvaluation.ThresholdNotFromTrainer | src/components/model_evaluation.py:55 | the trainer artifact's recorded name and score do not affect the evaluation |
| Utils.Promote | src/utils/__init__.py:31-35 | succeeds iff the current dir exists and differs from latest; then latest holds exactly the current tree; on failure latest is gone and the bare `FileNotFound` surfaces unwrapped; every other directory is unchanged |
| Utils.NoMerge | src/utils/__init__.py:32-35 | after success a file is in latest iff it is in current; old latest files do not survive |
| Utils.SelfPromotionLosesTree | src/utils/__init__.py:31-35 | promoting a directory onto itself deletes it and fails |
| Utils.FileSystem.UpdateLatestArtifacts | src/utils/__init__.py:31-35 | the in-place `rmtree`/`copytree` leaves the directories and the result that `Promote` describes |
| Service.LoadServiceConfig | service.py:7-13 | threshold is the metadata value or 0.15; a missing `features` key raises; `FEATURES` holds exactly the metadata features other than `Is Fraudulent` |
| Service.FeaturesKeepOrder | service.py:10-13 | `FEATURES` is the metadata list at increasing positions, keeping every non-target position |
| Service.Align | service.py:33 | one cell per feature in `FEATURES` order: the request's value when present, 0 otherwise |
| Service.AlignReadsOnlyFeatures | service.py:30-33 | request keys outside `FEATURES` never reach the model |
| Service.Predict | service.py:26-42 | `is_fraud` is 0 or 1, and 1 iff probability >= threshold; the response echoes the threshold and the probability of the aligned request without the target |
| Service.TargetKeyIgnored | service.py:30 | with the service's configuration, a target key in the request, whatever its value, does not change the response |
| Service.TargetNeverAligned | service.py:30-33 | with the service's configuration, dropping the target changes no aligned cell |
| Setup.LeadingSpaces | setup.py:13 | the length of the leading whitespace run |
| Setup.TrailingSpaces | setup.py:13 | the length of the trailing whitespace run |
| Setup.Strip | setup.py:13 | `str.strip()`: the stretch after the leading whitespace, with only whitespace after it, neither starting nor ending with whitespace |
| Setup.StripIdempotent | setup.py:13 | stripping twice is stripping once |
| Setup.StripEmptyIffBlank | setup.py:13 | a line strips to empty iff it is all whitespace |
| Setup.Cleaned | setup.py:13 | the comprehension keeps no more lines than it is given, and no empty line |
| Setup.CleanedLinesAreStripped | setup.py:13 | every output line is a stripped input line, non-empty and already stripped |
| Setup.CleanedKeepsOrder | setup.py:13 | output lines are the stripped input lines at increasing positions, and every non-blank line is kept |
| Setup.IndexOf | setup.py:16 | the first position holding the value |
| Setup.GetRequirements | setup.py:4-18 | without `-e .` the result is the cleaned lines; with it, exactly its first occurrence is removed |
| Setup.LaterDuplicatesRemain | setup.py:15-16 | removal takes one `-e .` and keeps later duplicates and every other line |

## Left out

- CSV, YAML and pickle I/O: frames are read through a `Reader` parameter. What is written (snapshots, reports, metrics, the pickled model and metadata) is part of each stage's result value. `read_yaml_file`/`write_yaml_file` and `os.makedirs` are not modelled.
- Schema file loading when the validation stage is constructed (src/components/data_validation.py:26): the loaded schema is a parameter.
- Library numerics are parameters that are only compared: the KS test, sklearn metrics, model fitting, SMOTE and scaling, `predict_proba`, and `pickle.load` of the model.
- The three acceptance floors come from `src.constants.model_evaluation`, which is not part of this model. They are a `Floors` parameter.
- DataTransformation.EngineerFeatures: does not model `Log_Transaction_Amount` (`log1p`), `Age_Amount_Risk`, the `Quantity` cast or `get_dummies` one-hot encoding (float and library semantics). The model therefore does not raise the `KeyError`s that those steps raise when `Transaction Amount`, `Quantity` or a categorical column is missing. Its result columns are the input columns minus the dropped ones, plus the two flags.
- Cells are exact reals: NaN, float rounding and pandas dtypes are not modelled. Integer flags are written as 1.0 and 0.0.
- mlflow experiment logging, bentoml model loading and service registration, and the `save_model` deployment script. The deployment script reads a `best_threshold` key that the evaluation report never writes, so in practice the served threshold is the default. The model keeps the metadata threshold optional.
- The data ingestion stage (reading raw data, random split) and the training pipeline runner (which runs only ingestion): neither has decision logic. There is no orchestrator that checks validation or evaluation outcomes, because the code has none.
- The clock: the timestamp generated when none is supplied is the parameter `now`.
- The key order of the YAML reports: reports are maps.
- Utils.Promote: directories are a flat map from top-level path to tree. Nested directories (such as `latest` inside `current`), permissions, and a partially copied tree after a failure mid-copy are not modelled.
- Requests are maps from feature name to a number. Non-numeric request values and the one-row DataFrame construction are not modelled.
- The design documentation and the code disagree on drift over a test frame that lacks a train column: the design says drift covers the shared columns and a missing column fails validation with status false. The model follows the code (`DataValidation.Validation`), and the design's behaviour is the corrected member under Findings.

## Findings

| source | as written | input that shows it | evidently intended | confidence | as-written member | corrected member |
|---|---|---|---|---|---|---|
| src/components/data_validation.py:53-55 | the drift loop indexes the test frame with every train column, so a test frame lacking a train column raises a KeyError, wrapped as an exception, before any status is returned | schema columns {a, b}; train columns [a, b]; test columns [a] | drift over the columns both frames share; the missing column fails the schema check and the stage returns status false with the invalid pair written | medium, not executed | DataValidation.MissingTestColumnRaises | DataValidation.MissingTestColumnFailsSchema |
