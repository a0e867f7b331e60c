/**
 * The data-validation gate: a schema check on the train and test frames, a
 * per-column drift check of test against train, and the artifact that
 * records which snapshot pair was written.
 */
module DataValidation {
  import opened Outcomes
  import opened Seqs
  import opened Frames
  import opened ConfigEntity
  import opened ArtifactEntity

  /** The significance level below which a column counts as drifted. */
  const DriftThreshold: real := 0.03

  /** The loaded schema file: its "columns" entry maps each declared column to its type. */
  type SchemaConfig = map<string, map<string, string>>

  /**
   * `validate_schema`: the declared columns and the frame's columns must be
   * the same set; order and repetition do not matter.
   */
  function ValidateSchema(schema: SchemaConfig, df: Frame): (r: Result<bool>)
    ensures r.Err? <==> "columns" !in schema
    ensures r.Err? ==> r.error == KeyError("columns")
    ensures r.Ok? ==> (r.value <==> forall c :: c in schema["columns"] <==> c in df.columns)
  {
    if "columns" !in schema then Err(KeyError("columns"))
    else Ok(schema["columns"].Keys == ColumnSet(df.columns))
  }

  /** Reordering or repeating the frame's columns does not change the schema verdict. */
  lemma SchemaIgnoresOrder(schema: SchemaConfig, a: Frame, b: Frame)
    requires ColumnSet(a.columns) == ColumnSet(b.columns)
    ensures ValidateSchema(schema, a) == ValidateSchema(schema, b)
  {
  }

  datatype DriftEntry = DriftEntry(pValue: real, driftDetected: bool)

  /** The drift report: one entry per train column. */
  type DriftReport = map<string, DriftEntry>

  datatype DriftResult = DriftResult(status: bool, report: DriftReport)

  /** The position of the first train column that the test frame lacks, or `|base|`. */
  function FirstMissing(base: seq<string>, current: seq<string>): (i: nat)
    ensures i <= |base|
    ensures forall j :: 0 <= j < i ==> base[j] in current
    ensures i < |base| ==> base[i] !in current
  {
    if base == [] then 0
    else if base[0] !in current then 0
    else 1 + FirstMissing(base[1..], current)
  }

  /**
   * What `detect_dataset_drift` computes: the first train column missing
   * from test raises `KeyError`; otherwise the status holds when no train
   * column's p-value is below the threshold, and the report records each
   * train column's p-value and whether it drifted.
   */
  function DriftSpec(base: seq<string>, current: seq<string>, pValue: string -> real, threshold: real): (r: Result<DriftResult>)
    ensures r.Err? <==> exists j :: 0 <= j < |base| && base[j] !in current
    ensures r.Err? ==> r.error.KeyError? && r.error.key in base && r.error.key !in current
    ensures r.Ok? ==> (r.value.status <==> forall j :: 0 <= j < |base| ==> pValue(base[j]) >= threshold)
    ensures r.Ok? ==> r.value.report.Keys == ColumnSet(base)
    ensures r.Ok? ==> forall c :: c in r.value.report ==>
      r.value.report[c].pValue == pValue(c) && (r.value.report[c].driftDetected <==> pValue(c) < threshold)
  {
    var i := FirstMissing(base, current);
    if i < |base| then Err(KeyError(base[i]))
    else Ok(DriftResult(
      forall c :: c in base ==> !(pValue(c) < threshold),
      map c | c in base :: DriftEntry(pValue(c), pValue(c) < threshold)))
  }

  /**
   * `detect_dataset_drift`: one pass over the train columns, clearing the
   * status on the first drifted column and adding each column's entry to
   * the report. `pValue(c)` is the two-sample KS p-value of column `c`.
   */
  method DetectDatasetDrift(base: Frame, current: Frame, pValue: string -> real, threshold: real)
    returns (r: Result<DriftResult>)
    ensures r == DriftSpec(base.columns, current.columns, pValue, threshold)
  {
    var status := true;
    var report: DriftReport := map[];
    var i := 0;
    while i < |base.columns|
      invariant 0 <= i <= |base.columns|
      invariant forall j :: 0 <= j < i ==> base.columns[j] in current.columns
      invariant status <==> forall j :: 0 <= j < i ==> pValue(base.columns[j]) >= threshold
      invariant report == map c | c in base.columns[..i] :: DriftEntry(pValue(c), pValue(c) < threshold)
    {
      var column := base.columns[i];
      if column !in current.columns {
        assert FirstMissing(base.columns, current.columns) == i;
        return Err(KeyError(column));
      }
      var p := pValue(column);
      var driftDetected := p < threshold;
      if driftDetected {
        status := false;
      }
      report := report[column := DriftEntry(p, driftDetected)];
      assert base.columns[..i + 1] == base.columns[..i] + [column];
      i := i + 1;
    }
    assert base.columns[..i] == base.columns;
    assert FirstMissing(base.columns, current.columns) == |base.columns|;
    assert status == (forall c :: c in base.columns ==> !(pValue(c) < threshold)) by {
      assert forall c :: c in base.columns ==> exists j :: 0 <= j < i && base.columns[j] == c;
    }
    return Ok(DriftResult(status, report));
  }

  /**
   * A p-value exactly at the threshold is not drift: that column is not
   * flagged, and the status is decided by the other columns alone.
   */
  lemma {:induction false} ThresholdIsNotDrift(base: seq<string>, current: seq<string>, pValue: string -> real, threshold: real, c: string)
    requires DriftSpec(base, current, pValue, threshold).Ok?
    requires c in base && pValue(c) == threshold
    ensures c in DriftSpec(base, current, pValue, threshold).value.report
    ensures !DriftSpec(base, current, pValue, threshold).value.report[c].driftDetected
    ensures DriftSpec(base, current, pValue, threshold).value.status <==>
      forall d :: d in base && d != c ==> pValue(d) >= threshold
  {
    var r := DriftSpec(base, current, pValue, threshold).value;
    assert c in ColumnSet(base);
    if forall d :: d in base && d != c ==> pValue(d) >= threshold {
      forall j | 0 <= j < |base|
        ensures pValue(base[j]) >= threshold
      {
        assert base[j] in base;
      }
    }
  }

  /** A single drifted column fails the whole pair and is flagged in the report. */
  lemma {:induction false} OneDriftedColumnFails(base: seq<string>, current: seq<string>, pValue: string -> real, threshold: real, c: string)
    requires DriftSpec(base, current, pValue, threshold).Ok?
    requires c in base && pValue(c) < threshold
    ensures !DriftSpec(base, current, pValue, threshold).value.status
    ensures DriftSpec(base, current, pValue, threshold).value.report[c].driftDetected
  {
    var j :| 0 <= j < |base| && base[j] == c;
  }

  /** Test-only columns are never drift-checked: p-values of columns outside train do not matter. */
  lemma {:induction false} OnlyTrainColumnsMatter(base: seq<string>, current: seq<string>, p1: string -> real, p2: string -> real, threshold: real)
    requires forall c :: c in base ==> p1(c) == p2(c)
    ensures DriftSpec(base, current, p1, threshold) == DriftSpec(base, current, p2, threshold)
  {
    var d1 := DriftSpec(base, current, p1, threshold);
    var d2 := DriftSpec(base, current, p2, threshold);
    if d1.Ok? {
      assert forall j :: 0 <= j < |base| ==> base[j] in base;
      assert d1.value.report == d2.value.report;
    }
  }

  /** `read_data`: a read failure is wrapped once here and again by the stage. */
  function ReadData(read: Reader, path: string): (r: Result<Frame>)
    ensures r.Ok? <==> read(path).Some?
    ensures r.Ok? ==> r.value == read(path).value
    ensures r.Err? ==> r.error == CustomException(FileNotFound(path))
  {
    match ReadCsv(read, path)
    case Ok(f) => Ok(f)
    case Err(e) => Err(CustomException(e))
  }

  datatype ValidationOutcome = ValidationOutcome(
    artifact: DataValidationArtifact,
    driftReport: DriftReport,          // the content written to the drift report file
    snapshots: seq<(string, Frame)>)   // each frame written as CSV, with its path

  /** Builds the artifact and the snapshot writes from the two gate results. */
  function Outcome(config: DataValidationConfig, train: Frame, test: Frame, schemaValid: bool, drift: DriftResult): (o: ValidationOutcome)
    ensures o.artifact.validationStatus == (schemaValid && drift.status)
    ensures PairsExclusive(o.artifact)
    ensures o.artifact.driftReportFilePath == config.driftReportFilePath
    ensures o.driftReport == drift.report
    ensures o.artifact.validationStatus ==>
      o.snapshots == [(config.validTrainFilePath, train), (config.validTestFilePath, test)] &&
      o.artifact.validTrainFilePath == Some(config.validTrainFilePath) &&
      o.artifact.validTestFilePath == Some(config.validTestFilePath)
    ensures !o.artifact.validationStatus ==>
      o.snapshots == [(config.invalidTrainFilePath, train), (config.invalidTestFilePath, test)] &&
      o.artifact.invalidTrainFilePath == Some(config.invalidTrainFilePath) &&
      o.artifact.invalidTestFilePath == Some(config.invalidTestFilePath)
  {
    var status := schemaValid && drift.status;
    var snapshots :=
      if status then [(config.validTrainFilePath, train), (config.validTestFilePath, test)]
      else [(config.invalidTrainFilePath, train), (config.invalidTestFilePath, test)];
    var artifact := DataValidationArtifact(
      status,
      if status then Some(config.validTrainFilePath) else None,
      if status then Some(config.validTestFilePath) else None,
      if status then None else Some(config.invalidTrainFilePath),
      if status then None else Some(config.invalidTestFilePath),
      config.driftReportFilePath);
    ValidationOutcome(artifact, drift.report, snapshots)
  }

  /** True when both frames can be read and the schema declares its columns. */
  predicate Readable(ingestion: DataIngestionArtifact, schema: SchemaConfig, read: Reader) {
    read(ingestion.trainFilePath).Some? && read(ingestion.testFilePath).Some? && "columns" in schema
  }

  /** The schema verdict on both frames, the `and` of the two checks. */
  function SchemaValid(schema: SchemaConfig, train: Frame, test: Frame): (b: bool)
    requires "columns" in schema
    ensures b <==> ColumnSet(train.columns) == schema["columns"].Keys && ColumnSet(test.columns) == schema["columns"].Keys
  {
    ValidateSchema(schema, train).value && ValidateSchema(schema, test).value
  }

  /**
   * What `initiate_data_validation` returns. Drift is computed and its
   * report produced whatever the schema verdict; every failure leaves the
   * stage wrapped in `CustomException`.
   */
  function Validation(ingestion: DataIngestionArtifact, config: DataValidationConfig, schema: SchemaConfig,
                      read: Reader, pValue: string -> real): (r: Result<ValidationOutcome>)
    ensures r.Err? ==> IsWrapped(r.error)
    ensures read(ingestion.trainFilePath).None? ==>
      r == Err(CustomException(CustomException(FileNotFound(ingestion.trainFilePath))))
    ensures read(ingestion.trainFilePath).Some? && read(ingestion.testFilePath).None? ==>
      r == Err(CustomException(CustomException(FileNotFound(ingestion.testFilePath))))
    ensures read(ingestion.trainFilePath).Some? && read(ingestion.testFilePath).Some? && "columns" !in schema ==>
      r == Err(CustomException(KeyError("columns")))
    ensures Readable(ingestion, schema, read) ==>
      var train, test := read(ingestion.trainFilePath).value, read(ingestion.testFilePath).value;
      r.Ok? <==> DriftSpec(train.columns, test.columns, pValue, DriftThreshold).Ok?
    ensures r.Ok? ==> Readable(ingestion, schema, read)
    ensures r.Ok? ==> PairsExclusive(r.value.artifact)
    ensures r.Ok? ==> r.value.artifact.driftReportFilePath == config.driftReportFilePath
    ensures r.Ok? ==>
      var train := read(ingestion.trainFilePath).value;
      var test := read(ingestion.testFilePath).value;
      var drift := DriftSpec(train.columns, test.columns, pValue, DriftThreshold);
      && drift.Ok?
      && r.value == Outcome(config, train, test, SchemaValid(schema, train, test), drift.value)
      && r.value.driftReport == drift.value.report
      && r.value.artifact.validationStatus == (SchemaValid(schema, train, test) && drift.value.status)
  {
    match ReadData(read, ingestion.trainFilePath)
    case Err(e) => Err(CustomException(e))
    case Ok(train) =>
      match ReadData(read, ingestion.testFilePath)
      case Err(e) => Err(CustomException(e))
      case Ok(test) =>
        if "columns" !in schema then Err(CustomException(KeyError("columns")))
        else
          match DriftSpec(train.columns, test.columns, pValue, DriftThreshold)
          case Err(e) => Err(CustomException(e))
          case Ok(drift) => Ok(Outcome(config, train, test, SchemaValid(schema, train, test), drift))
  }

  /** `initiate_data_validation`: reads both frames, checks the schema, runs the drift loop, builds the artifact. */
  method InitiateDataValidation(ingestion: DataIngestionArtifact, config: DataValidationConfig, schema: SchemaConfig,
                                read: Reader, pValue: string -> real) returns (r: Result<ValidationOutcome>)
    ensures r == Validation(ingestion, config, schema, read, pValue)
  {
    var trainRead := ReadData(read, ingestion.trainFilePath);
    if trainRead.Err? {
      return Err(CustomException(trainRead.error));
    }
    var testRead := ReadData(read, ingestion.testFilePath);
    if testRead.Err? {
      return Err(CustomException(testRead.error));
    }
    var train, test := trainRead.value, testRead.value;
    var trainSchema := ValidateSchema(schema, train);
    if trainSchema.Err? {
      return Err(CustomException(trainSchema.error));
    }
    var schemaValid := trainSchema.value && ValidateSchema(schema, test).value;
    var drift := DetectDatasetDrift(train, test, pValue, DriftThreshold);
    if drift.Err? {
      return Err(CustomException(drift.error));
    }
    return Ok(Outcome(config, train, test, schemaValid, drift.value));
  }

  /** AND semantics: one drifted column fails validation even when both schema checks pass. */
  lemma DriftFailureRejects(ingestion: DataIngestionArtifact, config: DataValidationConfig, schema: SchemaConfig,
                            read: Reader, pValue: string -> real, c: string)
    requires Validation(ingestion, config, schema, read, pValue).Ok?
    requires c in read(ingestion.trainFilePath).value.columns && pValue(c) < DriftThreshold
    ensures !Validation(ingestion, config, schema, read, pValue).value.artifact.validationStatus
    ensures Validation(ingestion, config, schema, read, pValue).value.artifact.invalidTrainFilePath == Some(config.invalidTrainFilePath)
  {
    var train := read(ingestion.trainFilePath).value;
    var test := read(ingestion.testFilePath).value;
    OneDriftedColumnFails(train.columns, test.columns, pValue, DriftThreshold, c);
  }

  /**
   * No short-circuit: with readable inputs and every train column present
   * in test, the stage returns normally and carries the drift report,
   * whether or not the schema check passed.
   */
  lemma {:induction false} DriftReportWhateverSchema(ingestion: DataIngestionArtifact, config: DataValidationConfig,
                                                     schema: SchemaConfig, read: Reader, pValue: string -> real)
    requires Readable(ingestion, schema, read)
    requires forall c :: c in read(ingestion.trainFilePath).value.columns ==> c in read(ingestion.testFilePath).value.columns
    ensures Validation(ingestion, config, schema, read, pValue).Ok?
    ensures Validation(ingestion, config, schema, read, pValue).value.driftReport.Keys
      == ColumnSet(read(ingestion.trainFilePath).value.columns)
  {
    var train := read(ingestion.trainFilePath).value;
    var test := read(ingestion.testFilePath).value;
    assert forall j :: 0 <= j < |train.columns| ==> train.columns[j] in train.columns;
  }

  /**
   * As written: a test frame lacking a train column makes the drift loop
   * raise, so the stage fails with an exception instead of returning a
   * `false` status, even when the schema check alone already fails.
   */
  lemma {:induction false} MissingTestColumnRaises(ingestion: DataIngestionArtifact, config: DataValidationConfig,
                                                   schema: SchemaConfig, read: Reader, pValue: string -> real, c: string)
    requires Readable(ingestion, schema, read)
    requires c in read(ingestion.trainFilePath).value.columns && c !in read(ingestion.testFilePath).value.columns
    ensures Validation(ingestion, config, schema, read, pValue).Err?
  {
    var train := read(ingestion.trainFilePath).value;
    var test := read(ingestion.testFilePath).value;
    var j :| 0 <= j < |train.columns| && train.columns[j] == c;
    assert DriftSpec(train.columns, test.columns, pValue, DriftThreshold).Err?;
  }

  /** Drift over the columns train and test share, as the design describes it; never raises. */
  function SharedDrift(base: seq<string>, current: seq<string>, pValue: string -> real, threshold: real): (r: DriftResult)
    ensures r.report.Keys == ColumnSet(base) * ColumnSet(current)
    ensures r.status <==> forall c :: c in base && c in current ==> pValue(c) >= threshold
  {
    var shared := Filter(base, c => c in current);
    FilterMembers(base, c => c in current);
    assert forall j :: 0 <= j < |shared| ==> shared[j] in shared;
    DriftSpec(shared, current, pValue, threshold).value
  }

  /** Corrected stage: the same gate with drift checked over the shared columns only. */
  function ValidationShared(ingestion: DataIngestionArtifact, config: DataValidationConfig, schema: SchemaConfig,
                            read: Reader, pValue: string -> real): (r: Result<ValidationOutcome>)
    ensures r.Ok? <==> Readable(ingestion, schema, read)
    ensures r.Ok? ==> PairsExclusive(r.value.artifact)
    ensures r.Ok? ==>
      var train := read(ingestion.trainFilePath).value;
      var test := read(ingestion.testFilePath).value;
      r.value.artifact.validationStatus ==
        (SchemaValid(schema, train, test) && SharedDrift(train.columns, test.columns, pValue, DriftThreshold).status)
  {
    match ReadData(read, ingestion.trainFilePath)
    case Err(e) => Err(CustomException(e))
    case Ok(train) =>
      match ReadData(read, ingestion.testFilePath)
      case Err(e) => Err(CustomException(e))
      case Ok(test) =>
        if "columns" !in schema then Err(CustomException(KeyError("columns")))
        else Ok(Outcome(config, train, test, SchemaValid(schema, train, test),
                        SharedDrift(train.columns, test.columns, pValue, DriftThreshold)))
  }

  /**
   * Corrected behaviour: a test frame missing one declared column is
   * reported as a failed validation, with the invalid pair written.
   */
  lemma {:induction false} MissingTestColumnFailsSchema(ingestion: DataIngestionArtifact, config: DataValidationConfig,
                                                        schema: SchemaConfig, read: Reader, pValue: string -> real, c: string)
    requires Readable(ingestion, schema, read)
    requires c in schema["columns"] && c !in read(ingestion.testFilePath).value.columns
    ensures ValidationShared(ingestion, config, schema, read, pValue).Ok?
    ensures !ValidationShared(ingestion, config, schema, read, pValue).value.artifact.validationStatus
    ensures ValidationShared(ingestion, config, schema, read, pValue).value.artifact.invalidTestFilePath
      == Some(config.invalidTestFilePath)
  {
    var test := read(ingestion.testFilePath).value;
    assert c !in ColumnSet(test.columns);
  }
}
