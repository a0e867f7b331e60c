/**
 * The transformation stage: the row-level feature rules of
 * `engineer_features`, applied to train and test independently, and the
 * artifact and metadata the stage writes.
 */
module DataTransformation {
  import opened Outcomes
  import opened Seqs
  import opened Frames
  import opened Constants
  import opened ConfigEntity
  import opened ArtifactEntity

  /** Identifier, date and address columns removed before modelling. */
  const DropCols: seq<string> := [
    "Transaction ID", "Customer ID", "Transaction Date", "Customer Location",
    "IP Address", "Shipping Address", "Billing Address"]

  const CustomerAge: string := "Customer Age"
  const AccountAgeDays: string := "Account Age Days"
  const TransactionHour: string := "Transaction Hour"
  const NewAccount: string := "New_Account"
  const EarlyTxn: string := "Early_Txn"

  const MinCustomerAge: real := 18.0
  const NewAccountMaxDays: real := 30.0
  const EarlyHourFirst: real := 0.0
  const EarlyHourLast: real := 5.0

  /** The row mask `df["Customer Age"] >= 18`. */
  predicate Adult(row: Row) {
    CustomerAge in row && row[CustomerAge] >= MinCustomerAge
  }

  /** `(df["Account Age Days"] <= 30).astype(int)` on one row. */
  function NewAccountFlag(row: Row): (flag: real)
    ensures flag == 1.0 || flag == 0.0
    ensures flag == 1.0 <==> AccountAgeDays in row && row[AccountAgeDays] <= NewAccountMaxDays
  {
    if AccountAgeDays in row && row[AccountAgeDays] <= NewAccountMaxDays then 1.0 else 0.0
  }

  /** `df["Transaction Hour"].between(0, 5).astype(int)` on one row: inclusive at both ends. */
  function EarlyTxnFlag(row: Row): (flag: real)
    ensures flag == 1.0 || flag == 0.0
    ensures flag == 1.0 <==> TransactionHour in row && EarlyHourFirst <= row[TransactionHour] <= EarlyHourLast
  {
    if TransactionHour in row && EarlyHourFirst <= row[TransactionHour] <= EarlyHourLast then 1.0 else 0.0
  }

  /** The first column the rules read that the frame lacks, in the order they read them. */
  function MissingInput(df: Frame): Option<string> {
    if CustomerAge !in df.columns then Some(CustomerAge)
    else if AccountAgeDays !in df.columns then Some(AccountAgeDays)
    else if TransactionHour !in df.columns then Some(TransactionHour)
    else None
  }

  /** One surviving row gains its two flags, `New_Account` first. */
  function AddFlags(row: Row): Row {
    var withAccount := row[NewAccount := NewAccountFlag(row)];
    withAccount[EarlyTxn := EarlyTxnFlag(withAccount)]
  }

  /** The row-level rules once every input column is known to be present. */
  function Engineered(df: Frame): (r: Frame)
    ensures forall c :: c in r.columns <==> (c in df.columns && c !in DropCols) || c == NewAccount || c == EarlyTxn
  {
    var kept := DropColumns(df, DropCols);
    var adults := FilterRows(kept, Adult);
    var flagged := AssignColumn(adults, NewAccount, NewAccountFlag);
    assert forall c :: c in flagged.columns <==> c in adults.columns || c == NewAccount;
    AssignColumn(flagged, EarlyTxn, EarlyTxnFlag)
  }

  /**
   * `engineer_features`, restricted to its row-level rules: drop the
   * identifier columns (absent ones are ignored), keep the adult rows, then
   * add the two integer flags. A missing input column raises `KeyError`.
   */
  function EngineerFeatures(df: Frame): (r: Result<Frame>)
    ensures r.Err? <==> !(CustomerAge in df.columns && AccountAgeDays in df.columns && TransactionHour in df.columns)
    ensures r.Err? ==> r.error == KeyError(MissingInput(df).value)
    ensures r.Ok? ==> r.value == Engineered(df)
    ensures r.Ok? ==> forall c :: c in DropCols ==> c !in r.value.columns
    ensures r.Ok? ==> forall c :: c in r.value.columns <==>
      (c in df.columns && c !in DropCols) || c == NewAccount || c == EarlyTxn
  {
    match MissingInput(df)
    case Some(c) => Err(KeyError(c))
    case None =>
      assert NewAccount !in DropCols && EarlyTxn !in DropCols;
      Ok(Engineered(df))
  }

  /** The flags of a row do not depend on the identifier columns dropped before they are computed. */
  lemma FlagsOfDroppedRow(adult: Row)
    ensures var row := AddFlags(adult - ColumnSet(DropCols));
      && row[NewAccount] == NewAccountFlag(adult)
      && row[EarlyTxn] == EarlyTxnFlag(adult)
      && forall c :: c in adult && c !in DropCols && c != NewAccount && c != EarlyTxn ==> c in row && row[c] == adult[c]
  {
    var dropped := ColumnSet(DropCols);
    assert AccountAgeDays !in dropped && TransactionHour !in dropped && NewAccount != EarlyTxn;
    var row := adult - dropped;
    assert NewAccountFlag(row) == NewAccountFlag(adult);
    assert EarlyTxnFlag(row[NewAccount := NewAccountFlag(row)]) == EarlyTxnFlag(adult);
  }

  /** Every row with the `dropped` keys removed. */
  function StripRows(rows: seq<Row>, dropped: set<string>): (r: seq<Row>)
    ensures |r| == |rows| && forall i :: 0 <= i < |rows| ==> r[i] == rows[i] - dropped
  {
    seq(|rows|, i requires 0 <= i < |rows| => rows[i] - dropped)
  }

  /** Dropping columns other than the age column commutes with keeping the adult rows. */
  lemma {:induction false} DropThenFilter(rows: seq<Row>, dropped: set<string>)
    requires CustomerAge !in dropped
    ensures Filter(StripRows(rows, dropped), Adult) == StripRows(Filter(rows, Adult), dropped)
  {
    if rows != [] {
      var n := |rows| - 1;
      var stripped := StripRows(rows, dropped);
      assert stripped[..n] == StripRows(rows[..n], dropped);
      assert Adult(stripped[n]) <==> Adult(rows[n]);
      DropThenFilter(rows[..n], dropped);
      var last := if Adult(rows[n]) then [rows[n]] else [];
      assert StripRows(Filter(rows[..n], Adult) + last, dropped)
          == StripRows(Filter(rows[..n], Adult), dropped) + StripRows(last, dropped);
    }
  }

  /** The engineered rows are the adult input rows, in order, stripped of the dropped columns and flagged. */
  lemma {:induction false} EngineeredRowsAre(df: Frame)
    ensures var adults := Filter(df.rows, Adult);
      Engineered(df).rows == seq(|adults|, k requires 0 <= k < |adults| => AddFlags(adults[k] - ColumnSet(DropCols)))
  {
    var dropped := ColumnSet(DropCols);
    assert CustomerAge !in dropped;
    var adults := Filter(df.rows, Adult);
    var kept := DropColumns(df, DropCols);
    assert kept.rows == StripRows(df.rows, dropped);
    DropThenFilter(df.rows, dropped);
    var adultsF := FilterRows(kept, Adult);
    var flagged := AssignColumn(adultsF, NewAccount, NewAccountFlag);
    var r := AssignColumn(flagged, EarlyTxn, EarlyTxnFlag);
    assert r == Engineered(df);
    assert |r.rows| == |adults|;
    forall k | 0 <= k < |r.rows|
      ensures r.rows[k] == AddFlags(adults[k] - dropped)
    {
      assert adultsF.rows[k] == StripRows(adults, dropped)[k];
    }
  }

  /**
   * Row contents: the result's rows are the adult rows of the input, in
   * their original order; each keeps its surviving cells and gains the
   * two flags computed from its own cells.
   */
  lemma {:induction false} EngineeredRows(df: Frame)
    requires EngineerFeatures(df).Ok?
    ensures var r := EngineerFeatures(df).value;
      var adults := Filter(df.rows, Adult);
      && |r.rows| == |adults|
      && forall k :: 0 <= k < |r.rows| ==>
        && r.rows[k][NewAccount] == NewAccountFlag(adults[k])
        && r.rows[k][EarlyTxn] == EarlyTxnFlag(adults[k])
        && forall c :: c in adults[k] && c !in DropCols && c != NewAccount && c != EarlyTxn ==>
             c in r.rows[k] && r.rows[k][c] == adults[k][c]
  {
    var r := Engineered(df);
    var adults := Filter(df.rows, Adult);
    EngineeredRowsAre(df);
    forall k | 0 <= k < |r.rows|
      ensures r.rows[k][NewAccount] == NewAccountFlag(adults[k])
      ensures r.rows[k][EarlyTxn] == EarlyTxnFlag(adults[k])
      ensures forall c :: c in adults[k] && c !in DropCols && c != NewAccount && c != EarlyTxn ==>
             c in r.rows[k] && r.rows[k][c] == adults[k][c]
    {
      FlagsOfDroppedRow(adults[k]);
    }
  }

  /** Exactly the rows whose customer age is at least 18 survive, in their original order. */
  lemma {:induction false} AdultRowsKept(df: Frame)
    requires CustomerAge in df.columns
    ensures var adults := Filter(df.rows, Adult);
      var ix := Kept(df.rows, Adult);
      && |Engineered(df).rows| == |ix|
      && (forall k :: 0 <= k < |ix| ==> ix[k] < |df.rows| && df.rows[ix[k]] == adults[k])
      && (forall k :: 0 <= k < |ix| ==> df.rows[ix[k]][CustomerAge] >= MinCustomerAge)
      && (forall k, m :: 0 <= k < m < |ix| ==> ix[k] < ix[m])
      && (forall j :: 0 <= j < |df.rows| && df.rows[j][CustomerAge] >= MinCustomerAge ==> j in ix)
  {
    EngineeredRowsAre(df);
    var adults := Filter(df.rows, Adult);
    assert forall j :: 0 <= j < |df.rows| ==> CustomerAge in df.rows[j];
  }

  /** The feature-engineering metadata pickled beside the frames. */
  datatype PreprocessingMetadata = PreprocessingMetadata(columns: seq<string>, target: string)

  datatype TransformationOutcome = TransformationOutcome(
    artifact: DataTransformationArtifact,
    transformedTrain: Frame,      // written to the transformed train path
    transformedTest: Frame,       // written to the transformed test path
    metadata: PreprocessingMetadata)

  /** `pd.read_csv` on a path that may be `None`: `None` is rejected before any file is opened. */
  function ReadOptional(read: Reader, path: Option<string>): (r: Result<Frame>)
    ensures path.None? ==> r == Err(InvalidPath)
    ensures path.Some? ==> r == ReadCsv(read, path.value)
  {
    match path
    case None => Err(InvalidPath)
    case Some(p) => ReadCsv(read, p)
  }

  /**
   * `initiate_data_transformation`: reads the valid snapshot pair, applies
   * the same rules to each frame, and records the train columns and the
   * target in the metadata.
   */
  function InitiateDataTransformation(validation: DataValidationArtifact, config: DataTransformationConfig,
                                      read: Reader): (r: Result<TransformationOutcome>)
    ensures r.Err? ==> IsWrapped(r.error)
    ensures r.Ok? <==>
      && validation.validTrainFilePath.Some? && validation.validTestFilePath.Some?
      && read(validation.validTrainFilePath.value).Some?
      && read(validation.validTestFilePath.value).Some?
      && EngineerFeatures(read(validation.validTrainFilePath.value).value).Ok?
      && EngineerFeatures(read(validation.validTestFilePath.value).value).Ok?
    ensures r.Ok? ==>
      && validation.validTrainFilePath.Some? && validation.validTestFilePath.Some?
      && read(validation.validTrainFilePath.value).Some?
      && read(validation.validTestFilePath.value).Some?
      && EngineerFeatures(read(validation.validTrainFilePath.value).value) == Ok(r.value.transformedTrain)
      && EngineerFeatures(read(validation.validTestFilePath.value).value) == Ok(r.value.transformedTest)
    ensures r.Ok? ==> r.value.metadata == PreprocessingMetadata(r.value.transformedTrain.columns, "Is Fraudulent")
    ensures r.Ok? ==> r.value.artifact == DataTransformationArtifact(
      config.transformedTrainPath, config.transformedTestPath, config.preprocessingObjectPath)
  {
    match ReadOptional(read, validation.validTrainFilePath)
    case Err(e) => Err(CustomException(e))
    case Ok(trainIn) =>
      match ReadOptional(read, validation.validTestFilePath)
      case Err(e) => Err(CustomException(e))
      case Ok(testIn) =>
        match EngineerFeatures(trainIn)
        case Err(e) => Err(CustomException(e))
        case Ok(train) =>
          match EngineerFeatures(testIn)
          case Err(e) => Err(CustomException(e))
          case Ok(test) =>
            Ok(TransformationOutcome(
              DataTransformationArtifact(config.transformedTrainPath, config.transformedTestPath, config.preprocessingObjectPath),
              train, test, PreprocessingMetadata(train.columns, TargetColumn)))
  }

  /** A failed validation artifact carries no valid paths, so the stage raises. */
  lemma FailedValidationStopsTransformation(validation: DataValidationArtifact, config: DataTransformationConfig, read: Reader)
    requires PairsExclusive(validation) && !validation.validationStatus
    ensures InitiateDataTransformation(validation, config, read) == Err(CustomException(InvalidPath))
  {
  }
}
