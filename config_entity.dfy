/**
 * Run configuration: every path of a run is derived from a timestamp and
 * the constants by POSIX `os.path.join`.
 */
module ConfigEntity {
  import opened Outcomes
  import opened Constants

  /** True when `p` starts with the POSIX separator. */
  predicate IsAbsolute(p: string) {
    |p| > 0 && p[0] == '/'
  }

  /** `posixpath.join(a, b)`: an absolute `b` discards `a`; a separator is added only when `a` lacks one. */
  function Join(a: string, b: string): (r: string)
    ensures IsAbsolute(b) ==> r == b
    ensures !IsAbsolute(b) ==> a <= r
  {
    if IsAbsolute(b) then b
    else if a == "" || a[|a| - 1] == '/' then a + b
    else a + "/" + b
  }

  /** Joining a relative component extends the base path. */
  lemma JoinExtends(a: string, b: string)
    requires !IsAbsolute(b)
    ensures a <= Join(a, b)
    ensures a != "" && a[|a| - 1] != '/' ==> Join(a, b) == a + "/" + b
  {
  }

  /** Joining a non-empty relative component ends with that component's last character. */
  lemma JoinEndsLikeComponent(a: string, b: string)
    requires b != "" && !IsAbsolute(b)
    ensures Join(a, b) != "" && Join(a, b)[|Join(a, b)| - 1] == b[|b| - 1]
  {
  }

  /** A joined path always ends with the component joined. */
  lemma JoinEndsWithComponent(a: string, b: string)
    ensures |b| <= |Join(a, b)| && Join(a, b)[|Join(a, b)| - |b|..] == b
  {
  }

  /** Two different relative components joined to one base give two different paths. */
  lemma {:induction false} JoinInjective(a: string, b1: string, b2: string)
    requires !IsAbsolute(b1) && !IsAbsolute(b2) && b1 != b2
    ensures Join(a, b1) != Join(a, b2)
  {
    var sep := if a == "" || a[|a| - 1] == '/' then "" else "/";
    assert Join(a, b1) == (a + sep) + b1 && Join(a, b2) == (a + sep) + b2;
    assert Join(a, b1)[|a + sep|..] == b1;
    assert Join(a, b2)[|a + sep|..] == b2;
  }

  datatype TrainingPipelineConfig = TrainingPipelineConfig(
    pipelineName: string,
    artifactRoot: string,
    artifactDir: string,
    modelDir: string,
    timestamp: string)

  /**
   * `TrainingPipelineConfig(timestamp)`; `now` stands for the formatted
   * clock reading used when no timestamp is supplied.
   */
  function NewTrainingPipelineConfig(timestamp: Option<string>, now: string): (c: TrainingPipelineConfig)
    ensures c.timestamp == (if timestamp.Some? then timestamp.value else now)
    ensures c.pipelineName == PipelineName && c.artifactRoot == ArtifactDir
    ensures !IsAbsolute(c.timestamp) ==> c.artifactDir == "artifacts/" + c.timestamp
    ensures !IsAbsolute(c.timestamp) ==> "artifacts/" + c.timestamp <= c.modelDir
    ensures c.timestamp != "" && !IsAbsolute(c.timestamp) && c.timestamp[|c.timestamp| - 1] != '/' ==>
      c.modelDir == "artifacts/" + c.timestamp + "/saved_models"
  {
    var stamp := if timestamp.Some? then timestamp.value else now;
    var artifactDir := Join(ArtifactDir, stamp);
    TrainingPipelineConfig(PipelineName, ArtifactDir, artifactDir, Join(artifactDir, SavedModelDir), stamp)
  }

  datatype DataIngestionConfig = DataIngestionConfig(
    dataIngestionDir: string,
    rawDataPath: string,
    trainFilePath: string,
    testFilePath: string)

  /** The ingestion directory of a run lies inside the run's artifact directory. */
  lemma IngestionDirOf(artifactDir: string)
    ensures var dir := Join(artifactDir, DataIngestionDirName);
      && artifactDir <= dir && dir != "" && dir[|dir| - 1] != '/'
      && (artifactDir != "" && artifactDir[|artifactDir| - 1] != '/' ==> dir == artifactDir + "/data_ingestion")
  {
    assert !IsAbsolute(DataIngestionDirName) && DataIngestionDirName[|DataIngestionDirName| - 1] == 'n';
    JoinExtends(artifactDir, DataIngestionDirName);
    JoinEndsLikeComponent(artifactDir, DataIngestionDirName);
  }

  /** The train and test files are two different files directly inside `dir`. */
  lemma SplitFilesOf(dir: string)
    requires dir != "" && dir[|dir| - 1] != '/'
    ensures Join(dir, DataIngestionTrainFileName) == dir + "/train.csv"
    ensures Join(dir, DataIngestionTestFileName) == dir + "/test.csv"
    ensures Join(dir, DataIngestionTrainFileName) != Join(dir, DataIngestionTestFileName)
  {
    assert !IsAbsolute(DataIngestionTrainFileName) && !IsAbsolute(DataIngestionTestFileName);
    JoinExtends(dir, DataIngestionTrainFileName);
    JoinExtends(dir, DataIngestionTestFileName);
    JoinInjective(dir, DataIngestionTrainFileName, DataIngestionTestFileName);
  }

  /** The raw input path is fixed. */
  lemma RawDataPathIs()
    ensures Join(DataIngestionRawDir, DataIngestionRawFileName) == "data/raw/transactions.csv"
  {
    assert DataIngestionRawDir == "data/raw" && !IsAbsolute(DataIngestionRawFileName);
    JoinExtends(DataIngestionRawDir, DataIngestionRawFileName);
  }

  /** `DataIngestionConfig(training_pipeline_config)`. */
  function NewDataIngestionConfig(pipeline: TrainingPipelineConfig): (c: DataIngestionConfig)
    ensures c.rawDataPath == "data/raw/transactions.csv"
    ensures pipeline.artifactDir <= c.dataIngestionDir
    ensures c.dataIngestionDir <= c.trainFilePath && c.dataIngestionDir <= c.testFilePath
    ensures c.trainFilePath == c.dataIngestionDir + "/train.csv"
    ensures c.testFilePath == c.dataIngestionDir + "/test.csv"
    ensures pipeline.artifactDir != "" && pipeline.artifactDir[|pipeline.artifactDir| - 1] != '/' ==>
      c.dataIngestionDir == pipeline.artifactDir + "/data_ingestion"
    ensures c.trainFilePath != c.testFilePath
  {
    var dir := Join(pipeline.artifactDir, DataIngestionDirName);
    IngestionDirOf(pipeline.artifactDir);
    SplitFilesOf(dir);
    RawDataPathIs();
    DataIngestionConfig(
      dir,
      Join(DataIngestionRawDir, DataIngestionRawFileName),
      Join(dir, DataIngestionTrainFileName),
      Join(dir, DataIngestionTestFileName))
  }

  /**
   * With a relative timestamp that neither is empty nor ends in a
   * separator, every ingestion output path lies inside the directory
   * `artifacts/<timestamp>/`, and the raw input path does not depend on it.
   */
  lemma IngestionPathsUnderRun(timestamp: Option<string>, now: string)
    requires var ts := if timestamp.Some? then timestamp.value else now;
      ts != "" && !IsAbsolute(ts) && ts[|ts| - 1] != '/'
    ensures var p := NewTrainingPipelineConfig(timestamp, now);
      var c := NewDataIngestionConfig(p);
      && c.dataIngestionDir == "artifacts/" + p.timestamp + "/data_ingestion"
      && "artifacts/" + p.timestamp + "/" <= c.trainFilePath
      && "artifacts/" + p.timestamp + "/" <= c.testFilePath
      && c.rawDataPath == NewDataIngestionConfig(NewTrainingPipelineConfig(None, "")).rawDataPath
  {
  }

  /** An absolute timestamp escapes the artifact root: `join` keeps only the timestamp. */
  lemma AbsoluteTimestampEscapesRoot(stamp: string, now: string)
    requires IsAbsolute(stamp)
    ensures NewTrainingPipelineConfig(Some(stamp), now).artifactDir == stamp
  {
  }

  // Stage configurations whose definitions are not part of this model:
  // only the fields that their stages read are declared.

  datatype DataValidationConfig = DataValidationConfig(
    driftReportFilePath: string,
    validTrainFilePath: string,
    validTestFilePath: string,
    invalidTrainFilePath: string,
    invalidTestFilePath: string)

  datatype DataTransformationConfig = DataTransformationConfig(
    dataTransformationDir: string,
    transformedTrainPath: string,
    transformedTestPath: string,
    preprocessingObjectPath: string)

  datatype ModelTrainerConfig = ModelTrainerConfig(
    modelTrainerDir: string,
    trainedModelPath: string,
    metricsFilePath: string)

  datatype ModelEvaluationConfig = ModelEvaluationConfig(
    modelEvaluationDir: string,
    evaluationReportPath: string)
}
