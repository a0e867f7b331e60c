/** The records each stage returns to the next. */
module ArtifactEntity {
  import opened Outcomes

  datatype DataIngestionArtifact = DataIngestionArtifact(
    artifactDir: string,
    trainFilePath: string,
    testFilePath: string)

  datatype DataValidationArtifact = DataValidationArtifact(
    validationStatus: bool,
    validTrainFilePath: Option<string>,
    validTestFilePath: Option<string>,
    invalidTrainFilePath: Option<string>,
    invalidTestFilePath: Option<string>,
    driftReportFilePath: string)

  /** The valid pair is filled exactly when the status holds, the invalid pair exactly when it fails. */
  predicate PairsExclusive(a: DataValidationArtifact) {
    && (a.validTrainFilePath.Some? <==> a.validationStatus)
    && (a.validTestFilePath.Some? <==> a.validationStatus)
    && (a.invalidTrainFilePath.Some? <==> !a.validationStatus)
    && (a.invalidTestFilePath.Some? <==> !a.validationStatus)
  }

  datatype DataTransformationArtifact = DataTransformationArtifact(
    transformedTrainPath: string,
    transformedTestPath: string,
    preprocessingObjectPath: string)

  datatype ModelTrainerArtifact = ModelTrainerArtifact(
    trainedModelPath: string,
    bestModelName: string,
    bestModelScore: real)

  datatype ModelEvaluationArtifact = ModelEvaluationArtifact(
    isModelAccepted: bool,
    evaluatedMetric: real,
    evaluationReportPath: string)
}
