/** The values of the pipeline's constants modules, as plain constants. */
module Constants {

  // training pipeline constants
  const TargetColumn: string := "Is Fraudulent"
  const PipelineName: string := "ecommerce_fraud_detection_pipeline"
  const ArtifactDir: string := "artifacts"
  const SavedModelDir: string := "saved_models"

  // data ingestion constants
  const DataDir: string := "data"
  const DataIngestionRawDir: string := DataDir + "/raw"   // os.path.join(DataDir, "raw")
  const DataIngestionRawFileName: string := "transactions.csv"
  const DataIngestionDirName: string := "data_ingestion"
  const DataIngestionTrainFileName: string := "train.csv"
  const DataIngestionTestFileName: string := "test.csv"
}
