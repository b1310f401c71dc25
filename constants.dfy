/** The fixed values of the training pipeline's constant module. */
module TrainingPipelineConstants {

  const ArtifactsDir: string := "artifacts"

  const DataIngestionDirName: string := "data_ingestion"
  const DataIngestionFeatureStoreDir: string := "feature_store"

  /** The names the feature store must hold, in the order they are checked. */
  const DataValidationAllRequiredFiles: seq<string> := ["train", "valid", "test", "data.yaml"]

  const ModelTrainerPretrainedWeightName: string := "weights/yolo26n.pt"
  const ModelTrainerNoEpochs: int := 1
  const ModelTrainerBatchSize: int := 16
}
