/** The records the pipeline stages are configured with and hand to each
    other. They carry values only. */
module Artifacts {
  import opened Paths

  datatype DataIngestionArtifact = DataIngestionArtifact(dataDownloadPath: Path, featureStorePath: Path)

  datatype DataValidationConfig = DataValidationConfig(
    dataValidationDir: Path,
    validStatusFileDir: Path,      // the status file itself, despite the name
    requiredFileList: seq<string>)

  datatype DataValidationArtifact = DataValidationArtifact(validationStatus: bool)

  datatype ModelTrainerConfig = ModelTrainerConfig(
    modelTrainerDir: Path,
    weightName: string,
    noEpochs: int,
    batchSize: int)

  datatype ModelTrainerArtifact = ModelTrainerArtifact(trainedModelFilePath: Path)
}
