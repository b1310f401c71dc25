/** Failure-carrying results shared by the pipeline stages. Every stage of the
    pipeline wraps a failure into one application exception; here a failure is
    a value that says which step refused, without the message text. */
module Outcomes {

  datatype Option<+T> = None | Some(value: T)

  /** Why a stage gave up. */
  datatype Error =
    | FeatureStoreUnreadable        // listing the feature store raised
    | ValidationFailed              // the trainer was handed a false validation status
    | ManifestUnreadable            // the dataset manifest could not be opened or parsed
    | ManifestFieldMissing(key: string)  // the dataset manifest has no such field
    | ModelLoadFailed               // the detection library could not load the weights
    | TrainingFailed                // the detection library's training call raised
    | CheckpointMissing             // the best checkpoint was not where training leaves it

  datatype Result<+T> = Success(value: T) | Failure(error: Error)
}
