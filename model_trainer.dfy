/** The training stage: refuses to run on a failed validation, rewrites the
    dataset manifest with absolute split paths, trains through the detection
    library and copies the best checkpoint to a fixed place. The library, the
    YAML reader and the file system are outside the model; what they answer is
    given as an Environment, and what the stage asks of them is returned as an
    ordered list of effects. */
module ModelTrainer {
  import opened Outcomes
  import opened Paths
  import opened Artifacts
  import TrainingPipelineConstants

  /** A value as the YAML reader returns it. */
  datatype Value =
    | Null
    | Boolean(b: bool)
    | Integer(i: int)
    | Text(s: string)
    | List(items: seq<Value>)
    | Mapping(fields: map<string, Value>)

  /** doc[key]: present only when the document is a mapping holding key. */
  function Field(doc: Value, key: string): Option<Value> {
    if doc.Mapping? && key in doc.fields then Some(doc.fields[key]) else None
  }

  /** The manifest the trainer writes for the detection library. */
  datatype TrainingManifest = TrainingManifest(
    train: AbsolutePath,
    val: AbsolutePath,
    test: AbsolutePath,
    nc: Value,
    names: Value)

  /** The manifest's entries in the order they are dumped (insertion order,
      keys not sorted); paths are written as text. */
  function Entries(m: TrainingManifest): seq<(string, Value)> {
    [ ("train", Text(Render(m.train))),
      ("val", Text(Render(m.val))),
      ("test", Text(Render(m.test))),
      ("nc", m.nc),
      ("names", m.names) ]
  }

  function Keys(entries: seq<(string, Value)>): seq<string> {
    seq(|entries|, i requires 0 <= i < |entries| => entries[i].0)
  }

  /** The value a reader of the dumped entries finds under key. */
  function Lookup(entries: seq<(string, Value)>, key: string): Option<Value>
    decreases |entries|
  {
    if entries == [] then None
    else if entries[0].0 == key then Some(entries[0].1)
    else Lookup(entries[1..], key)
  }

  /** The stage as constructed. */
  datatype ModelTrainer = ModelTrainer(
    dataValidationArtifact: DataValidationArtifact,
    modelTrainerConfig: ModelTrainerConfig,
    featureStorePath: Path)

  /** The feature store the stage reads when none is given:
      "artifacts/data_ingestion/feature_store". */
  const DefaultFeatureStorePath: Path := Path(false, [
    TrainingPipelineConstants.ArtifactsDir,
    TrainingPipelineConstants.DataIngestionDirName,
    TrainingPipelineConstants.DataIngestionFeatureStoreDir])

  /** A trainer configuration holding the pipeline's default weights, epoch
      count and batch size, in the given directory. */
  function DefaultTrainerConfig(modelTrainerDir: Path): (config: ModelTrainerConfig)
    ensures config.modelTrainerDir == modelTrainerDir
    ensures config.weightName == "weights/yolo26n.pt" && config.noEpochs == 1 && config.batchSize == 16
  {
    ModelTrainerConfig(
      modelTrainerDir,
      TrainingPipelineConstants.ModelTrainerPretrainedWeightName,
      TrainingPipelineConstants.ModelTrainerNoEpochs,
      TrainingPipelineConstants.ModelTrainerBatchSize)
  }

  const DatasetYamlName: Component := "data.yaml"
  const CustomYamlName: Component := "custom_data.yaml"
  const RunName: Component := "yolo26-solarpanel"
  const CheckpointName: Component := "best.pt"
  const ImageSize: int := 640

  /** `<feature store>/data.yaml`. */
  function DatasetYamlPath(trainer: ModelTrainer): (r: Path)
    ensures r.absolute == trainer.featureStorePath.absolute
    ensures r.parts == trainer.featureStorePath.parts + ["data.yaml"]
  {
    Join(trainer.featureStorePath, DatasetYamlName)
  }

  /** `<model_trainer_dir>/custom_data.yaml`. */
  function CustomYamlPath(config: ModelTrainerConfig): (r: Path)
    ensures r.absolute == config.modelTrainerDir.absolute
    ensures r.parts == config.modelTrainerDir.parts + ["custom_data.yaml"]
  {
    Join(config.modelTrainerDir, CustomYamlName)
  }

  /** Where the detection library leaves the best weights of the run. */
  function CheckpointSource(config: ModelTrainerConfig): (r: Path)
    ensures r.absolute == config.modelTrainerDir.absolute
    ensures r.parts == config.modelTrainerDir.parts + ["yolo26-solarpanel", "weights", "best.pt"]
  {
    Join(Join(Join(config.modelTrainerDir, RunName), "weights"), CheckpointName)
  }

  /** The flat place the stage copies them to. */
  function CheckpointDestination(config: ModelTrainerConfig): (r: Path)
    ensures r.absolute == config.modelTrainerDir.absolute
    ensures r.parts == config.modelTrainerDir.parts + ["best.pt"]
  {
    Join(config.modelTrainerDir, CheckpointName)
  }

  /** The absolute images directory of one split of the feature store. */
  function SplitImages(cwd: AbsolutePath, featureStore: Path, split: Component): AbsolutePath
    requires split != ""
  {
    Abs(cwd, Join(Join(featureStore, split), "images"))
  }

  /** Builds the training manifest from the parsed dataset manifest: the three
      split paths are made absolute and nc and names are carried over. */
  function DeriveManifest(doc: Value, featureStore: Path, cwd: AbsolutePath): (r: Result<TrainingManifest>)
    ensures r.Success? <==> Field(doc, "nc").Some? && Field(doc, "names").Some?
    ensures r.Failure? ==> r.error == ManifestFieldMissing(if Field(doc, "nc").None? then "nc" else "names")
    ensures r.Success? ==> r.value.nc == Field(doc, "nc").value && r.value.names == Field(doc, "names").value
  {
    var numClasses := Field(doc, "nc");
    var classNames := Field(doc, "names");
    if numClasses.None? then Failure(ManifestFieldMissing("nc"))
    else if classNames.None? then Failure(ManifestFieldMissing("names"))
    else
      Success(TrainingManifest(
        train := SplitImages(cwd, featureStore, "train"),
        val := SplitImages(cwd, featureStore, "valid"),
        test := SplitImages(cwd, featureStore, "test"),
        nc := numClasses.value,
        names := classNames.value))
  }

  /** A split's images directory lies under the absolute feature store. */
  lemma SplitUnderBase(cwd: AbsolutePath, featureStore: Path, split: Component)
    requires PlainName(split)
    ensures SplitImages(cwd, featureStore, split) == Join(Join(Abs(cwd, featureStore), split), "images")
  {
    AbsJoin(cwd, featureStore, split);
    AbsJoin(cwd, Join(featureStore, split), "images");
  }

  /** Every derived split path is the absolute feature store joined with the split and "images". */
  lemma DerivedSplitsUnderStore(doc: Value, featureStore: Path, cwd: AbsolutePath)
    requires DeriveManifest(doc, featureStore, cwd).Success?
    ensures var m := DeriveManifest(doc, featureStore, cwd).value;
      var base := Abs(cwd, featureStore);
      && m.train == Join(Join(base, "train"), "images")
      && m.val == Join(Join(base, "valid"), "images")
      && m.test == Join(Join(base, "test"), "images")
  {
    SplitUnderBase(cwd, featureStore, "train");
    SplitUnderBase(cwd, featureStore, "valid");
    SplitUnderBase(cwd, featureStore, "test");
  }

  // ---------------------------------------------------------------------------
  // Effects

  datatype TrainArgs = TrainArgs(
    data: Path,
    epochs: int,
    imgsz: int,
    batch: int,
    project: Path,
    name: string)

  /** What the stage asks of the world, in the order it asks. */
  datatype Effect =
    | ReadDatasetManifest(path: Path)
    | MakeDirs(path: Path)
    | WriteManifest(path: Path, entries: seq<(string, Value)>)
    | LoadModel(weights: string)
    | Train(args: TrainArgs)
    | CopyFile(source: Path, destination: Path)

  /** What the world answers. */
  datatype Environment = Environment(
    cwd: AbsolutePath,                 // the process's working directory
    datasetManifest: Option<Value>,    // data.yaml as parsed; None if opening or parsing raised
    modelLoads: bool,                  // loading the pretrained weights succeeds
    trainingSucceeds: bool,            // the training call returns
    checkpointPresent: bool)           // the run left its best weights behind

  /** The dataset manifest is readable and has both fields. */
  predicate ManifestDerivable(trainer: ModelTrainer, env: Environment) {
    && env.datasetManifest.Some?
    && DeriveManifest(env.datasetManifest.value, trainer.featureStorePath, env.cwd).Success?
  }

  function DerivedManifest(trainer: ModelTrainer, env: Environment): TrainingManifest
    requires ManifestDerivable(trainer, env)
  {
    DeriveManifest(env.datasetManifest.value, trainer.featureStorePath, env.cwd).value
  }

  /** What preparing the manifest asks for when the manifest can be derived. */
  function PreparationEffects(trainer: ModelTrainer, m: TrainingManifest): seq<Effect> {
    var config := trainer.modelTrainerConfig;
    [ ReadDatasetManifest(DatasetYamlPath(trainer)),
      MakeDirs(config.modelTrainerDir),
      WriteManifest(CustomYamlPath(config), Entries(m)) ]
  }

  /** Reads data.yaml, derives the training manifest and writes it as
      custom_data.yaml in the trainer's directory, returning that path. */
  method PrepareCustomYaml(trainer: ModelTrainer, env: Environment)
    returns (result: Result<Path>, effects: seq<Effect>)
    ensures |effects| >= 1 && effects[0] == ReadDatasetManifest(DatasetYamlPath(trainer))
    ensures result.Success? <==> ManifestDerivable(trainer, env)
    ensures env.datasetManifest.None? ==> result == Failure(ManifestUnreadable) && |effects| == 1
    ensures env.datasetManifest.Some? && !ManifestDerivable(trainer, env) ==>
      && result == Failure(DeriveManifest(env.datasetManifest.value, trainer.featureStorePath, env.cwd).error)
      && |effects| == 1
    ensures ManifestDerivable(trainer, env) ==>
      && result == Success(CustomYamlPath(trainer.modelTrainerConfig))
      && effects == PreparationEffects(trainer, DerivedManifest(trainer, env))
  {
    effects := [ReadDatasetManifest(DatasetYamlPath(trainer))];
    if env.datasetManifest.None? {
      return Failure(ManifestUnreadable), effects;
    }
    var derived := DeriveManifest(env.datasetManifest.value, trainer.featureStorePath, env.cwd);
    if derived.Failure? {
      return Failure(derived.error), effects;
    }
    var dir := trainer.modelTrainerConfig.modelTrainerDir;
    effects := effects + [MakeDirs(dir)];
    var customYamlPath := CustomYamlPath(trainer.modelTrainerConfig);
    effects := effects + [WriteManifest(customYamlPath, Entries(derived.value))];
    result := Success(customYamlPath);
  }

  /** Every training call reads a manifest written earlier in the run. */
  ghost predicate TrainsOnWrittenManifest(effects: seq<Effect>) {
    forall i :: 0 <= i < |effects| && effects[i].Train? ==>
      exists j :: 0 <= j < i && effects[j].WriteManifest? && effects[j].path == effects[i].args.data
  }

  /** Every copy comes after a training call. */
  ghost predicate CopiesAfterTraining(effects: seq<Effect>) {
    forall i :: 0 <= i < |effects| && effects[i].CopyFile? ==>
      exists j :: 0 <= j < i && effects[j].Train?
  }

  /** The run of a stage whose manifest could be derived, up to the first
      call that fails: load the weights, train, copy the best checkpoint. */
  function TrainingEffects(trainer: ModelTrainer, m: TrainingManifest, env: Environment): seq<Effect> {
    var config := trainer.modelTrainerConfig;
    var loaded := PreparationEffects(trainer, m) + [LoadModel(config.weightName)];
    if !env.modelLoads then loaded
    else
      var trained := loaded + [Train(TrainArgs(CustomYamlPath(config), config.noEpochs, ImageSize,
                                               config.batchSize, config.modelTrainerDir, RunName))];
      if !env.trainingSucceeds then trained
      else trained + [CopyFile(CheckpointSource(config), CheckpointDestination(config))]
  }

  /** Such a run trains only on the manifest it wrote, and copies only after
      training. */
  lemma TrainingEffectsOrdered(trainer: ModelTrainer, m: TrainingManifest, env: Environment)
    ensures TrainsOnWrittenManifest(TrainingEffects(trainer, m, env))
    ensures CopiesAfterTraining(TrainingEffects(trainer, m, env))
  {
    var s := TrainingEffects(trainer, m, env);
    assert s[..3] == PreparationEffects(trainer, m);
    assert s[3].LoadModel?;
    forall i | 0 <= i < |s| && s[i].Train?
      ensures exists j :: 0 <= j < i && s[j].WriteManifest? && s[j].path == s[i].args.data
    {
      assert i == 4;
      assert s[2].WriteManifest? && s[2].path == s[i].args.data;
    }
    forall i | 0 <= i < |s| && s[i].CopyFile?
      ensures exists j :: 0 <= j < i && s[j].Train?
    {
      assert i == 5;
      assert s[4].Train?;
    }
  }

  /** Everything the stage asks of the world: nothing when validation
      failed, only the read of data.yaml when no manifest could be derived
      from it, and the whole run otherwise. */
  function StageEffects(trainer: ModelTrainer, env: Environment): seq<Effect> {
    if !trainer.dataValidationArtifact.validationStatus then []
    else if !ManifestDerivable(trainer, env) then [ReadDatasetManifest(DatasetYamlPath(trainer))]
    else TrainingEffects(trainer, DerivedManifest(trainer, env), env)
  }

  /** What the stage returns: the first failure, or the copied checkpoint. */
  function StageResult(trainer: ModelTrainer, env: Environment): Result<ModelTrainerArtifact> {
    if !trainer.dataValidationArtifact.validationStatus then Failure(ValidationFailed)
    else if env.datasetManifest.None? then Failure(ManifestUnreadable)
    else if !ManifestDerivable(trainer, env) then
      Failure(DeriveManifest(env.datasetManifest.value, trainer.featureStorePath, env.cwd).error)
    else if !env.modelLoads then Failure(ModelLoadFailed)
    else if !env.trainingSucceeds then Failure(TrainingFailed)
    else if !env.checkpointPresent then Failure(CheckpointMissing)
    else Success(ModelTrainerArtifact(CheckpointDestination(trainer.modelTrainerConfig)))
  }

  /** Runs the stage: the validation gate, the manifest, loading the
      pretrained weights, training, and copying the best checkpoint. */
  method InitiateModelTrainer(trainer: ModelTrainer, env: Environment)
    returns (result: Result<ModelTrainerArtifact>, effects: seq<Effect>)
    ensures !trainer.dataValidationArtifact.validationStatus ==> result == Failure(ValidationFailed) && effects == []
    ensures effects == StageEffects(trainer, env)
    ensures result == StageResult(trainer, env)
  {
    if !trainer.dataValidationArtifact.validationStatus {
      return Failure(ValidationFailed), [];
    }
    var prepared;
    prepared, effects := PrepareCustomYaml(trainer, env);
    if prepared.Failure? {
      return Failure(prepared.error), effects;
    }
    var customYamlPath := prepared.value;
    var config := trainer.modelTrainerConfig;

    effects := effects + [LoadModel(config.weightName)];
    if !env.modelLoads {
      return Failure(ModelLoadFailed), effects;
    }

    effects := effects + [Train(TrainArgs(
      data := customYamlPath,
      epochs := config.noEpochs,
      imgsz := ImageSize,
      batch := config.batchSize,
      project := config.modelTrainerDir,
      name := RunName))];
    if !env.trainingSucceeds {
      return Failure(TrainingFailed), effects;
    }

    var trainedModelSource := CheckpointSource(config);
    var trainedModelDest := CheckpointDestination(config);
    effects := effects + [CopyFile(trainedModelSource, trainedModelDest)];
    if !env.checkpointPresent {
      return Failure(CheckpointMissing), effects;
    }
    result := Success(ModelTrainerArtifact(trainedModelFilePath := trainedModelDest));
  }

  /** The validation gate: the stage touches nothing exactly when validation
      failed, and then it fails. */
  lemma {:induction false} ValidationGate(trainer: ModelTrainer, env: Environment)
    ensures StageEffects(trainer, env) == [] <==> !trainer.dataValidationArtifact.validationStatus
    ensures !trainer.dataValidationArtifact.validationStatus ==> StageResult(trainer, env) == Failure(ValidationFailed)
  {
    if trainer.dataValidationArtifact.validationStatus && ManifestDerivable(trainer, env) {
      assert |TrainingEffects(trainer, DerivedManifest(trainer, env), env)| >= 4;
    }
  }

  /** The stage succeeds exactly when validation passed, the manifest could
      be derived, and loading, training and the checkpoint all worked; it then
      names the copied checkpoint, after trying exactly the six steps. */
  lemma StageSuccess(trainer: ModelTrainer, env: Environment)
    ensures StageResult(trainer, env).Success? <==>
      && trainer.dataValidationArtifact.validationStatus
      && ManifestDerivable(trainer, env)
      && env.modelLoads && env.trainingSucceeds && env.checkpointPresent
    ensures StageResult(trainer, env).Success? ==>
      && StageResult(trainer, env).value.trainedModelFilePath == CheckpointDestination(trainer.modelTrainerConfig)
      && |StageEffects(trainer, env)| == 6
      && StageEffects(trainer, env)[5]
           == CopyFile(CheckpointSource(trainer.modelTrainerConfig), CheckpointDestination(trainer.modelTrainerConfig))
  {
  }

  /** Once the weights load, the fourth effect loads the configured weights
      and the fifth trains on the written custom_data.yaml with the configured
      epochs and batch size, image size 640, the trainer's directory as
      project and the run name yolo26-solarpanel. */
  lemma TrainingCall(trainer: ModelTrainer, env: Environment)
    requires trainer.dataValidationArtifact.validationStatus && ManifestDerivable(trainer, env)
    requires env.modelLoads
    ensures var c := trainer.modelTrainerConfig;
      && |StageEffects(trainer, env)| >= 5
      && StageEffects(trainer, env)[2] == WriteManifest(CustomYamlPath(c), Entries(DerivedManifest(trainer, env)))
      && StageEffects(trainer, env)[3] == LoadModel(c.weightName)
      && StageEffects(trainer, env)[4]
           == Train(TrainArgs(CustomYamlPath(c), c.noEpochs, 640, c.batchSize, c.modelTrainerDir, "yolo26-solarpanel"))
  {
  }

  /** A trainer built with the default feature store and the default
      configuration reads artifacts/data_ingestion/feature_store/data.yaml,
      loads weights/yolo26n.pt, and trains for 1 epoch in batches of 16. */
  lemma DefaultTrainerRun(modelTrainerDir: Path, env: Environment)
    requires var trainer := ModelTrainer(DataValidationArtifact(true), DefaultTrainerConfig(modelTrainerDir), DefaultFeatureStorePath);
      ManifestDerivable(trainer, env) && env.modelLoads
    ensures var trainer := ModelTrainer(DataValidationArtifact(true), DefaultTrainerConfig(modelTrainerDir), DefaultFeatureStorePath);
      var effects := StageEffects(trainer, env);
      && |effects| >= 5
      && effects[0] == ReadDatasetManifest(Path(false, ["artifacts", "data_ingestion", "feature_store", "data.yaml"]))
      && effects[3] == LoadModel("weights/yolo26n.pt")
      && effects[4].Train? && effects[4].args.epochs == 1 && effects[4].args.batch == 16
      && effects[4].args.data == Join(modelTrainerDir, "custom_data.yaml")
  {
    var trainer := ModelTrainer(DataValidationArtifact(true), DefaultTrainerConfig(modelTrainerDir), DefaultFeatureStorePath);
    TrainingCall(trainer, env);
  }

  /** A manifest that cannot be derived stops the stage right after reading
      data.yaml, with the reason. */
  lemma ManifestFailureStopsEarly(trainer: ModelTrainer, env: Environment)
    requires trainer.dataValidationArtifact.validationStatus && !ManifestDerivable(trainer, env)
    ensures StageEffects(trainer, env) == [ReadDatasetManifest(DatasetYamlPath(trainer))]
    ensures StageResult(trainer, env) == Failure(ManifestUnreadable)
         || StageResult(trainer, env) == Failure(ManifestFieldMissing("nc"))
         || StageResult(trainer, env) == Failure(ManifestFieldMissing("names"))
  {
  }

  /** Whatever the world answers, the stage trains only on a manifest it has
      written before, and copies only after training. */
  lemma StageEffectsOrdered(trainer: ModelTrainer, env: Environment)
    ensures TrainsOnWrittenManifest(StageEffects(trainer, env))
    ensures CopiesAfterTraining(StageEffects(trainer, env))
  {
    if trainer.dataValidationArtifact.validationStatus && ManifestDerivable(trainer, env) {
      TrainingEffectsOrdered(trainer, DerivedManifest(trainer, env), env);
    }
  }

  // ---------------------------------------------------------------------------
  // What the written manifest holds

  /** The dumped manifest has exactly the keys train, val, test, nc and names
      in that order, and a reader finds each field under its key. */
  lemma EntriesInDumpOrder(m: TrainingManifest)
    ensures Keys(Entries(m)) == ["train", "val", "test", "nc", "names"]
    ensures Lookup(Entries(m), "train") == Some(Text(Render(m.train)))
    ensures Lookup(Entries(m), "val") == Some(Text(Render(m.val)))
    ensures Lookup(Entries(m), "test") == Some(Text(Render(m.test)))
    ensures Lookup(Entries(m), "nc") == Some(m.nc)
    ensures Lookup(Entries(m), "names") == Some(m.names)
  {
    var e0 := Entries(m);
    var e1 := [("val", Text(Render(m.val))), ("test", Text(Render(m.test))), ("nc", m.nc), ("names", m.names)];
    var e2 := [("test", Text(Render(m.test))), ("nc", m.nc), ("names", m.names)];
    var e3 := [("nc", m.nc), ("names", m.names)];
    var e4 := [("names", m.names)];
    assert e0[1..] == e1 && e1[1..] == e2 && e2[1..] == e3 && e3[1..] == e4 && e4[1..] == [];
    assert Lookup(e4, "names") == Some(m.names);
    assert Lookup(e3, "names") == Some(m.names) && Lookup(e3, "nc") == Some(m.nc);
    assert Lookup(e2, "names") == Some(m.names) && Lookup(e2, "nc") == Some(m.nc);
    assert Lookup(e1, "names") == Some(m.names) && Lookup(e1, "nc") == Some(m.nc);
    assert Lookup(e1, "test") == Lookup(e2, "test");
  }

  /** The images directory of a split under a clean absolute directory is
      itself clean. */
  lemma ImagesDirClean(base: Path, split: Component)
    requires Clean(base.parts) && PlainName(split)
    ensures Clean(Join(Join(base, split), "images").parts)
  {
    assert Join(Join(base, split), "images").parts == base.parts + [split, "images"];
  }

  /** A clean absolute path reads back from its text unchanged. */
  lemma CleanReadsBack(p: AbsolutePath)
    requires Clean(p.parts)
    ensures Parse(Render(p)) == p
  {
    ParseRender(p);
  }

  /** In the manifest written for a source manifest, nc and names are the
      source's own values, and each path is written as text that reads back as
      the derived path; by DerivedSplitsUnderStore that is the absolute images
      directory of its split under the absolute feature store. */
  lemma DumpedManifestContents(doc: Value, featureStore: Path, cwd: AbsolutePath)
    requires DeriveManifest(doc, featureStore, cwd).Success?
    ensures var m := DeriveManifest(doc, featureStore, cwd).value;
      var entries := Entries(m);
      && Lookup(entries, "nc") == Field(doc, "nc")
      && Lookup(entries, "names") == Field(doc, "names")
      && Lookup(entries, "train") == Some(Text(Render(m.train))) && Parse(Render(m.train)) == m.train
      && Lookup(entries, "val") == Some(Text(Render(m.val))) && Parse(Render(m.val)) == m.val
      && Lookup(entries, "test") == Some(Text(Render(m.test))) && Parse(Render(m.test)) == m.test
  {
    var m := DeriveManifest(doc, featureStore, cwd).value;
    var base := Abs(cwd, featureStore);
    EntriesInDumpOrder(m);
    DerivedSplitsUnderStore(doc, featureStore, cwd);
    AbsIsCanonical(cwd, featureStore);
    ImagesDirClean(base, "train");
    ImagesDirClean(base, "valid");
    ImagesDirClean(base, "test");
    CleanReadsBack(m.train);
    CleanReadsBack(m.val);
    CleanReadsBack(m.test);
  }
}
