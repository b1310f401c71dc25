# Solar-panel anomaly detection: validation and training stages

This project is a Dafny model of the two decision-making stages of the
solar-panel anomaly detection training pipeline, with proofs about them.

- **Data validation** (`DataValidation`). The stage lists the feature store
  and checks that every required name (by default `train`, `valid`, `test`
  and `data.yaml`) is an immediate child of it. It writes a status file: the
  verdict, then the missing names if there are any. It returns the verdict
  inside a `DataValidationArtifact`.
- **Model training** (`ModelTrainer`). The stage has these steps:
  - It refuses to run when validation failed.
  - It reads the dataset's `data.yaml`.
  - It writes `custom_data.yaml` in its directory. That manifest holds the
    absolute `train`/`valid`/`test` image directories and the source's `nc`
    and `names`.
  - It loads the pretrained weights and trains.
  - It copies `yolo26-solarpanel/weights/best.pt` to `best.pt` in its
    directory, and returns that destination.

The model does no I/O. These answers are inputs:
- what the file system lists;
- what the YAML reader returns;
- whether loading, training and the checkpoint copy succeed;
- the working directory.

The stages return what they would write or ask for. The validation stage
returns the status file as a path and a list of lines. The training stage
returns an ordered list of effects. Python's `os.path.join`,
`os.path.normpath`/`abspath`, the `str()` of a bool, the `repr()` of a str (as
`str()` of a list writes its items) and the `str()` of a list of str are
modelled exactly enough for the written text to be read back and proved equal
to what was meant.

Modules:
- `Outcomes`: `Option`, `Result`, and the stage errors.
- `TrainingPipelineConstants`: the pipeline constants.
- `Paths`: POSIX paths.
- `PyText`: Python's text forms, and readers for them.
- `Artifacts`: the config and artifact records.
- `DataValidation`: the validation stage.
- `ModelTrainer`: the training stage.

Where the code and its description differ, the model follows the code. The
status line holds Python's `str(bool)`, so it reads `Validation status: True`
or `Validation status: False`, capitalised. It is not `true`/`false`.

## Model

| member | source | states |
|---|---|---|
| DataValidation.ValidateAllFilesExist | ThermalSolarAnamolyDetection/components/data_validation.py:22-50 | an unreadable feature store fails with nothing written; otherwise the verdict is "every required name is in the listing" and the status file at the configured path holds the report of that verdict and of the missing names in required order |
| DataValidation.InitiateDataValidation | ThermalSolarAnamolyDetection/components/data_validation.py:52-64 | succeeds exactly when the listing could be read, also on a false verdict; the artifact carries the verdict unchanged, and the status file is the one the check writes |
| DataValidation.Missing | ThermalSolarAnamolyDetection/components/data_validation.py:30-34 | the reference missing list, built in required order: never longer than the required list, and no name in it occurs in the listing (membership both ways in MissingMembers) |
| DataValidation.AllPresent | ThermalSolarAnamolyDetection/components/data_validation.py:24-34 | the reference verdict: every required name occurs in the listing; the loop is proved against it |
| DataValidation.StatusReport | ThermalSolarAnamolyDetection/components/data_validation.py:37-40 | the status file's lines: one or two, with a second exactly when some name is missing (read back by ReadReportRoundTrip) |
| DataValidation.PrefixStep | ThermalSolarAnamolyDetection/components/data_validation.py:31-34 | one more loop iteration appends the name to the missing list exactly when it is absent, and clears the verdict exactly when it is absent |
| DataValidation.MissingAppend | ThermalSolarAnamolyDetection/components/data_validation.py:30-34 | the missing names of two concatenated required lists are those of the first followed by those of the second, so required order is kept |
| DataValidation.MissingMembers | ThermalSolarAnamolyDetection/components/data_validation.py:30-34 | a name is in the missing list exactly when it is required and not in the listing |
| DataValidation.MissingEmptyIffAllPresent | ThermalSolarAnamolyDetection/components/data_validation.py:24-34 | the missing list is empty exactly when the verdict is true |
| DataValidation.MissingOnlyMembership | ThermalSolarAnamolyDetection/components/data_validation.py:25-34 | two listings that agree on which required names they hold give the same verdict and the same missing list |
| DataValidation.ExtraNamesIgnored | ThermalSolarAnamolyDetection/components/data_validation.py:25-34 | adding names that are not required to the listing changes neither the verdict nor the missing list |
| DataValidation.ReadReportRoundTrip | ThermalSolarAnamolyDetection/components/data_validation.py:37-40 | the status file's lines read back as exactly the verdict and the missing list they were written from |
| DataValidation.ReportMatchesVerdict | ThermalSolarAnamolyDetection/components/data_validation.py:37-40 | the first line reads `Validation status: True` exactly when every required name is present and `Validation status: False` exactly when one is missing; the file has a second line exactly when a name is missing, and one line otherwise |
| DataValidation.DefaultStoreLackingManifest | ThermalSolarAnamolyDetection/constant/training_pipeline/__init__.py:15 | with the default required list, a listing holding train, valid and test but not data.yaml gives a false verdict and the missing list `["data.yaml"]` |
| DataValidation.DefaultStoreLackingManifestReport | ThermalSolarAnamolyDetection/components/data_validation.py:31-40 | with the default required list, a store holding train, valid and test but not data.yaml gets exactly the lines `Validation status: False` and `Missing files: ['data.yaml']` |
| DataValidation.DataYamlReport | ThermalSolarAnamolyDetection/components/data_validation.py:38-40 | the status file for a false verdict with data.yaml alone missing is exactly `Validation status: False` and `Missing files: ['data.yaml']` |
| DataValidation.SingleMissingReport | ThermalSolarAnamolyDetection/components/data_validation.py:38-40 | when one plainly named entry such as data.yaml is the only one missing, the file is exactly `Validation status: False` and `Missing files: ['<name>']` |
| PyText.BoolRepr | ThermalSolarAnamolyDetection/components/data_validation.py:38 | `str()` of a bool is `True` exactly for true and `False` exactly for false |
| PyText.StrRepr | ThermalSolarAnamolyDetection/components/data_validation.py:40 | `repr()` of a str opens and closes with the same quote, single or double, chosen from the str's own quotes (read back by ReadStrRepr) |
| PyText.ListRepr | ThermalSolarAnamolyDetection/components/data_validation.py:40 | `str()` of a list of str is bracketed by `[` and `]` (read back by ReadListRepr) |
| PyText.BoolReprInjective | ThermalSolarAnamolyDetection/components/data_validation.py:38 | the text of two booleans is equal exactly when the booleans are |
| PyText.HexRoundTrip | ThermalSolarAnamolyDetection/components/data_validation.py:40 | a character escaped as `\xhh` is recovered from its two hex digits |
| PyText.ReadBodyStep | ThermalSolarAnamolyDetection/components/data_validation.py:40 | reading one escaped character of a str's text yields that character and continues on the rest |
| PyText.ReadBodyEscaped | ThermalSolarAnamolyDetection/components/data_validation.py:40 | the escaped body of a str followed by its closing quote reads back as the str, leaving the remaining text |
| PyText.EscapeAllVerbatim | ThermalSolarAnamolyDetection/components/data_validation.py:40 | a str of characters that need no escape is written unchanged |
| PyText.StrReprVerbatim | ThermalSolarAnamolyDetection/components/data_validation.py:40 | a str of letters, digits, `.`, `_` and `-` is written as itself between single quotes |
| PyText.ListReprSingleVerbatim | ThermalSolarAnamolyDetection/components/data_validation.py:40 | a one-element list of such a str is written `['<str>']` |
| PyText.ReadStrRepr | ThermalSolarAnamolyDetection/components/data_validation.py:40 | the text of any str, followed by anything, reads back as that str and the remaining text |
| PyText.ReadLastItem | ThermalSolarAnamolyDetection/components/data_validation.py:40 | the text of a last list item followed by `]` reads back as that one item |
| PyText.ReadNextItem | ThermalSolarAnamolyDetection/components/data_validation.py:40 | the text of an item followed by `, ` reads back as that item ahead of whatever the rest reads as |
| PyText.ReadItemsJoined | ThermalSolarAnamolyDetection/components/data_validation.py:40 | the comma-joined texts of a non-empty list of str, closed by `]`, read back as that list |
| PyText.JoinReprsOpensWithQuote | ThermalSolarAnamolyDetection/components/data_validation.py:40 | the items text of a non-empty list starts with the first item's quote character |
| PyText.ReadListRepr | ThermalSolarAnamolyDetection/components/data_validation.py:40 | the text of any list of str reads back as that list |
| Paths.Join | ThermalSolarAnamolyDetection/components/model_trainer.py:43-45 | joining a name keeps whether the path is absolute and adds exactly one component |
| Paths.Normalize | ThermalSolarAnamolyDetection/components/model_trainer.py:43-45 | normalising keeps whether the path is absolute |
| Paths.NormStep | ThermalSolarAnamolyDetection/components/model_trainer.py:43-45 | one step of normpath either keeps the new component after the prefix or leaves a prefix of what was kept |
| Paths.NormParts | ThermalSolarAnamolyDetection/components/model_trainer.py:43-45 | normpath's pass over the components never lengthens the path |
| Paths.NormStepAppends | ThermalSolarAnamolyDetection/components/model_trainer.py:43-45 | normpath keeps a non-empty, non-`.` component, and a `..` that follows nothing or another `..` in a relative path |
| Paths.Abs | ThermalSolarAnamolyDetection/components/model_trainer.py:43-45 | `os.path.abspath` against the given working directory gives an absolute path with no empty, `.` or `..` component |
| Paths.Render | ThermalSolarAnamolyDetection/components/model_trainer.py:58 | the text of an absolute path starts with `/`, and the empty relative path is `.` (read back by ParseRender) |
| Paths.NormPartsAbsoluteClean | ThermalSolarAnamolyDetection/components/model_trainer.py:43-45 | an absolute normalised path has no empty, `.` or `..` component |
| Paths.NormPartsRelativeNormal | ThermalSolarAnamolyDetection/components/model_trainer.py:43-45 | a relative normalised path has no empty or `.` component, and any `..` are leading |
| Paths.NormPartsFixed | ThermalSolarAnamolyDetection/components/model_trainer.py:43-45 | normalisation leaves an already normal component list unchanged |
| Paths.NormalizeIdempotent | ThermalSolarAnamolyDetection/components/model_trainer.py:43-45 | normalising twice is normalising once |
| Paths.AbsIsCanonical | ThermalSolarAnamolyDetection/components/model_trainer.py:43-45 | an absolute path made this way is absolute, has no empty, `.` or `..` component, and is its own absolute path |
| Paths.AbsJoin | ThermalSolarAnamolyDetection/components/model_trainer.py:43-45 | making `join(p, name)` absolute for a plain name is joining the name onto the absolute form of p |
| Paths.FirstSlash | ThermalSolarAnamolyDetection/components/model_trainer.py:43-45 | the index found is the first separator, or the length when there is none |
| Paths.FirstSlashAfter | ThermalSolarAnamolyDetection/components/model_trainer.py:43-45 | in `a/b`, where a is one component, the first separator is the one right after a |
| Paths.ComponentsAfter | ThermalSolarAnamolyDetection/components/model_trainer.py:43-45 | splitting `a/rest` gives a followed by the components of rest |
| Paths.ComponentsJoinParts | ThermalSolarAnamolyDetection/components/model_trainer.py:43-45 | splitting the joined text of non-empty components gives back those components |
| Paths.ParseRender | ThermalSolarAnamolyDetection/components/model_trainer.py:43-58 | the written text of a path with no empty component reads back as the same path |
| ModelTrainer.DefaultTrainerConfig | ThermalSolarAnamolyDetection/constant/training_pipeline/__init__.py:21-23 | the default configuration uses weights `weights/yolo26n.pt`, 1 epoch and batch size 16 in the given directory |
| ModelTrainer.DatasetYamlPath | ThermalSolarAnamolyDetection/components/model_trainer.py:33 | the dataset manifest is `<feature store>/data.yaml` |
| ModelTrainer.CustomYamlPath | ThermalSolarAnamolyDetection/components/model_trainer.py:56 | the written manifest is `<model_trainer_dir>/custom_data.yaml` |
| ModelTrainer.CheckpointSource | ThermalSolarAnamolyDetection/components/model_trainer.py:92-95 | the copy source is `<model_trainer_dir>/yolo26-solarpanel/weights/best.pt` |
| ModelTrainer.CheckpointDestination | ThermalSolarAnamolyDetection/components/model_trainer.py:96-98 | the copy destination is `<model_trainer_dir>/best.pt` |
| ModelTrainer.SplitImages | ThermalSolarAnamolyDetection/components/model_trainer.py:43-45 | `abspath(join(store, split, "images"))`; SplitUnderBase states it as a directory under the absolute store |
| ModelTrainer.Entries | ThermalSolarAnamolyDetection/components/model_trainer.py:47-58 | the entries dumped, in insertion order, paths as text; EntriesInDumpOrder states their keys and values |
| ModelTrainer.TrainingEffects | ThermalSolarAnamolyDetection/components/model_trainer.py:72-99 | the effects of a run whose manifest was derived, up to the first failing call: read, makedirs, write, load, train, copy; TrainingEffectsOrdered and TrainingCall state its order and arguments |
| ModelTrainer.StageEffects | ThermalSolarAnamolyDetection/components/model_trainer.py:66-99 | everything the stage asks of the world: nothing on a failed validation, only the read when no manifest can be derived, else the run; ValidationGate, StageSuccess and StageEffectsOrdered state its properties |
| ModelTrainer.StageResult | ThermalSolarAnamolyDetection/components/model_trainer.py:66-111 | the first failure in source order, or the artifact naming the copied checkpoint; StageSuccess states when it succeeds and with what |
| ModelTrainer.Field | ThermalSolarAnamolyDetection/components/model_trainer.py:37-38 | `doc[key]` on the parsed manifest: present only when the document is a mapping holding key, none otherwise (where Python raises) |
| ModelTrainer.DeriveManifest | ThermalSolarAnamolyDetection/components/model_trainer.py:37-53 | derivation succeeds exactly when the parsed manifest has both `nc` and `names`; failing on `nc` first, then on `names`; on success `nc` and `names` are carried over unchanged |
| ModelTrainer.SplitUnderBase | ThermalSolarAnamolyDetection/components/model_trainer.py:43-45 | the absolute form of `<store>/<split>/images` is `<abspath(store)>/<split>/images` |
| ModelTrainer.DerivedSplitsUnderStore | ThermalSolarAnamolyDetection/components/model_trainer.py:43-50 | the derived `train`, `val` and `test` are the `train`, `valid` and `test` images directories under the absolute feature store; key `val` pairs with directory `valid` |
| ModelTrainer.PreparationEffects | ThermalSolarAnamolyDetection/components/model_trainer.py:33-58 | the three effects of a derivable preparation, in source order: read `<store>/data.yaml`, create the trainer's directory, write the derived entries to `<dir>/custom_data.yaml` |
| ModelTrainer.PrepareCustomYaml | ThermalSolarAnamolyDetection/components/model_trainer.py:27-64 | reads `<store>/data.yaml` first; succeeds exactly when the manifest can be derived, with the path `<model_trainer_dir>/custom_data.yaml`; an unreadable file or a missing field stops it after the read with that error; on success it creates the directory and then writes the derived entries to that path |
| ModelTrainer.InitiateModelTrainer | ThermalSolarAnamolyDetection/components/model_trainer.py:66-111 | fails with no effect at all when validation failed; otherwise the effects and the result are those of the stage's run up to its first failure (`StageEffects`, `StageResult`) |
| ModelTrainer.TrainingEffectsOrdered | ThermalSolarAnamolyDetection/components/model_trainer.py:73-99 | in a run past the manifest, every training call uses a manifest path written earlier, and every copy follows a training call |
| ModelTrainer.ValidationGate | ThermalSolarAnamolyDetection/components/model_trainer.py:69-70 | the stage asks for nothing exactly when validation failed, and then it fails with the validation error |
| ModelTrainer.StageSuccess | ThermalSolarAnamolyDetection/components/model_trainer.py:69-104 | the stage succeeds exactly when validation passed, the manifest was derivable, and loading, training and the checkpoint all worked; then the artifact path is `<model_trainer_dir>/best.pt` and the sixth and last effect copies `<model_trainer_dir>/yolo26-solarpanel/weights/best.pt` there |
| ModelTrainer.TrainingCall | ThermalSolarAnamolyDetection/components/model_trainer.py:72-88 | once the weights load, the third effect writes custom_data.yaml, the fourth loads the configured weights, and the fifth trains on that manifest with the configured epochs and batch, image size 640, the trainer's directory as project and run name `yolo26-solarpanel` |
| ModelTrainer.DefaultTrainerRun | ThermalSolarAnamolyDetection/components/model_trainer.py:14-23 | a trainer with the default feature store and configuration reads `artifacts/data_ingestion/feature_store/data.yaml`, loads `weights/yolo26n.pt` and trains for 1 epoch in batches of 16 on `<dir>/custom_data.yaml` |
| ModelTrainer.ManifestFailureStopsEarly | ThermalSolarAnamolyDetection/components/model_trainer.py:32-38 | a manifest that cannot be derived stops the stage right after reading data.yaml, failing as unreadable or with the missing `nc` or `names` |
| ModelTrainer.StageEffectsOrdered | ThermalSolarAnamolyDetection/components/model_trainer.py:72-99 | whatever the world answers, the stage trains only on a manifest it wrote before, and copies only after training |
| ModelTrainer.EntriesInDumpOrder | ThermalSolarAnamolyDetection/components/model_trainer.py:47-58 | the written manifest has exactly the keys train, val, test, nc and names in that order, and each field is found under its key |
| ModelTrainer.ImagesDirClean | ThermalSolarAnamolyDetection/components/model_trainer.py:43-45 | an images directory of a plain split under a normal directory is normal |
| ModelTrainer.CleanReadsBack | ThermalSolarAnamolyDetection/components/model_trainer.py:43-58 | a normal absolute path reads back from its written text unchanged |
| ModelTrainer.DumpedManifestContents | ThermalSolarAnamolyDetection/components/model_trainer.py:37-58 | in the manifest written for a derivable source, `nc` and `names` are the source's own values, and each split path is written as text that reads back as the derived absolute path |

## Left out

- Data ingestion (`data_ingestion.py`): the dataset download and the recursive copy into the feature store are network and file-system work around libraries.
- The detection library: loading the weights and training are recorded as effects. Whether they succeed is an input, and what they compute is not modelled.
- YAML text: the reader's result is an input (`Value`, or none when opening or parsing failed), and the dump is the ordered list of key/value entries. Floats, non-string keys, YAML text syntax and the dumper's quoting are not modelled.
- The `repr()` of a str (as `str()` of a list writes its items) escapes backslash, the quote, tab, newline, carriage return, and the characters below U+0020, U+007F to U+00A0 and U+00AD. Other non-printable Unicode characters, which Python also escapes, are written unescaped.
- `os.listdir`: the listing is an input given as a sequence of names, with none meaning the call raised. Only membership is used, so its order does not matter.
- `os.makedirs` and file writes are not modelled as able to fail. In the training stage the write is an effect. In the validation stage the status file is returned, and its directory creation is not recorded.
- `os.path.abspath` reads the process's working directory, which is passed in as `cwd`. Only POSIX paths are modelled, and normpath's special case for a path starting with exactly two slashes is not.
- A parsed `data.yaml` that is not a mapping makes Python raise on indexing. The model reports it as the missing field `nc`. Logging and the text of exception messages are not modelled; each failure is a distinct `Error` value.
- The code does not check that `nc` equals the number of `names`, and neither does the model.
- `ModelTrainerConfig`, `DataValidationConfig` and the artifact records come from entity files that are not part of this model. Their fields are plain record fields. Their default directories are not derived, so the constants that only name directories for those defaults or the dataset to download (`DATA_VALIDATION_DIR_NAME`, `DATA_VALIDATION_STATUS_FILE`, `MODEL_TRAINER_DIR_NAME`, `DATA_DOWNLOAD_URL`) are not modelled.
- `app.py`, the training-pipeline driver and any serving layer are not part of this model.
