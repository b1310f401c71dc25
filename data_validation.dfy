/** The validation stage: it checks that the feature store holds every
    required name as an immediate child, writes a status file saying so and
    hands the verdict on. */
module DataValidation {
  import opened Outcomes
  import opened Paths
  import opened Artifacts
  import PyText
  import TrainingPipelineConstants

  /** The stage as constructed: where the feature store is, and its config. */
  datatype DataValidation = DataValidation(
    dataIngestionArtifact: DataIngestionArtifact,
    dataValidationConfig: DataValidationConfig)

  /** The required names that do not occur in the listing, in the order of
      the required list (a name required twice and absent is listed twice). */
  function Missing(required: seq<string>, listing: seq<string>): (r: seq<string>)
    ensures |r| <= |required|
    ensures forall i :: 0 <= i < |r| ==> r[i] !in listing
    decreases |required|
  {
    if required == [] then []
    else
      var last := required[|required| - 1];
      Missing(required[..|required| - 1], listing) + (if last in listing then [] else [last])
  }

  /** The verdict: every required name occurs in the listing. */
  predicate AllPresent(required: seq<string>, listing: seq<string>) {
    forall i :: 0 <= i < |required| ==> required[i] in listing
  }

  /** A file the stage wrote: where, and its lines (each ended by a newline). */
  datatype StatusFile = StatusFile(path: Path, lines: seq<string>)

  const StatusPrefix: string := "Validation status: "
  const MissingPrefix: string := "Missing files: "

  /** The status file's lines: the verdict, then the missing names if any. */
  function StatusReport(status: bool, missing: seq<string>): (r: seq<string>)
    ensures 1 <= |r| <= 2 && (|r| == 2 <==> missing != [])
  {
    [StatusPrefix + PyText.BoolRepr(status)]
      + (if missing == [] then [] else [MissingPrefix + PyText.ListRepr(missing)])
  }

  /** What one more required name adds to the verdict and the missing list. */
  lemma PrefixStep(required: seq<string>, i: nat, listing: seq<string>)
    requires i < |required|
    ensures Missing(required[..i + 1], listing)
         == Missing(required[..i], listing) + (if required[i] in listing then [] else [required[i]])
    ensures AllPresent(required[..i + 1], listing) == (AllPresent(required[..i], listing) && required[i] in listing)
  {
    assert required[..i + 1][..i] == required[..i];
  }

  /** Lists the feature store (listing is what listing it gave, None if that
      raised), checks every required name against it, and writes the report. */
  method ValidateAllFilesExist(stage: DataValidation, listing: Option<seq<string>>)
    returns (result: Result<bool>, written: Option<StatusFile>)
    ensures listing.None? ==> result == Failure(FeatureStoreUnreadable) && written == None
    ensures listing.Some? ==>
      var required := stage.dataValidationConfig.requiredFileList;
      && result == Success(AllPresent(required, listing.value))
      && written == Some(StatusFile(stage.dataValidationConfig.validStatusFileDir,
                                    StatusReport(result.value, Missing(required, listing.value))))
  {
    if listing.None? {
      return Failure(FeatureStoreUnreadable), None;
    }
    var allFiles := listing.value;
    var required := stage.dataValidationConfig.requiredFileList;
    var validationStatus := true;
    var missingFiles: seq<string> := [];
    for i := 0 to |required|
      invariant missingFiles == Missing(required[..i], allFiles)
      invariant validationStatus == AllPresent(required[..i], allFiles)
    {
      PrefixStep(required, i, allFiles);
      if required[i] !in allFiles {
        validationStatus := false;
        missingFiles := missingFiles + [required[i]];
      }
    }
    assert required[..|required|] == required;
    var lines := [StatusPrefix + PyText.BoolRepr(validationStatus)];
    if missingFiles != [] {
      lines := lines + [MissingPrefix + PyText.ListRepr(missingFiles)];
    }
    assert lines == StatusReport(validationStatus, missingFiles);
    result := Success(validationStatus);
    written := Some(StatusFile(stage.dataValidationConfig.validStatusFileDir, lines));
  }

  /** Runs the check and wraps its verdict, whatever it is, into the artifact. */
  method InitiateDataValidation(stage: DataValidation, listing: Option<seq<string>>)
    returns (result: Result<DataValidationArtifact>, written: Option<StatusFile>)
    ensures result.Success? <==> listing.Some?
    ensures result.Failure? ==> result.error == FeatureStoreUnreadable && written == None
    ensures listing.Some? ==>
      var required := stage.dataValidationConfig.requiredFileList;
      && result.value.validationStatus == AllPresent(required, listing.value)
      && written == Some(StatusFile(stage.dataValidationConfig.validStatusFileDir,
                                    StatusReport(AllPresent(required, listing.value), Missing(required, listing.value))))
  {
    var status;
    status, written := ValidateAllFilesExist(stage, listing);
    if status.Failure? {
      return Failure(status.error), written;
    }
    result := Success(DataValidationArtifact(validationStatus := status.value));
  }

  // ---------------------------------------------------------------------------
  // What the verdict and the missing list mean

  /** The missing names of a concatenation are those of its parts, in order. */
  lemma {:induction false} MissingAppend(r1: seq<string>, r2: seq<string>, listing: seq<string>)
    ensures Missing(r1 + r2, listing) == Missing(r1, listing) + Missing(r2, listing)
    decreases |r2|
  {
    if r2 == [] {
      assert r1 + r2 == r1;
    } else {
      var init := r2[..|r2| - 1];
      var last := r2[|r2| - 1];
      assert (r1 + r2)[..|r1 + r2| - 1] == r1 + init;
      assert (r1 + r2)[|r1 + r2| - 1] == last;
      MissingAppend(r1, init, listing);
    }
  }

  /** A name is missing exactly when it is required and not in the listing. */
  lemma {:induction false} MissingMembers(required: seq<string>, listing: seq<string>, x: string)
    ensures x in Missing(required, listing) <==> x in required && x !in listing
    decreases |required|
  {
    if required != [] {
      var init := required[..|required| - 1];
      assert required == init + [required[|required| - 1]];
      MissingMembers(init, listing, x);
    }
  }

  /** Nothing is missing exactly when every required name is present. */
  lemma {:induction false} MissingEmptyIffAllPresent(required: seq<string>, listing: seq<string>)
    ensures Missing(required, listing) == [] <==> AllPresent(required, listing)
  {
    if AllPresent(required, listing) {
      if Missing(required, listing) != [] {
        var x := Missing(required, listing)[0];
        MissingMembers(required, listing, x);
      }
    } else {
      var i :| 0 <= i < |required| && required[i] !in listing;
      MissingMembers(required, listing, required[i]);
    }
  }

  /** Only whether each required name is in the listing matters: listings that
      agree on the required names give the same verdict and missing list. */
  lemma {:induction false} MissingOnlyMembership(required: seq<string>, l1: seq<string>, l2: seq<string>)
    requires forall i :: 0 <= i < |required| ==> (required[i] in l1 <==> required[i] in l2)
    ensures Missing(required, l1) == Missing(required, l2)
    ensures AllPresent(required, l1) == AllPresent(required, l2)
    decreases |required|
  {
    if required != [] {
      var init := required[..|required| - 1];
      assert forall i :: 0 <= i < |init| ==> init[i] == required[i];
      MissingOnlyMembership(init, l1, l2);
    }
  }

  /** Extra names in the listing that are not required change nothing. */
  lemma ExtraNamesIgnored(required: seq<string>, listing: seq<string>, extra: seq<string>)
    requires forall j :: 0 <= j < |extra| ==> extra[j] !in required
    ensures Missing(required, listing + extra) == Missing(required, listing)
    ensures AllPresent(required, listing + extra) == AllPresent(required, listing)
  {
    MissingOnlyMembership(required, listing + extra, listing);
  }

  // ---------------------------------------------------------------------------
  // What the status file says

  /** Reads a status file back into the verdict and the missing list. */
  function ReadReport(lines: seq<string>): Option<(bool, seq<string>)> {
    if |lines| == 0 || |lines| > 2 then None
    else if lines[0] != StatusPrefix + "True" && lines[0] != StatusPrefix + "False" then None
    else
      var status := lines[0] == StatusPrefix + "True";
      if |lines| == 1 then Some((status, []))
      else if |lines[1]| < |MissingPrefix| || lines[1][..|MissingPrefix|] != MissingPrefix then None
      else
        match PyText.ReadList(lines[1][|MissingPrefix|..])
        case Some(missing) => if missing == [] then None else Some((status, missing))
        case None => None
  }

  /** The status file records the verdict and the missing list exactly. */
  lemma ReadReportRoundTrip(status: bool, missing: seq<string>)
    ensures ReadReport(StatusReport(status, missing)) == Some((status, missing))
  {
    var lines := StatusReport(status, missing);
    assert lines[0] == StatusPrefix + PyText.BoolRepr(status);
    if status {
      assert lines[0] == StatusPrefix + "True";
    } else {
      assert lines[0] != StatusPrefix + "True" by {
        assert lines[0][|StatusPrefix|] == 'F';
        assert (StatusPrefix + "True")[|StatusPrefix|] == 'T';
      }
    }
    if missing != [] {
      var line := MissingPrefix + PyText.ListRepr(missing);
      assert line[..|MissingPrefix|] == MissingPrefix;
      assert line[|MissingPrefix|..] == PyText.ListRepr(missing);
      PyText.ReadListRepr(missing);
    }
  }

  /** For the report of a real listing: the first line says True exactly when
      every required name is present, and there is a second line exactly when
      one is missing. */
  lemma ReportMatchesVerdict(required: seq<string>, listing: seq<string>)
    ensures var report := StatusReport(AllPresent(required, listing), Missing(required, listing));
      && (report[0] == StatusPrefix + "True" <==> AllPresent(required, listing))
      && (report[0] == StatusPrefix + "False" <==> !AllPresent(required, listing))
      && (|report| == 2 <==> !AllPresent(required, listing))
      && (|report| == 1 <==> AllPresent(required, listing))
  {
    MissingEmptyIffAllPresent(required, listing);
    var status := AllPresent(required, listing);
    PyText.BoolReprInjective(status, true);
    PyText.BoolReprInjective(status, false);
    var line := StatusPrefix + PyText.BoolRepr(status);
    assert line[|StatusPrefix|..] == PyText.BoolRepr(status);
    assert (StatusPrefix + "True")[|StatusPrefix|..] == "True";
    assert (StatusPrefix + "False")[|StatusPrefix|..] == "False";
  }

  /** With the default required list, a store holding the three split
      directories but no data.yaml fails, and data.yaml alone is missing. */
  lemma DefaultStoreLackingManifest(listing: seq<string>)
    requires "train" in listing && "valid" in listing && "test" in listing
    requires "data.yaml" !in listing
    ensures !AllPresent(TrainingPipelineConstants.DataValidationAllRequiredFiles, listing)
    ensures Missing(TrainingPipelineConstants.DataValidationAllRequiredFiles, listing) == ["data.yaml"]
  {
    var required := TrainingPipelineConstants.DataValidationAllRequiredFiles;
    assert required[3] !in listing;
    assert required[..0] == [];
    PrefixStep(required, 0, listing);
    PrefixStep(required, 1, listing);
    PrefixStep(required, 2, listing);
    PrefixStep(required, 3, listing);
    assert required[..4] == required;
  }

  /** With the default required list, a store holding the three split
      directories but no data.yaml gets exactly this status file. */
  lemma DefaultStoreLackingManifestReport(listing: seq<string>)
    requires "train" in listing && "valid" in listing && "test" in listing
    requires "data.yaml" !in listing
    ensures var required := TrainingPipelineConstants.DataValidationAllRequiredFiles;
      StatusReport(AllPresent(required, listing), Missing(required, listing))
        == ["Validation status: False", "Missing files: ['data.yaml']"]
  {
    DefaultStoreLackingManifest(listing);
    DataYamlReport();
  }

  /** The status file that reports data.yaml as the only missing name. */
  lemma DataYamlReport()
    ensures StatusReport(false, ["data.yaml"]) == ["Validation status: False", "Missing files: ['data.yaml']"]
  {
    DataYamlPlain();
    SingleMissingReport("data.yaml");
    DataYamlMissingLine();
  }

  /** "data.yaml" is written by repr without escapes. */
  lemma DataYamlPlain()
    ensures forall i :: 0 <= i < |"data.yaml"| ==> PyText.SafeChar("data.yaml"[i])
  {
  }

  /** The missing-files line for data.yaml, as one literal. */
  lemma DataYamlMissingLine()
    ensures "Missing files: ['" + "data.yaml" + "']" == "Missing files: ['data.yaml']"
  {
    var text := "Missing files: ['data.yaml']";
    assert text[..17] == "Missing files: ['" && text[17..26] == "data.yaml" && text[26..] == "']";
    assert text == text[..17] + text[17..26] + text[26..];
  }

  /** The status file written when a single plainly named entry is missing,
      as for that store with "data.yaml". */
  lemma SingleMissingReport(name: string)
    requires forall i :: 0 <= i < |name| ==> PyText.SafeChar(name[i])
    ensures StatusReport(false, [name]) == ["Validation status: False", "Missing files: ['" + name + "']"]
  {
    PyText.ListReprSingleVerbatim(name);
    assert StatusPrefix + PyText.BoolRepr(false) == "Validation status: False";
    assert MissingPrefix + ("['" + name + "']") == "Missing files: ['" + name + "']";
  }
}
