/**
 * The configuration half of `main` in train_flow.py: the data shape and image type chosen
 * from the dataset name, the output directory, the flow-family dispatch and the checks made
 * when restoring a checkpoint. File-system effects and the data pipeline are parameters:
 * `cwd` is the working directory, `latestCheckpoint` what `tf.train.latest_checkpoint`
 * finds in the restore directory, `restoredIterations` the optimizer's step count after the
 * restore.
 */
module RunConfig {
  import opened Wrappers
  import opened PathStrings
  import opened DirNames

  /** The exception that ends `main`. */
  datatype Error =
    | UnboundLocal(name: string)
    | ValueError(message: string)
    | AssertionError(message: string)

  /** The command-line arguments `main` reads. */
  datatype Args = Args(
    dataset: string, height: int, width: int,
    output: string, restore: Option<string>, latest: bool,
    model: string, l: int, k: int, nFilters: int,
    nComponents: int, nBlocksFlow: int, filters: int,
    batchSize: int, useLogit: bool)

  const DefaultOutput := "trained_flow"

  datatype DataSettings = DataSettings(
    dataset: string, dataShape: seq<int>, imgType: string,
    preprocessingGlow: Option<string>, instrument: Option<string>)

  datatype FlowFamily = Glow | FlowPP

  datatype RunPlan = RunPlan(
    settings: DataSettings, outputDirpath: string, family: FlowFamily,
    preprocessingDataloader: bool, testBatchSize: int, restoreFrom: Option<string>)

  predicate IsImageDataset(name: string) {
    name == "mnist" || name == "cifar10"
  }

  /** The `miscellaneous parameters` block: image datasets by name, anything else is a
      directory of mel-spectrogram records named after its instrument. */
  function Settings(a: Args, cwd: string): DataSettings
    requires IsAbsolute(cwd)
  {
    if a.dataset == "mnist" then DataSettings("mnist", [32, 32, 1], "image", None, None)
    else if a.dataset == "cifar10" then DataSettings("cifar10", [32, 32, 3], "image", None, None)
    else
      var ds := AbsPath(cwd, a.dataset);
      DataSettings(ds, [a.height, a.width, 1], "melspec", Some("melspec"), Some(Basename(ds)))
  }

  /** The hyperparameters named in the directory, per flow family. */
  function ModelFields(a: Args): Option<seq<int>> {
    if a.model == "glow" then Some([a.l, a.k, a.nFilters, a.batchSize])
    else if a.model == "flowpp" then Some([a.nComponents, a.nBlocksFlow, a.filters, a.batchSize])
    else None
  }

  /** The dataset word of the directory name: the instrument for spectrogram directories. */
  function DirDataset(d: DataSettings): string {
    if d.dataset != "mnist" && d.dataset != "cifar10" && d.instrument.Some? then d.instrument.value else d.dataset
  }

  /** The output directory. With the default output and a model other than glow or flowpp,
      `output_dirname` is never bound and the first use of it raises. */
  function OutputDirpath(a: Args, cwd: string): Result<string, Error>
    requires IsAbsolute(cwd)
  {
    if a.output == DefaultOutput then
      match ModelFields(a)
      case None => Err(UnboundLocal("output_dirname"))
      case Some(fields) =>
        Ok(Join(DefaultOutput, Dirname(a.model, DirDataset(Settings(a, cwd)), fields, a.useLogit, a.restore.Some?)))
    else Ok(a.output)
  }

  function ModelDispatch(model: string): Result<FlowFamily, Error> {
    if model == "glow" then Ok(Glow)
    else if model == "flowpp" then Ok(FlowPP)
    else Err(ValueError("model should be glow or flowpp"))
  }

  /** The checkpoint restored from, or why restoring failed. */
  function RestoreFrom(restore: Option<string>, latest: bool, cwd: string, latestCheckpoint: Option<string>,
                       restoredIterations: nat): Result<Option<string>, Error>
    requires IsAbsolute(cwd)
  {
    match restore
    case None => Ok(None)
    case Some(r) =>
      var absRestorePath := AbsPath(cwd, r);
      if latest && latestCheckpoint.None? then Err(AssertionError(absRestorePath))
      else
        var path := if latest then latestCheckpoint.value else absRestorePath;
        if restoredIterations > 0 then Ok(Some(path)) else Err(AssertionError("optimizer.iterations > 0"))
  }

  /** `main` up to the call of `train`, in the source's order of failures. */
  function Main(a: Args, cwd: string, latestCheckpoint: Option<string>, restoredIterations: nat): Result<RunPlan, Error>
    requires IsAbsolute(cwd)
  {
    var d := Settings(a, cwd);
    match OutputDirpath(a, cwd)
    case Err(e) => Err(e)
    case Ok(dirpath) =>
      var testBatchSize := if IsImageDataset(d.dataset) then 5000 else a.batchSize;
      match ModelDispatch(a.model)
      case Err(e) => Err(e)
      case Ok(family) =>
        match RestoreFrom(a.restore, a.latest, cwd, latestCheckpoint, restoredIterations)
        case Err(e) => Err(e)
        case Ok(from) => Ok(RunPlan(d, dirpath, family, a.model != "flowpp", testBatchSize, from))
  }

  /** The image type, the preprocessing bijector and the instrument agree: all three say
      whether the dataset is one of the two image sets; a spectrogram dataset becomes an
      absolute directory whose last component is the instrument. */
  lemma SettingsConsistent(a: Args, cwd: string)
    requires IsAbsolute(cwd)
    ensures var d := Settings(a, cwd);
      && |d.dataShape| == 3
      && (d.dataShape[2] == 3 <==> a.dataset == "cifar10")
      && (d.imgType == "image" <==> IsImageDataset(a.dataset))
      && (d.preprocessingGlow.None? <==> IsImageDataset(a.dataset))
      && (d.instrument.None? <==> IsImageDataset(a.dataset))
      && (IsImageDataset(d.dataset) <==> IsImageDataset(a.dataset))
      && (d.instrument.Some? ==> IsAbsolute(d.dataset) && '/' !in d.instrument.value
                                 && EndsWith(d.dataset, d.instrument.value))
  {
    var d := Settings(a, cwd);
    if !IsImageDataset(a.dataset) {
      BasenameIsLastComponent(d.dataset);
    }
  }

  /** A trailing separator on the dataset directory changes none of the settings. */
  lemma TrailingSeparatorKeepsSettings(a: Args, cwd: string)
    requires IsAbsolute(cwd) && |a.dataset| > 0 && !IsImageDataset(a.dataset)
    ensures Settings(a.(dataset := a.dataset + "/"), cwd) == Settings(a, cwd)
  {
    AbsPathIgnoresTrailingSeparator(cwd, a.dataset);
  }

  /** A dataset directory given with a trailing separator, as in `data/piano/`, is still
      named after its last component (`piano`). */
  lemma InstrumentOfTrailingSeparator(a: Args, cwd: string, dir: string, name: string)
    requires IsAbsolute(cwd) && !IsAbsolute(dir) && |name| > 0 && '/' !in name
    requires a.dataset == Join(dir, name) + "/"
    ensures Settings(a, cwd).instrument == Some(name)
  {
    var d := a.dataset;
    assert d[|d| - 1] == '/';
    assert !IsImageDataset(d) by {
      if IsImageDataset(d) {
        assert false;
      }
    }
    assert name[0] in name;
    AbsPathIgnoresTrailingSeparator(cwd, Join(dir, name));
    BasenameOfAbsJoin(cwd, dir, name);
  }

  /** The run directory's name under the default output: a single path component. */
  lemma NameUnderDefault(a: Args, cwd: string)
    requires IsAbsolute(cwd) && a.output == DefaultOutput && ModelFields(a).Some?
    ensures var dn := Dirname(a.model, DirDataset(Settings(a, cwd)), ModelFields(a).value, a.useLogit, a.restore.Some?);
      && '/' !in dn && |dn| >= 9
      && OutputDirpath(a, cwd) == Ok(DefaultOutput + "/" + dn)
  {
    SettingsConsistent(a, cwd);
    var name := DirDataset(Settings(a, cwd));
    var fields := ModelFields(a).value;
    var dn := Dirname(a.model, name, fields, a.useLogit, a.restore.Some?);
    DirnameHasNoSeparator(a.model, name, fields, a.useLogit, a.restore.Some?);
    FieldsLength(a.model + "_" + name, fields);
    assert dn[0] in dn;
  }

  /** With the default output and a known model, the run directory sits directly under
      `trained_flow` and its name decodes back to the model, the dataset word, the four
      hyperparameters, the logit flag and the restore flag. */
  lemma DefaultOutputDecodes(a: Args, cwd: string)
    requires IsAbsolute(cwd) && a.output == DefaultOutput && ModelFields(a).Some?
    ensures var r := OutputDirpath(a, cwd);
      var name := DirDataset(Settings(a, cwd));
      && r.Ok?
      && r.value == DefaultOutput + "/" + Basename(r.value)
      && ParseDirname(Basename(r.value), 4)
           == Some(DirnameParts(a.model + "_" + name, ModelFields(a).value, a.useLogit, a.restore.Some?))
      && SplitFirstField(ParseDirname(Basename(r.value), 4).value.prefix) == Some((a.model, name))
  {
    NameUnderDefault(a, cwd);
    ModelWordHasNoSeparator(a);
    SplitFirstFieldOfJoin(a.model, DirDataset(Settings(a, cwd)));
    var name := DirDataset(Settings(a, cwd));
    var fields := ModelFields(a).value;
    var dn := Dirname(a.model, name, fields, a.useLogit, a.restore.Some?);
    BasenameAfterSeparator(DefaultOutput + "/", dn);
    DirnameRoundTrip(a.model, name, fields, a.useLogit, a.restore.Some?);
  }

  /** The models that name a directory are single words. */
  lemma ModelWordHasNoSeparator(a: Args)
    requires ModelFields(a).Some?
    ensures '_' !in a.model
  {
    if a.model == "glow" {
      assert a.model == ['g', 'l', 'o', 'w'];
    } else {
      assert a.model == ['f', 'l', 'o', 'w', 'p', 'p'];
    }
  }

  /** The suffix rules: `_ctd` exactly when restoring, and otherwise `_logit` exactly when
      the data are logit-preprocessed; any other output path is used verbatim. */
  lemma OutputDirpathSuffixes(a: Args, cwd: string)
    requires IsAbsolute(cwd)
    ensures var r := OutputDirpath(a, cwd);
      && (a.output != DefaultOutput ==> r == Ok(a.output))
      && (a.output == DefaultOutput && ModelFields(a).None? ==> r == Err(UnboundLocal("output_dirname")))
      && (a.output == DefaultOutput && ModelFields(a).Some? ==>
            && r.Ok?
            && (EndsWith(r.value, "_ctd") <==> a.restore.Some?)
            && (a.restore.None? ==> (EndsWith(r.value, "_logit") <==> a.useLogit)))
  {
    if a.output == DefaultOutput && ModelFields(a).Some? {
      NameUnderDefault(a, cwd);
      var fields := ModelFields(a).value;
      var dn := Dirname(a.model, DirDataset(Settings(a, cwd)), fields, a.useLogit, a.restore.Some?);
      DirnameSuffixes(a.model, DirDataset(Settings(a, cwd)), fields, a.useLogit, a.restore.Some?);
      var p := DefaultOutput + "/" + dn;
      assert p[|p| - |dn|..] == dn;
      SuffixOfSuffix(p, dn, "_ctd");
      SuffixOfSuffix(p, dn, "_logit");
    }
  }

  lemma SuffixOfSuffix(p: string, d: string, suffix: string)
    requires |suffix| <= |d| <= |p| && p[|p| - |d|..] == d
    ensures EndsWith(p, suffix) <==> EndsWith(d, suffix)
  {
    assert p[|p| - |suffix|..] == d[|d| - |suffix|..];
  }

  /** Among the checks modelled here, `main` fails exactly when the model is unknown or a
      restore check fails; the unknown model surfaces as the unbound name under the default
      output and as the dispatch's ValueError otherwise, before any restore is attempted.
      Failures of the optimizer set-up, `os.mkdir` and the checkpoint's own matching are
      not modelled. */
  lemma MainFailures(a: Args, cwd: string, latestCheckpoint: Option<string>, restoredIterations: nat)
    requires IsAbsolute(cwd)
    ensures var r := Main(a, cwd, latestCheckpoint, restoredIterations);
      var unknownModel := a.model != "glow" && a.model != "flowpp";
      var restoreFails := a.restore.Some? && ((a.latest && latestCheckpoint.None?) || restoredIterations == 0);
      && (r.Err? <==> unknownModel || restoreFails)
      && (unknownModel && a.output == DefaultOutput ==> r == Err(UnboundLocal("output_dirname")))
      && (unknownModel && a.output != DefaultOutput ==> r == Err(ValueError("model should be glow or flowpp")))
      && (!unknownModel && r.Err? ==> r.error.AssertionError?)
  {
  }

  /** A successful plan: the family matches the model name, only Flow++ skips the loader's
      preprocessing, the image sets are evaluated in batches of 5000 and spectrograms in
      training-sized batches, and the restore source is the latest checkpoint or the given
      path made absolute. */
  lemma MainPlan(a: Args, cwd: string, latestCheckpoint: Option<string>, restoredIterations: nat)
    requires IsAbsolute(cwd)
    requires Main(a, cwd, latestCheckpoint, restoredIterations).Ok?
    ensures var p := Main(a, cwd, latestCheckpoint, restoredIterations).value;
      && (p.family == Glow <==> a.model == "glow")
      && (p.preprocessingDataloader <==> p.family == Glow)
      && p.testBatchSize == (if IsImageDataset(a.dataset) then 5000 else a.batchSize)
      && (p.restoreFrom.Some? <==> a.restore.Some?)
      && (a.restore.Some? && a.latest ==> p.restoreFrom == latestCheckpoint)
      && (a.restore.Some? && !a.latest ==> p.restoreFrom == Some(AbsPath(cwd, a.restore.value)))
      && (a.restore.Some? ==> restoredIterations > 0)
  {
    SettingsConsistent(a, cwd);
  }
}
