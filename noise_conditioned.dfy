/**
 * train_noise_conditionned_models.py: fine-tunes one restored Glow model at a sequence of
 * noise levels. Each level restores the same checkpoint, sets the noise level, runs the
 * training loop of train_flow.py without an issues manager and saves once more.
 */
module NoiseConditioned {
  import opened Wrappers
  import opened ExtReals
  import opened PathStrings
  import opened DirNames
  import opened TrainingLoop
  import opened TrainingTrace
  import opened TrainingTheorems

  datatype Optimizer =
    | Adam(lr: real, clipvalue: Option<real>, clipnorm: Option<real>)
    | Adamax(lr: real)

  datatype Error = ValueError(message: string)

  function SetUpOptimizer(name: string, lr: real, clipvalue: Option<real>, clipnorm: Option<real>): Result<Optimizer, Error> {
    if name == "adam" then Ok(Adam(lr, clipvalue, clipnorm))
    else if name == "adamax" then Ok(Adamax(lr))
    else Err(ValueError("optimizer argument should be adam or adamax"))
  }

  /** Only the two names are accepted; both keep the learning rate; Adam keeps the clipping
      settings and Adamax ignores them. */
  lemma OptimizerDispatch(name: string, lr: real, clipvalue: Option<real>, clipnorm: Option<real>,
                          otherClipvalue: Option<real>, otherClipnorm: Option<real>)
    ensures var r := SetUpOptimizer(name, lr, clipvalue, clipnorm);
      && (r.Ok? <==> name == "adam" || name == "adamax")
      && (r.Ok? ==> r.value.lr == lr && (r.value.Adam? <==> name == "adam"))
      && (r.Ok? && r.value.Adam? ==> r.value.clipvalue == clipvalue && r.value.clipnorm == clipnorm)
      && (name == "adamax" ==> r == SetUpOptimizer(name, lr, otherClipvalue, otherClipnorm))
  {
  }

  const DefaultOutput := "noise_conditioned_flow"

  function GlowDirname(dataset: string, l: int, k: int, nFilters: int, batchSize: int): string {
    "glow_" + dataset + "_" + IntToString(l) + "_" + IntToString(k) + "_" + IntToString(nFilters) + "_" + IntToString(batchSize)
  }

  /** The run directory, made absolute against the working directory `cwd`. */
  function OutputDirpath(output: string, dataset: string, l: int, k: int, nFilters: int, batchSize: int,
                         cwd: string): (p: string)
    requires IsAbsolute(cwd)
    ensures IsAbsolute(p)
  {
    var dirpath :=
      if output == DefaultOutput then Join(output, GlowDirname(dataset, l, k, nFilters, batchSize)) else output;
    AbsPath(cwd, dirpath)
  }

  /** Under the default output, the last path component is the glow run's name. */
  lemma DefaultOutputBasename(dataset: string, l: int, k: int, nFilters: int, batchSize: int, cwd: string)
    requires IsAbsolute(cwd) && '/' !in dataset
    ensures Basename(OutputDirpath(DefaultOutput, dataset, l, k, nFilters, batchSize, cwd))
      == Dirname("glow", dataset, [l, k, nFilters, batchSize], false, false)
  {
    var fields := [l, k, nFilters, batchSize];
    var dn := Dirname("glow", dataset, fields, false, false);
    GlowName(dataset, l, k, nFilters, batchSize);
    DirnameHasNoSeparator("glow", dataset, fields, false, false);
    BasenameOfAbsJoin(cwd, DefaultOutput, dn);
  }

  /** With the default output the directory is named by the same rule as train_flow.py's glow
      runs (no logit or restore suffix), so its name decodes back to the dataset and the four
      hyperparameters; any other output is only made absolute. */
  lemma OutputDirpathDecodes(output: string, dataset: string, l: int, k: int, nFilters: int, batchSize: int,
                             cwd: string)
    requires IsAbsolute(cwd)
    ensures var p := OutputDirpath(output, dataset, l, k, nFilters, batchSize, cwd);
      && (output != DefaultOutput ==> p == AbsPath(cwd, output))
      && (output == DefaultOutput && '/' !in dataset ==>
            && ParseDirname(Basename(p), 4) == Some(DirnameParts("glow" + "_" + dataset, [l, k, nFilters, batchSize], false, false))
            && SplitFirstField(ParseDirname(Basename(p), 4).value.prefix) == Some(("glow", dataset)))
  {
    if output == DefaultOutput && '/' !in dataset {
      DefaultOutputBasename(dataset, l, k, nFilters, batchSize, cwd);
      GlowNameDecodes(dataset, [l, k, nFilters, batchSize]);
    }
  }

  /** A glow run's name decodes to its model word, dataset and fields. */
  lemma GlowNameDecodes(dataset: string, fields: seq<int>)
    requires |fields| > 0
    ensures var dn := Dirname("glow", dataset, fields, false, false);
      && ParseDirname(dn, |fields|) == Some(DirnameParts("glow" + "_" + dataset, fields, false, false))
      && SplitFirstField(ParseDirname(dn, |fields|).value.prefix) == Some(("glow", dataset))
  {
    DirnameRoundTrip("glow", dataset, fields, false, false);
    assert "glow" == ['g', 'l', 'o', 'w'];
    SplitFirstFieldOfJoin("glow", dataset);
  }

  /** The literal concatenation is the shared naming rule for a glow run. */
  lemma GlowName(dataset: string, l: int, k: int, nFilters: int, batchSize: int)
    ensures Dirname("glow", dataset, [l, k, nFilters, batchSize], false, false)
      == GlowDirname(dataset, l, k, nFilters, batchSize)
  {
    assert "glow" + "_" + dataset == "glow_" + dataset;
    FourFields("glow" + "_" + dataset, l, k, nFilters, batchSize);
  }

  /** Four numeric fields after a prefix, written out. */
  lemma FourFields(prefix: string, l: int, k: int, nFilters: int, batchSize: int)
    ensures Fields(prefix, [l, k, nFilters, batchSize])
      == prefix + "_" + IntToString(l) + "_" + IntToString(k) + "_" + IntToString(nFilters) + "_" + IntToString(batchSize)
  {
    var fields := [l, k, nFilters, batchSize];
    assert fields[..1][..0] == [] && fields[..2][..1] == fields[..1] && fields[..3][..2] == fields[..2];
    assert fields[..4] == fields && fields[..4][..3] == fields[..3];
    assert Fields(prefix, fields[..1]) == prefix + "_" + IntToString(l);
    assert Fields(prefix, fields[..2]) == Fields(prefix, fields[..1]) + "_" + IntToString(k);
    assert Fields(prefix, fields[..3]) == Fields(prefix, fields[..2]) + "_" + IntToString(nFilters);
  }

  /** What one noise level does, in order. */
  datatype Step =
    | Restored(path: string)
    | NoiseSet(sigma: real)
    | Trained(outcome: Outcome)
    | Saved
    | Crashed(crash: Crash)

  /** Why the script as written stops: an attribute `train` reads that the script's parser
      never defines, or `np.round` applied to the pair that `train` returns. */
  datatype Crash = MissingAttribute(name: string) | RoundOfPair

  predicate TrainableWith(nTrain: nat, batchSize: nat) {
    batchSize > 0 && LogPeriod(nTrain, batchSize) > 0
  }

  /** One noise level: restore, set the noise, train (to `outcome`), save. */
  function LevelSteps(absRestorePath: string, sigma: real, outcome: Outcome): seq<Step> {
    [Restored(absRestorePath), NoiseSet(sigma), Trained(outcome), Saved]
  }

  /** The outcome of each level's training run: from the restored step count, without an issues
      manager, on that level's data. */
  function LevelOutcomes(restoredStep: nat, nTrain: nat, batchSize: nat, data: seq<seq<Epoch>>): (outs: seq<Outcome>)
    requires TrainableWith(nTrain, batchSize)
    ensures |outs| == |data|
    ensures forall i :: 0 <= i < |data| ==> outs[i] == Train(restoredStep, nTrain, batchSize, false, data[i])
  {
    seq(|data|, i requires 0 <= i < |data| => Train(restoredStep, nTrain, batchSize, false, data[i]))
  }

  /** All noise levels in order; `outs[i]` is the training outcome at noise `sigmas[i]`. */
  function NoiseSchedule(absRestorePath: string, sigmas: seq<real>, outs: seq<Outcome>): seq<Step>
    requires |outs| == |sigmas|
    decreases |sigmas|
  {
    if |sigmas| == 0 then []
    else
      var n := |sigmas| - 1;
      NoiseSchedule(absRestorePath, sigmas[..n], outs[..n]) + LevelSteps(absRestorePath, sigmas[n], outs[n])
  }

  /** The `for sigma in sigmas` loop. `noise` is `args.noise`, which each level overwrites. */
  method TrainNoiseLevels(restore: string, cwd: string, restoredStep: nat, nTrain: nat, batchSize: nat,
                          initialNoise: Option<real>, sigmas: seq<real>, data: seq<seq<Epoch>>)
    returns (steps: seq<Step>, noise: Option<real>)
    requires IsAbsolute(cwd) && TrainableWith(nTrain, batchSize) && |data| == |sigmas|
    ensures steps == NoiseSchedule(AbsPath(cwd, restore), sigmas, LevelOutcomes(restoredStep, nTrain, batchSize, data))
    ensures noise == if |sigmas| == 0 then initialNoise else Some(sigmas[|sigmas| - 1])
  {
    var absRestorePath := AbsPath(cwd, restore);
    ghost var outs := LevelOutcomes(restoredStep, nTrain, batchSize, data);
    steps := [];
    noise := initialNoise;
    for i := 0 to |sigmas|
      invariant steps == NoiseSchedule(absRestorePath, sigmas[..i], outs[..i])
      invariant noise == if i == 0 then initialNoise else Some(sigmas[i - 1])
    {
      ghost var before := steps;
      steps := steps + [Restored(absRestorePath)];
      noise := Some(sigmas[i]);
      steps := steps + [NoiseSet(noise.value)];
      var outcome := TrainLoop(restoredStep, nTrain, batchSize, false, data[i]);
      steps := steps + [Trained(outcome), Saved];
      assert outcome == outs[i];
      AppendLevel(before, absRestorePath, sigmas[i], outcome);
      ScheduleSnoc(absRestorePath, sigmas, outs, i);
    }
    assert sigmas[..|sigmas|] == sigmas && outs[..|outs|] == outs;
  }

  /** The loop body's three appends make up one level's steps. */
  lemma AppendLevel(before: seq<Step>, absRestorePath: string, sigma: real, outcome: Outcome)
    ensures before + [Restored(absRestorePath)] + [NoiseSet(sigma)] + [Trained(outcome), Saved]
      == before + LevelSteps(absRestorePath, sigma, outcome)
  {
  }

  /** The schedule of the first `i + 1` levels extends that of the first `i`. */
  lemma ScheduleSnoc(absRestorePath: string, sigmas: seq<real>, outs: seq<Outcome>, i: nat)
    requires |outs| == |sigmas| && i < |sigmas|
    ensures NoiseSchedule(absRestorePath, sigmas[..i + 1], outs[..i + 1])
      == NoiseSchedule(absRestorePath, sigmas[..i], outs[..i]) + LevelSteps(absRestorePath, sigmas[i], outs[i])
  {
    assert sigmas[..i + 1][..i] == sigmas[..i] && outs[..i + 1][..i] == outs[..i];
  }

  /** The schedule is four steps per noise level, in the order restore (always from the same
      path), set that level's noise, train to that level's outcome, save. */
  lemma {:induction false} ScheduleLayout(absRestorePath: string, sigmas: seq<real>, outs: seq<Outcome>)
    requires |outs| == |sigmas|
    ensures var steps := NoiseSchedule(absRestorePath, sigmas, outs);
      && |steps| == 4 * |sigmas|
      && forall i :: 0 <= i < |sigmas| ==>
           && steps[4 * i] == Restored(absRestorePath)
           && steps[4 * i + 1] == NoiseSet(sigmas[i])
           && steps[4 * i + 2] == Trained(outs[i])
           && steps[4 * i + 3] == Saved
    decreases |sigmas|
  {
    if |sigmas| > 0 {
      var n := |sigmas| - 1;
      ScheduleLayout(absRestorePath, sigmas[..n], outs[..n]);
    }
  }

  /** No noise level ever makes a defensive jump save, and each ends with two saves in a row:
      the training loop's final save and the extra one after it. */
  lemma LevelsNeverJumpAndSaveTwice(absRestorePath: string, restoredStep: nat, nTrain: nat, batchSize: nat,
                                    sigmas: seq<real>, data: seq<seq<Epoch>>, i: nat)
    requires TrainableWith(nTrain, batchSize) && |data| == |sigmas| && i < |sigmas|
    ensures |NoiseSchedule(absRestorePath, sigmas, LevelOutcomes(restoredStep, nTrain, batchSize, data))| == 4 * |sigmas|
    ensures var steps := NoiseSchedule(absRestorePath, sigmas, LevelOutcomes(restoredStep, nTrain, batchSize, data));
      var events := Train(restoredStep, nTrain, batchSize, false, data[i]).events;
      && steps[4 * i + 2] == Trained(Train(restoredStep, nTrain, batchSize, false, data[i]))
      && Jumps(events) == []
      && |events| > 0 && events[|events| - 1] == FinalSave && Finals(events) == [true]
      && steps[4 * i + 3] == Saved
  {
    ScheduleLayout(absRestorePath, sigmas, LevelOutcomes(restoredStep, nTrain, batchSize, data));
    TrainJumpSaves(restoredStep, nTrain, batchSize, false, data[i]);
    TrainSavesOnceAtEnd(restoredStep, nTrain, batchSize, false, data[i]);
  }

  /** The attributes the script's parser defines (`args.noise` is among them and is
      overwritten per level). */
  const ParsedArguments: set<string> := {
    "RESTORE", "dataset", "output", "sigma1", "sigmaL", "n_sigmas", "L", "K", "n_filters",
    "l2_reg", "n_epochs", "optimizer", "batch_size", "learning_rate", "clipvalue", "clipnorm",
    "use_logit", "alpha", "noise"}

  /** The attributes of `args` that `train` reads before its first epoch, in order. */
  const TrainReads: seq<string> :=
    ["img_type", "data_shape", "sampling_rate", "fmin", "fmax", "n_epochs", "batch_size", "n_train"]

  /** The first of `attrs` that `defined` lacks, which is where the reads raise
      AttributeError. */
  function FirstMissing(attrs: seq<string>, defined: set<string>): (r: Option<string>)
    ensures r.None? <==> forall i :: 0 <= i < |attrs| ==> attrs[i] in defined
    ensures r.Some? ==> exists i :: 0 <= i < |attrs| && attrs[i] == r.value && r.value !in defined
                                   && forall j :: 0 <= j < i ==> attrs[j] in defined
    decreases |attrs|
  {
    if |attrs| == 0 then None
    else if attrs[0] !in defined then Some(attrs[0])
    else FirstMissing(attrs[1..], defined)
  }

  /** The `for sigma` loop as written, with `defined` the attributes `args` holds. The first
      level restores and sets its noise; `train` then stops at the first attribute it lacks,
      and if it had them all, the `np.round` of the `(training_time, save_path)` pair it
      returns would stop the script before the level's save. */
  function ScheduleAsWritten(absRestorePath: string, defined: set<string>, sigmas: seq<real>,
                             outs: seq<Outcome>): seq<Step>
    requires |outs| == |sigmas|
  {
    if |sigmas| == 0 then []
    else match FirstMissing(TrainReads, defined)
      case Some(name) => [Restored(absRestorePath), NoiseSet(sigmas[0]), Crashed(MissingAttribute(name))]
      case None => [Restored(absRestorePath), NoiseSet(sigmas[0]), Trained(outs[0]), Crashed(RoundOfPair)]
  }

  /** With the parser's attributes, the first noise level stops at `args.img_type`: nothing
      is trained or saved, and no later level is reached, whereas the intended schedule
      trains and saves every level. */
  lemma FirstLevelCrashes(absRestorePath: string, sigmas: seq<real>, outs: seq<Outcome>)
    requires |outs| == |sigmas| && |sigmas| > 0
    ensures ScheduleAsWritten(absRestorePath, ParsedArguments, sigmas, outs)
      == [Restored(absRestorePath), NoiseSet(sigmas[0]), Crashed(MissingAttribute("img_type"))]
    ensures |NoiseSchedule(absRestorePath, sigmas, outs)| == 4 * |sigmas|
    ensures NoiseSchedule(absRestorePath, sigmas, outs)[3] == Saved
  {
    assert "img_type" !in ParsedArguments;
    ScheduleLayout(absRestorePath, sigmas, outs);
  }

  /** Up to the first level's training, the loop as written follows the intended schedule;
      it never reaches that level's save. */
  lemma AsWrittenFollowsSchedule(absRestorePath: string, defined: set<string>, sigmas: seq<real>,
                                 outs: seq<Outcome>)
    requires |outs| == |sigmas| && |sigmas| > 0
    ensures var w := ScheduleAsWritten(absRestorePath, defined, sigmas, outs);
      var intended := NoiseSchedule(absRestorePath, sigmas, outs);
      && 3 <= |w| <= 4 && |w| <= |intended|
      && w[..|w| - 1] == intended[..|w| - 1]
      && w[|w| - 1].Crashed?
      && (|w| == 4 <==> forall a :: a in TrainReads ==> a in defined)
      && Saved !in w
  {
    ScheduleLayout(absRestorePath, sigmas, outs);
  }
}
