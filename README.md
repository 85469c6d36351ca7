# Verified model of the flow training and evaluation drivers

This project models the driver scripts of an audio source separation repository that trains
and evaluates Glow and Flow++ normalizing flows with TensorFlow. Three parts are modelled:

* **The training-loop policy** of `train` in `train_flow.py`. A stream of per-batch training
  losses and per-epoch validation losses drives a step counter, a windowed loss mean, a
  per-epoch loss mean, the previous window mean, an abort flag and the best validation loss.
  The loop produces a trace of events: log points, abort, defensive "jump" saves,
  validations, best-model saves and the final save. `TrainingLoop.TrainLoop` has the
  nested `for epoch` / `for batch` loops of the source, with their `break`s. It is proved
  to compute exactly the reference definition `Train`. The modules `TrainingTrace` and
  `TrainingTheorems` then prove what `Train` guarantees, each against an independent
  description: the multiples of the period, the consecutive-log jumps, the running
  minimum and its records, and the validation schedule.
* **Run configuration.** `RunConfig` models the configuration part of `main` in
  `train_flow.py`:
  - data shape and image type;
  - output directory name;
  - flow-family dispatch;
  - restore checks.

  `NoiseConditioned` models the same kind of logic in
  `train_noise_conditionned_models.py`:
  - optimizer dispatch;
  - output directory;
  - the per-noise-level restore/train/save loop, which reuses `TrainLoop`.

  The naming rule for output directories is shared by both scripts. It is modelled once in
  `DirNames`, together with a decoder that reads the hyperparameters and flags back out of
  a name. The round trip is proved.
* **Evaluation arithmetic** of `evaluate` in `evaluate_flow.py`, modelled in `Evaluation`.
  Each batch's raw loss, dequantization-corrected negative log-likelihood and bits per
  pixel are computed. They are then accumulated into six running means, the train ones
  from the training set and the test ones from the validation set.

Losses are extended reals: `Fin(r)`, `PosInf`, `NegInf` or `NaN`. Comparisons and
subtraction follow IEEE rules, with `NaN` comparing false. A Keras `Mean` metric is the
value `Mean(total, count)`: its result is 0 while empty, as `divide_no_nan` makes it.
Evaluation works over `real`. `log` and `sigmoid` are function parameters, and the model
assumes only `log(2) > 0` and `0 < sigmoid(x) < 1`.

Four behaviours of the code are worth knowing.
- `min_val_loss` starts at `0.`, so only negative validation losses ever save a best
  model. For the validation losses `5, 4, 4.5, 3` no best-model save happens at all
  (`TrainingTrace.BestSaveExamples`). The model follows the code here. It does not follow
  the "save whenever validation improves" reading of the design.
- With the default output `trained_flow` and a model other than `glow` or `flowpp`, the
  name `output_dirname` is never bound. `main` then fails with `UnboundLocalError`
  (train_flow.py:199-211) before it reaches the `ValueError` at train_flow.py:272. The
  model returns that first error.
- The noise-conditioned script never defines several attributes that `train` reads, so as
  written it stops on its first noise level (see Findings). `TrainNoiseLevels` models the
  loop as it is evidently meant to run.
- The window mean behind each `loss_history` entry is reset only after a log point that
  logs, not when an epoch starts. So each entry averages the losses since the previous log
  point, across epoch boundaries (`TrainingWindows.TrainLoggedMeans`).

## Model

| member | source | states |
|---|---|---|
| ExtReals.LessIsStrictOrder | train_flow.py:163 | `<` on losses is a strict order (irreflexive, asymmetric, transitive); NaN is incomparable to everything |
| ExtReals.UpdateAllFinite | train_flow.py:95-96 | feeding finite values to a fresh Keras Mean leaves their sum and their number |
| ExtReals.MeanOfFinite | train_flow.py:108 | the result of a Mean over finite values is their arithmetic average (0 when empty) |
| ExtReals.MeanFiniteIff | train_flow.py:135-137 | a Mean counts every update, and its result is finite iff every value fed to it is finite |
| TrainingLoop.AbortedBatchesAreIdle | train_flow.py:102-105 | once the abort flag is set inside an epoch, the remaining batches change nothing |
| TrainingLoop.AbortedEpochsAreIdle | train_flow.py:87-91 | once aborted, every later epoch only resets the epoch mean: no training, no validation, no event |
| TrainingLoop.TrainEpoch | train_flow.py:93-130 | the batch loop with its abort `break` computes the reference batch run and leaves `min_val_loss` alone |
| TrainingLoop.ValidateEpoch | train_flow.py:133-166 | the validation block reports the epoch and validation means; it saves and lowers `min_val_loss` iff the validation mean is strictly below it |
| TrainingLoop.TrainLoop | train_flow.py:72-171 | the nested loops of `train` compute exactly the reference outcome `Train` |
| TrainingTrace.BatchStepLogInv | train_flow.py:93-130 | one batch keeps the log invariant: log points are the period's multiples, the loss history holds the logged means, the previous mean is the last logged one (with an issues manager), jump saves are the consecutive jumps, an abort is recorded once |
| TrainingTrace.AbortStepLogInv | train_flow.py:102-105 | a NaN/Inf loss at a log point records the abort at that step and keeps the log invariant |
| TrainingTrace.LoggedStepLogInv | train_flow.py:107-130 | a finite loss at a log point appends the current window's result to the history, saves iff it jumped by more than 10**6 over the previous logged value, and keeps the log invariant (which window that is: `TrainingWindows.TrainLoggedMeans`) |
| TrainingTrace.BatchStepValInv | train_flow.py:93-130 | batches never touch the validation records, the best saves or `min_val_loss` |
| TrainingTrace.RunBatchesInv | train_flow.py:93-130 | a whole epoch of batches keeps both invariants |
| TrainingTrace.ValidationLogInv | train_flow.py:133-166 | the validation block leaves the log points, history, jumps and abort record unchanged |
| TrainingTrace.ValidationValInv | train_flow.py:162-166 | the validation block keeps `min_val_loss` the running minimum from 0 and the best saves the records |
| TrainingTrace.ValidationInv | train_flow.py:133-166 | the validation block of epoch e keeps both invariants and extends the validation schedule to e |
| TrainingTrace.RunEpochsInv | train_flow.py:87-166 | after any number of epochs both invariants hold; without an abort, every epoch was entered |
| TrainingTrace.MultiplesExact | train_flow.py:100 | the log-point description holds exactly the multiples of the period after the start step, in increasing order |
| TrainingTrace.ExpectedJumpsExact | train_flow.py:115-130 | a jump save happens exactly at a logged mean exceeding the previous logged mean by more than 10**6; the first log only initialises, so there are fewer jumps than logs |
| TrainingTrace.RecordsDecrease | train_flow.py:162-166 | best saves are below 0, strictly decreasing, and `min_val_loss` is the last of them or 0 |
| TrainingTrace.RunningMinNeverIncreases | train_flow.py:77 | `min_val_loss` never increases over the run |
| TrainingTrace.NonNegativeLossesNeverSave | train_flow.py:77 | validation losses that are not below 0 never trigger a best save and leave `min_val_loss` at 0 |
| TrainingTrace.BestSaveExamples | train_flow.py:162-166 | validation losses 5, 4, 4.5, 3 save nothing; -5, -4, -4.5, -6 save at -5 and at -6 |
| TrainingTrace.ValidationScheduleExact | train_flow.py:133 | validation runs at epoch e iff fewer than 100 epochs are configured or e is a multiple of `N_EPOCHS // 100` |
| TrainingTheorems.RunBatchesProgress | train_flow.py:93-105 | the counter grows by one per consumed batch; the loop leaves early only at a log point with a NaN/Inf loss, and no earlier log point saw one; the epoch mean covers exactly the consumed batches |
| TrainingTheorems.BatchesAbortIff | train_flow.py:100-105 | an epoch aborts iff some batch at a log point has a NaN or infinite loss (losses off the log points are not checked) |
| TrainingTheorems.AbortedRunStaysAborted | train_flow.py:87-91 | an abort is permanent, and later epochs add no step and no event |
| TrainingTheorems.StepsWithoutAbort | train_flow.py:76-97 | without an abort, the counter ends at the optimizer's iteration count plus the number of training batches |
| TrainingTheorems.AbortEpochIsLastEntered | train_flow.py:87-91 | the epoch that aborts is the last one entered, so its validation block still runs |
| TrainingTheorems.EpochReport | train_flow.py:141-142 | the validation line reports the mean loss of the batches the epoch consumed and the mean validation loss |
| TrainingTheorems.TrainInv | train_flow.py:72-171 | a whole run satisfies both invariants and its trace ends with the final save |
| TrainingTheorems.TrainSavesOnceAtEnd | train_flow.py:168-171 | exactly one unconditional save happens, as the last event, aborted or not |
| TrainingTheorems.TrainLogPoints | train_flow.py:100 | the steps logged or aborted at are exactly the multiples of `n_train // (batch_size * 10)` after the start step; `loss_history` is the sequence of values the log events carry (what each value is: `TrainingWindows.TrainLoggedMeans`) |
| TrainingTheorems.TrainJumpSaves | train_flow.py:115-130 | with no issues manager there is no jump save; with one, saves are exactly the consecutive jumps above 10**6 |
| TrainingTheorems.TrainAbort | train_flow.py:102-105 | the abort is recorded once, at the last step; without it every batch was consumed |
| TrainingTheorems.TrainValRecords | train_flow.py:162-166 | best saves are the records of the validation losses and `min_val_loss` is their running minimum from 0 |
| TrainingTheorems.TrainBestSaves | train_flow.py:162-166 | best saves are below 0 and strictly decreasing, and the final `min_val_loss` is the last of them or 0 |
| TrainingTheorems.TrainValidations | train_flow.py:133 | validation runs exactly in the scheduled epochs among those entered: all of them, or up to the aborting one |
| TrainingWindows.LastLogPointExact | train_flow.py:100 | the last log point at or before a step is a multiple of the period (or the start step) and no multiple lies after it up to that step |
| TrainingWindows.WindowMeansAtLogPoints | train_flow.py:95-130 | the reference description has one entry per log point, each the Keras mean of the losses of the steps after the previous log point (or the start) up to that one |
| TrainingWindows.WindowRunMean | train_flow.py:95-130 | the window fed every loss and reset after each logging point holds the Keras mean of the losses since the last log point |
| TrainingWindows.WindowRunLogged | train_flow.py:95-130 | the values the window logs are the reference per-log-point means |
| TrainingWindows.BatchStepWindowInv | train_flow.py:93-130 | one batch keeps the window invariant: the window is the running window over the consumed losses and the logged values are its logs (the aborting loss enters the window but is never logged) |
| TrainingWindows.RunBatchesWindowInv | train_flow.py:93-130 | a batch loop, with its abort `break`, keeps the window invariant over the losses it consumed |
| TrainingWindows.EpochStepWindowInv | train_flow.py:87-166 | one epoch keeps the window invariant over the losses consumed so far: resetting the epoch mean and validating leave the window alone |
| TrainingWindows.RunEpochsWindowInv | train_flow.py:87-166 | after any number of epochs the window invariant holds over the flattened training losses consumed; the window is not reset at an epoch start |
| TrainingWindows.TrainLoggedMeans | train_flow.py:72-171 | `loss_history` is the reference per-log-point means over the flattened training losses consumed, without the aborting loss after an abort |
| TrainingWindows.TrainLoggedMeansAtLogPoints | train_flow.py:95-130 | the i-th entry of `loss_history` is the Keras mean of the training losses of the steps after the (i-1)-th log point up to the i-th, counted across epochs |
| PathStrings.IntRoundTrip | train_flow.py:200-204 | `str` on an int parses back to the same int |
| PathStrings.BasenameIsLastComponent | train_flow.py:189 | `os.path.split(p)[-1]` has no separator, ends the path and follows its last separator |
| PathStrings.BasenameOfJoin | train_flow.py:211 | a separator-free name joined under a directory is the joined path's last component |
| PathStrings.BasenameOfAbsJoin | train_noise_conditionned_models.py:68-72 | a non-empty name joined under a relative directory stays the last component after `abspath` |
| PathStrings.AbsPathIgnoresTrailingSeparator | train_flow.py:186 | `abspath` gives the same path with or without a trailing separator on its argument |
| PathStrings.StripTrailingRemovesSeparators | train_flow.py:186 | `abspath` drops nothing from the end of a path but separators |
| PathStrings.SplitFirstFieldOfJoin | train_flow.py:200 | a `_`-free word joined by `_` to the rest splits back into the word and the rest |
| PathStrings.SplitFirstFieldJoins | train_flow.py:200 | a split at the first `_` is a `_`-free word and a rest that join back to the input |
| DirNames.FieldsRoundTrip | train_flow.py:200-204 | the `_`-joined numeric fields of a directory name decode back to the prefix and the numbers |
| DirNames.DirnameRoundTrip | train_flow.py:200-209 | a directory name decodes back to its prefix, its four hyperparameters, the logit flag and the restore flag |
| DirNames.DirnameSuffixes | train_flow.py:206-209 | the name ends in `_ctd` iff restoring, and otherwise ends in `_logit` iff logit preprocessing is used |
| DirNames.DirnameHasNoSeparator | train_flow.py:200-209 | a name built from separator-free parts is a single path component |
| RunConfig.SettingsConsistent | train_flow.py:176-189 | image type, glow preprocessing and instrument all say the same thing (one of the two image sets or a spectrogram directory); only cifar10 has 3 channels; a spectrogram dataset becomes an absolute path ending in the instrument |
| RunConfig.NameUnderDefault | train_flow.py:194-211 | with the default output and a known model, the directory is `trained_flow/<name>` with a single-component name |
| RunConfig.DefaultOutputDecodes | train_flow.py:194-211 | the default output directory's last component decodes back to the family's four hyperparameters, the logit flag, the restore flag and a prefix that splits at its first `_` into the model word and the dataset word |
| RunConfig.ModelWordHasNoSeparator | train_flow.py:199-204 | the model words that name a directory contain no `_` |
| RunConfig.TrailingSeparatorKeepsSettings | train_flow.py:184-189 | for a spectrogram directory, a trailing separator changes neither the dataset path nor the instrument |
| RunConfig.InstrumentOfTrailingSeparator | train_flow.py:184-189 | a dataset given as `dir/name/` names the instrument `name` |
| RunConfig.OutputDirpathSuffixes | train_flow.py:194-213 | a non-default output is used verbatim; an unknown model under the default output fails on the unbound name; otherwise `_ctd` marks restoring and `_logit` marks logit runs |
| RunConfig.MainFailures | train_flow.py:194-291 | among the modelled checks, `main` fails iff the model is unknown or a restore check fails; an unknown model fails first, as the unbound name under the default output or as the dispatch ValueError otherwise |
| RunConfig.MainPlan | train_flow.py:235-291 | a successful configuration picks the family named, skips loader preprocessing only for Flow++, evaluates image sets in batches of 5000 and spectrograms in training-sized batches, and restores from the latest checkpoint or the absolute path, with a positive iteration count |
| NoiseConditioned.OptimizerDispatch | train_noise_conditionned_models.py:17-27 | only `adam` and `adamax` are accepted; both keep the learning rate; Adam keeps the clip settings and Adamax ignores them |
| NoiseConditioned.GlowName | train_noise_conditionned_models.py:65-67 | the script's literal concatenation is the shared naming rule for a glow run without suffixes |
| NoiseConditioned.DefaultOutputBasename | train_noise_conditionned_models.py:64-72 | under the default output, the absolute directory's last component is the glow run name |
| NoiseConditioned.OutputDirpathDecodes | train_noise_conditionned_models.py:64-72 | the default directory decodes back to dataset and the four hyperparameters; any other output is only made absolute |
| NoiseConditioned.GlowNameDecodes | train_noise_conditionned_models.py:65-67 | a glow run's name decodes to `glow`, the dataset word and its fields |
| NoiseConditioned.TrainNoiseLevels | train_noise_conditionned_models.py:114-159 | the `for sigma` loop as intended (with the arguments `train` reads supplied) produces the reference schedule, each level trained by `train` from the restored step on that level's data without an issues manager, and leaves `args.noise` at the last sigma |
| NoiseConditioned.ScheduleLayout | train_noise_conditionned_models.py:114-159 | the schedule has four steps per noise level: each level, in order, restores from the same path, sets that level's noise, trains to that level's outcome, then saves |
| NoiseConditioned.LevelsNeverJumpAndSaveTwice | train_noise_conditionned_models.py:153-159 | in the intended schedule, no noise level makes a jump save (no issues manager) and each ends with two saves in a row |
| NoiseConditioned.FirstMissing | train_flow.py:59-85 | the first attribute `train` reads that `args` lacks, if any: every earlier read succeeds |
| NoiseConditioned.FirstLevelCrashes | train_noise_conditionned_models.py:165-210 | with the attributes the parser defines, the first level restores, sets its noise and stops at `args.img_type`, while the intended schedule saves after every level |
| NoiseConditioned.AsWrittenFollowsSchedule | train_noise_conditionned_models.py:130-159 | the loop as written agrees with the intended schedule up to its crash, which comes before the first level's save |
| Evaluation.ShapesAgree | evaluate_flow.py:55-56 | the base shape (7,7,16) has as many elements as the data shape [28,28,1], namely D, and is two 2x2 squeezes of it |
| Evaluation.CorrectionBounds | evaluate_flow.py:100 | the logit correction of an example lies in [0, n/4] for n input values, and is positive when n > 0 |
| Evaluation.BitsPerPixelMonotone | evaluate_flow.py:104 | bits per pixel strictly decrease as the log-likelihood grows, and multiplying back by `D ln 2` recovers it |
| Evaluation.NllFromLoss | evaluate_flow.py:97-107 | a batch's NLL is its raw loss minus the dequantization constant, plus the mean logit correction when logit preprocessing is on |
| Evaluation.BitsFromNll | evaluate_flow.py:104-108 | a batch's bits per pixel are its NLL divided by `D ln 2` |
| Evaluation.LogitCorrectionRaisesNll | evaluate_flow.py:98-100 | with logit preprocessing, the NLL exceeds the shifted loss by more than 0 and at most a quarter of the input size |
| Evaluation.AverageAffine | evaluate_flow.py:106-108 | the batch mean of shifted values is the shifted mean, and of scaled values the scaled mean |
| Evaluation.Evaluate | evaluate_flow.py:112-134 | each train metric accumulates exactly the per-batch averages over `ds`, each test metric those over `ds_val` |
| Evaluation.ReportedMeans | evaluate_flow.py:112-134 | the six reported values, in order, are the unweighted means of the per-batch averages of their pass; reported bits per pixel equal the reported NLL over `D ln 2` |
| Evaluation.PassBitsAreNll | evaluate_flow.py:104-132 | over a whole pass, the mean bits per pixel is the mean NLL over `D ln 2` |

## Findings

| source | as written | input that shows it | evidently intended | confidence | as-written member | corrected member |
|---|---|---|---|---|---|---|
| train_noise_conditionned_models.py:165-210, train_flow.py:59 | the parser defines no `img_type`, `data_shape`, `sampling_rate`, `fmin`, `fmax` or `n_train`, all of which `train` reads; `train` returns `(training_time, save_path)`, which line 153 binds to one name and line 155 passes to `np.round` | any run with at least one sigma: the first level restores, sets `args.noise`, then `args.img_type` raises AttributeError, so nothing is trained or saved | every level restores, sets its noise, trains and saves | not executed; the second error (`np.round` of a pair holding a string) would only be reached once the first is fixed | NoiseConditioned.FirstLevelCrashes | NoiseConditioned.TrainNoiseLevels |

## Left out

- TensorFlow and TensorFlow Probability are left out. This covers `flow.log_prob`, sampling,
  gradient steps and `tf.function`. Their results are inputs: per-batch losses and
  log-densities.
- `MirroredStrategy` replication and the reduction of per-replica losses are left out.
  Each reduced loss is one input value.
- The bijectors and the flow builders in `flow_models` are not part of this model.
  `train_utils`, which supplies `train_flow.py`'s own `setUp_optimizer` and checkpoint
  helpers, is not part of this model either.
- Data loading (`pipeline/data_loader.py`, `load_data` in `evaluate_flow.py`) is left out.
  Dataset passes are given sequences of batches.
- Checkpoint writing and reading, `mkdir`/`chdir`, log files, TensorBoard summaries, sample
  images, printing and timing are left out. Saves and restores are events. The file
  system's answers are parameters:
  - `cwd`;
  - the latest checkpoint found;
  - the iteration count after a restore.
- `status.assert_existing_objects_matched()` is left out: it depends on checkpoint contents.
- Floating-point rounding and overflow are left out. Losses are exact extended reals, and
  the evaluation metrics are exact reals.
- The evaluation has no NaN/Inf marker. `log` of a non-positive argument is whatever the
  `ln` parameter returns.
- The sigma schedules built with `np.linspace`, and the `round(sigma, 2)` subdirectory
  names, are left out. The sigmas are a given sequence. `--n_sigmas` is parsed as a float,
  which recent NumPy versions reject as the `num` of `linspace`; that is not modelled.
- `TrainingLoop.Train`: the logging period `n_train // (batch_size * 10)` must be positive.
  The source raises `ZeroDivisionError` when it is 0, and the model does not cover that
  case.
- `TrainingLoop.Train`: the number of epochs is the number of epoch inputs. A negative
  `n_epochs` behaves like 0.
- `TrainingLoop.Train`: `n_train` is an input. `main` never sets it for mnist and cifar10.
  The noise-conditioned script never sets it, nor `img_type` or `data_shape`, which
  `train` also reads.
- `NoiseConditioned.TrainNoiseLevels`: models the loop as evidently intended, with the
  arguments `train` reads supplied and the returned pair unpacked. As written, the script
  stops on its first level (see Findings, `NoiseConditioned.ScheduleAsWritten`).
- `NoiseConditioned.TrainNoiseLevels`: each level's training starts from one given step
  count. This assumes the per-level restore resets the shared optimizer's iteration count.
- `PathStrings.AbsPath`: of `normpath`, only the removal of trailing separators is modelled.
  `..`, `.` and repeated inner separators are not collapsed, and a leading `//` becomes `/`.
- `RunConfig.MainFailures`: the failures it lists are those of the modelled checks. An
  exception from `setUp_optimizer` (train_flow.py:275), an `os.mkdir` error other than an
  existing directory (train_flow.py:214-215) and a failed
  `assert_existing_objects_matched` (train_flow.py:290) can also end `main`.
- `Evaluation.EvalStep`: batches are non-empty. `reduce_mean` over an empty batch gives NaN
  in TensorFlow, and the model does not cover that case.
- The `Mean` metric is a value that is replaced, not an object updated in place. The loops
  reassign it, which has the same observable effect, because no metric object is shared.
- Command-line parsing, printing the parameter template, `evaluate_ncsn.py`,
  `profile_basis_ncsn.py` and `mnist_train_tfp.py` are left out.
