/**
 * The control policy of `train` in train_flow.py: a stream of per-batch
 * training losses and per-epoch validation losses drives a step counter,
 * a windowed loss mean, a per-epoch loss mean, the previous window mean, an
 * abort flag and the best validation loss, and produces a trace of events
 * (log points, abort, checkpoint saves, validations).
 *
 * `RunEpochs` / `RunBatches` are the reference definition, one epoch or one
 * batch at a time; `TrainLoop` is the loop of the source, proved to compute
 * exactly `Train`. The lemmas state the policy's guarantees about `Train`.
 */
module TrainingLoop {
  import opened Wrappers
  import opened ExtReals

  /** Number of window means logged per epoch (`loss_per_epoch`). */
  const LossPerEpoch: nat := 10

  /** A window mean exceeding the previous one by more than this triggers a defensive save. */
  const JumpThreshold: real := 1000000.0

  /** `n_train // (batch_size * loss_per_epoch)`: batches between two log points. */
  function LogPeriod(nTrain: nat, batchSize: nat): nat
    requires batchSize > 0
  {
    nTrain / (batchSize * LossPerEpoch)
  }

  /** `count_step % (n_train // (batch_size * loss_per_epoch)) == 0` */
  predicate IsLogPoint(period: nat, step: nat)
    requires period > 0
  {
    step % period == 0
  }

  /** `(N_EPOCHS < 100) or (epoch % (N_EPOCHS // 100) == 0)` */
  predicate ValidatesAt(nEpochs: nat, epoch: nat) {
    nEpochs < 100 || epoch % (nEpochs / 100) == 0
  }

  /** What one epoch consumes: the losses of its training batches and of its validation batches. */
  datatype Epoch = Epoch(train: seq<ExtReal>, val: seq<ExtReal>)

  datatype Event =
    | Log(step: nat, mean: ExtReal)                          // window mean appended to loss_history
    | Abort(step: nat)                                        // NaN/Inf loss found at a log point
    | JumpSave(step: nat)                                     // manager_issues.save()
    | Validate(epoch: nat, trainLoss: ExtReal, valLoss: ExtReal)
    | BestSave(epoch: nat, valLoss: ExtReal)                  // manager.save() on a new best
    | FinalSave                                               // manager.save() after the epoch loop

  /** The fixed parameters of one run. */
  datatype Schedule = Schedule(startStep: nat, period: nat, issues: bool, nEpochs: nat)

  /** The loop's variables: count_step, history_loss_avg, epoch_loss_avg,
      prev_history_loss_avg, is_nan_loss, min_val_loss, loss_history, and the events so far. */
  datatype State = State(step: nat, window: Mean, epochAvg: Mean, prev: Option<ExtReal>,
                         aborted: bool, minVal: ExtReal, history: seq<ExtReal>, trace: seq<Event>)

  datatype Outcome = Outcome(steps: nat, minValLoss: ExtReal, aborted: bool,
                             lossHistory: seq<ExtReal>, events: seq<Event>)

  function Start(startStep: nat): State {
    State(startStep, Fresh, Fresh, None, false, Fin(0.0), [], [])
  }

  /** One iteration of the batch loop, for a state that has not aborted. */
  function BatchStep(sc: Schedule, s: State, loss: ExtReal): State
    requires sc.period > 0
  {
    var window := s.window.Update(loss);
    var epochAvg := s.epochAvg.Update(loss);
    var step := s.step + 1;
    if !IsLogPoint(sc.period, step) then
      s.(step := step, window := window, epochAvg := epochAvg)
    else if IsNanOrInf(loss) then
      s.(step := step, window := window, epochAvg := epochAvg, aborted := true,
         trace := s.trace + [Abort(step)])
    else
      var curr := window.Result();
      var logged := s.trace + [Log(step, curr)];
      var jump := sc.issues && s.prev.Some? && Less(Fin(JumpThreshold), Sub(curr, s.prev.value));
      State(step, Fresh, epochAvg, if sc.issues then Some(curr) else s.prev, false, s.minVal,
            s.history + [curr], if jump then logged + [JumpSave(step)] else logged)
  }

  /** The batch loop over `losses`, left as soon as it aborts. */
  function RunBatches(sc: Schedule, s: State, losses: seq<ExtReal>): State
    requires sc.period > 0
    decreases |losses|
  {
    if |losses| == 0 then s
    else
      var p := RunBatches(sc, s, losses[..|losses| - 1]);
      if p.aborted then p else BatchStep(sc, p, losses[|losses| - 1])
  }

  /** The validation block of epoch `epoch`, over that epoch's validation losses. */
  function Validation(sc: Schedule, s: State, epoch: nat, val: seq<ExtReal>): State {
    if !ValidatesAt(sc.nEpochs, epoch) then s
    else
      var v := Fresh.UpdateAll(val).Result();
      var validated := s.trace + [Validate(epoch, s.epochAvg.Result(), v)];
      if Less(v, s.minVal) then s.(minVal := v, trace := validated + [BestSave(epoch, v)])
      else s.(trace := validated)
  }

  /** One iteration of the epoch loop: reset the epoch mean, stop if aborted, else train and maybe validate. */
  function EpochStep(sc: Schedule, s: State, epoch: nat, data: Epoch): State
    requires sc.period > 0
  {
    var s0 := s.(epochAvg := Fresh);
    if s0.aborted then s0 else Validation(sc, RunBatches(sc, s0, data.train), epoch, data.val)
  }

  /** The epoch loop over `eps`; epoch numbers start at 1. */
  function RunEpochs(sc: Schedule, s: State, eps: seq<Epoch>): State
    requires sc.period > 0
    decreases |eps|
  {
    if |eps| == 0 then s else EpochStep(sc, RunEpochs(sc, s, eps[..|eps| - 1]), |eps|, eps[|eps| - 1])
  }

  function ScheduleOf(startStep: nat, nTrain: nat, batchSize: nat, withIssuesManager: bool, nEpochs: nat): Schedule
    requires batchSize > 0
  {
    Schedule(startStep, LogPeriod(nTrain, batchSize), withIssuesManager, nEpochs)
  }

  /** The whole of `train`: the epoch loop, then one unconditional save. */
  function Train(startStep: nat, nTrain: nat, batchSize: nat, withIssuesManager: bool, epochs: seq<Epoch>): Outcome
    requires batchSize > 0 && LogPeriod(nTrain, batchSize) > 0
  {
    var sc := ScheduleOf(startStep, nTrain, batchSize, withIssuesManager, |epochs|);
    var s := RunEpochs(sc, Start(startStep), epochs);
    Outcome(s.step, s.minVal, s.aborted, s.history, s.trace + [FinalSave])
  }

  /** Once a state has aborted, the batch loop leaves it unchanged. */
  lemma {:induction false} AbortedBatchesAreIdle(sc: Schedule, s: State, losses: seq<ExtReal>, k: nat)
    requires sc.period > 0 && k <= |losses|
    requires RunBatches(sc, s, losses[..k]).aborted
    ensures RunBatches(sc, s, losses) == RunBatches(sc, s, losses[..k])
    decreases |losses|
  {
    if k < |losses| {
      var init := losses[..|losses| - 1];
      assert init[..k] == losses[..k];
      AbortedBatchesAreIdle(sc, s, init, k);
    } else {
      assert losses[..k] == losses;
    }
  }

  /** Once a run has aborted, every later epoch only resets the (unreported) epoch mean: no later epoch trains. */
  lemma {:induction false} AbortedEpochsAreIdle(sc: Schedule, s: State, eps: seq<Epoch>, k: nat)
    requires sc.period > 0 && k < |eps|
    requires RunEpochs(sc, s, eps[..k]).aborted
    ensures RunEpochs(sc, s, eps) == RunEpochs(sc, s, eps[..k]).(epochAvg := Fresh)
    decreases |eps|
  {
    var init := eps[..|eps| - 1];
    if k < |init| {
      assert init[..k] == eps[..k];
      AbortedEpochsAreIdle(sc, s, init, k);
    } else {
      assert init == eps[..k];
    }
  }

  /** The batch loop of one epoch (`for batch in ds_dist`), left by `break` on a NaN/Inf loss at a log point. */
  method TrainEpoch(ghost sc: Schedule, period: nat, withIssuesManager: bool, batches: seq<ExtReal>, entry: State)
    returns (exit: State)
    requires sc.period == period > 0 && sc.issues == withIssuesManager && !entry.aborted
    ensures exit == RunBatches(sc, entry, batches)
    ensures exit.minVal == entry.minVal
  {
    var countStep, historyLossAvg, epochLossAvg := entry.step, entry.window, entry.epochAvg;
    var prevHistoryLossAvg, isNanLoss, lossHistory, events := entry.prev, false, entry.history, entry.trace;
    var i := 0;
    while i < |batches|
      invariant 0 <= i <= |batches|
      invariant !isNanLoss
      invariant State(countStep, historyLossAvg, epochLossAvg, prevHistoryLossAvg, isNanLoss,
                      entry.minVal, lossHistory, events) == RunBatches(sc, entry, batches[..i])
    {
      assert batches[..i + 1][..i] == batches[..i];
      var loss := batches[i];
      historyLossAvg := historyLossAvg.Update(loss);
      epochLossAvg := epochLossAvg.Update(loss);
      countStep := countStep + 1;
      if IsLogPoint(period, countStep) {
        if IsNanOrInf(loss) {
          isNanLoss := true;
          events := events + [Abort(countStep)];
          AbortedBatchesAreIdle(sc, entry, batches, i + 1);
          break;
        }
        var currLossHistory := historyLossAvg.Result();
        lossHistory := lossHistory + [currLossHistory];
        events := events + [Log(countStep, currLossHistory)];
        if withIssuesManager {
          if prevHistoryLossAvg.None? {
            prevHistoryLossAvg := Some(currLossHistory);
          } else if Less(Fin(JumpThreshold), Sub(currLossHistory, prevHistoryLossAvg.value)) {
            events := events + [JumpSave(countStep)];
          }
          prevHistoryLossAvg := Some(currLossHistory);
        }
        historyLossAvg := Fresh;
      }
      i := i + 1;
    }
    assert batches[..|batches|] == batches;
    exit := State(countStep, historyLossAvg, epochLossAvg, prevHistoryLossAvg, isNanLoss,
                  entry.minVal, lossHistory, events);
  }

  /** The validation block of one epoch: the mean test loss, and a save when it beats `min_val_loss`. */
  method ValidateEpoch(epoch: nat, epochLossAvg: Mean, val: seq<ExtReal>, minValLoss: ExtReal, events: seq<Event>)
    returns (events': seq<Event>, minValLoss': ExtReal)
    ensures var v := Fresh.UpdateAll(val).Result();
            var validated := events + [Validate(epoch, epochLossAvg.Result(), v)];
            if Less(v, minValLoss) then events' == validated + [BestSave(epoch, v)] && minValLoss' == v
            else events' == validated && minValLoss' == minValLoss
  {
    var testLoss := Fresh;
    var j := 0;
    while j < |val|
      invariant 0 <= j <= |val|
      invariant testLoss == Fresh.UpdateAll(val[..j])
    {
      UpdateAllSplit(Fresh, val, j);
      testLoss := testLoss.Update(val[j]);
      j := j + 1;
    }
    assert val[..|val|] == val;
    var currValLoss := testLoss.Result();
    events' := events + [Validate(epoch, epochLossAvg.Result(), currValLoss)];
    minValLoss' := minValLoss;
    if Less(currValLoss, minValLoss) {
      events' := events' + [BestSave(epoch, currValLoss)];
      minValLoss' := currValLoss;
    }
  }

  /** `train` itself: the nested epoch and batch loops of the source, with `break`. */
  method TrainLoop(startStep: nat, nTrain: nat, batchSize: nat, withIssuesManager: bool, epochs: seq<Epoch>)
    returns (out: Outcome)
    requires batchSize > 0 && LogPeriod(nTrain, batchSize) > 0
    ensures out == Train(startStep, nTrain, batchSize, withIssuesManager, epochs)
  {
    var nEpochs := |epochs|;
    var period := nTrain / (batchSize * LossPerEpoch);
    ghost var sc := ScheduleOf(startStep, nTrain, batchSize, withIssuesManager, nEpochs);
    var lossHistory: seq<ExtReal> := [];
    var countStep: nat := startStep;
    var minValLoss := Fin(0.0);
    var prevHistoryLossAvg: Option<ExtReal> := None;
    var isNanLoss := false;
    var historyLossAvg := Fresh;
    var epochLossAvg := Fresh;
    var events: seq<Event> := [];

    var epoch := 1;
    while epoch <= nEpochs
      invariant 1 <= epoch <= nEpochs + 1
      invariant State(countStep, historyLossAvg, epochLossAvg, prevHistoryLossAvg, isNanLoss,
                      minValLoss, lossHistory, events) == RunEpochs(sc, Start(startStep), epochs[..epoch - 1])
    {
      assert epochs[..epoch][..epoch - 1] == epochs[..epoch - 1];
      assert RunEpochs(sc, Start(startStep), epochs[..epoch])
          == EpochStep(sc, RunEpochs(sc, Start(startStep), epochs[..epoch - 1]), epoch, epochs[epoch - 1]);
      epochLossAvg := Fresh;
      if isNanLoss {
        AbortedEpochsAreIdle(sc, Start(startStep), epochs, epoch - 1);
        break;
      }
      var after := TrainEpoch(sc, period, withIssuesManager, epochs[epoch - 1].train,
                              State(countStep, historyLossAvg, epochLossAvg, prevHistoryLossAvg, isNanLoss,
                                    minValLoss, lossHistory, events));
      countStep, historyLossAvg, epochLossAvg, prevHistoryLossAvg := after.step, after.window, after.epochAvg, after.prev;
      isNanLoss, lossHistory, events := after.aborted, after.history, after.trace;
      assert after == State(countStep, historyLossAvg, epochLossAvg, prevHistoryLossAvg, isNanLoss,
                            minValLoss, lossHistory, events);

      if ValidatesAt(nEpochs, epoch) {
        events, minValLoss := ValidateEpoch(epoch, epochLossAvg, epochs[epoch - 1].val, minValLoss, events);
      }
      epoch := epoch + 1;
    }
    assert epoch <= nEpochs ==> isNanLoss;
    assert epoch > nEpochs ==> epochs[..epoch - 1] == epochs;
    events := events + [FinalSave];
    out := Outcome(countStep, minValLoss, isNanLoss, lossHistory, events);
  }
}
