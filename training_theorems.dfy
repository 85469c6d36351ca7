/**
 * End-to-end guarantees of `train` (train_flow.py): what the whole run's
 * outcome and event trace satisfy, for every stream of losses.
 */
module TrainingTheorems {
  import opened Wrappers
  import opened ExtReals
  import opened TrainingLoop
  import opened TrainingTrace

  /** Number of training batches offered over all epochs. */
  function TotalBatches(eps: seq<Epoch>): nat
    decreases |eps|
  {
    if |eps| == 0 then 0 else TotalBatches(eps[..|eps| - 1]) + |eps[|eps| - 1].train|
  }

  /** The step counter grows by one per consumed batch; the loop leaves early only on a NaN/Inf loss seen
      at a log point, and every earlier log point saw a finite loss. The epoch mean covers exactly
      the consumed batches. */
  lemma RunBatchesProgress(sc: Schedule, s: State, losses: seq<ExtReal>)
    requires sc.period > 0 && !s.aborted
    ensures var r := RunBatches(sc, s, losses);
      var consumed := r.step - s.step;
      && 0 <= consumed <= |losses|
      && (!r.aborted ==> consumed == |losses|)
      && (r.aborted ==> consumed > 0 && IsLogPoint(sc.period, r.step) && IsNanOrInf(losses[consumed - 1]))
      && (forall j :: 0 <= j < consumed && (j < consumed - 1 || !r.aborted) ==>
            !(IsLogPoint(sc.period, s.step + j + 1) && IsNanOrInf(losses[j])))
      && r.epochAvg == s.epochAvg.UpdateAll(losses[..consumed])
      && r.minVal == s.minVal
  {
    RunBatchesCount(sc, s, losses);
    RunBatchesClean(sc, s, losses);
    RunBatchesEpochMean(sc, s, losses);
  }

  /** The counters one batch step moves, whichever branch it takes. */
  lemma BatchStepCounters(sc: Schedule, s: State, loss: ExtReal)
    requires sc.period > 0 && !s.aborted
    ensures var r := BatchStep(sc, s, loss);
      && r.step == s.step + 1
      && r.epochAvg == s.epochAvg.Update(loss)
      && r.minVal == s.minVal
      && (r.aborted <==> IsLogPoint(sc.period, s.step + 1) && IsNanOrInf(loss))
  {
  }

  lemma {:induction false} RunBatchesCount(sc: Schedule, s: State, losses: seq<ExtReal>)
    requires sc.period > 0 && !s.aborted
    ensures var r := RunBatches(sc, s, losses);
      var consumed := r.step - s.step;
      && 0 <= consumed <= |losses|
      && (!r.aborted ==> consumed == |losses|)
      && (r.aborted ==> consumed > 0 && IsLogPoint(sc.period, r.step) && IsNanOrInf(losses[consumed - 1]))
      && r.minVal == s.minVal
    decreases |losses|
  {
    if |losses| > 0 {
      var n := |losses|;
      var init := losses[..n - 1];
      RunBatchesCount(sc, s, init);
      var p := RunBatches(sc, s, init);
      if p.aborted {
        assert RunBatches(sc, s, losses) == p;
        assert losses[p.step - s.step - 1] == init[p.step - s.step - 1];
      } else {
        assert RunBatches(sc, s, losses) == BatchStep(sc, p, losses[n - 1]);
        BatchStepCounters(sc, p, losses[n - 1]);
      }
    }
  }

  lemma {:induction false} RunBatchesClean(sc: Schedule, s: State, losses: seq<ExtReal>)
    requires sc.period > 0 && !s.aborted
    ensures var r := RunBatches(sc, s, losses);
      var consumed := r.step - s.step;
      forall j :: 0 <= j < consumed && j < |losses| && (j < consumed - 1 || !r.aborted) ==>
        !(IsLogPoint(sc.period, s.step + j + 1) && IsNanOrInf(losses[j]))
    decreases |losses|
  {
    if |losses| > 0 {
      var n := |losses|;
      var init := losses[..n - 1];
      RunBatchesClean(sc, s, init);
      RunBatchesCount(sc, s, init);
      var p := RunBatches(sc, s, init);
      if !p.aborted {
        assert RunBatches(sc, s, losses) == BatchStep(sc, p, losses[n - 1]);
        BatchStepCounters(sc, p, losses[n - 1]);
        forall j | 0 <= j < n - 1 ensures losses[j] == init[j] { }
      } else {
        assert RunBatches(sc, s, losses) == p;
        forall j | 0 <= j < p.step - s.step ensures losses[j] == init[j] { }
      }
    }
  }

  lemma {:induction false} RunBatchesEpochMean(sc: Schedule, s: State, losses: seq<ExtReal>)
    requires sc.period > 0 && !s.aborted
    ensures s.step <= RunBatches(sc, s, losses).step <= s.step + |losses|
    ensures var r := RunBatches(sc, s, losses);
      r.epochAvg == s.epochAvg.UpdateAll(losses[..r.step - s.step])
    decreases |losses|
  {
    if |losses| > 0 {
      var n := |losses|;
      var init := losses[..n - 1];
      RunBatchesEpochMean(sc, s, init);
      var p := RunBatches(sc, s, init);
      var r := RunBatches(sc, s, losses);
      if p.aborted {
        assert r == p;
        assert losses[..p.step - s.step] == init[..p.step - s.step];
      } else {
        RunBatchesCount(sc, s, init);
        assert r == BatchStep(sc, p, losses[n - 1]);
        BatchStepCounters(sc, p, losses[n - 1]);
        assert init[..n - 1] == init;
        assert p.epochAvg == s.epochAvg.UpdateAll(init);
        assert s.epochAvg.UpdateAll(losses) == s.epochAvg.UpdateAll(init).Update(losses[n - 1]);
        assert r.step - s.step == n;
        assert losses[..n] == losses;
      }
    }
  }

  /** The NaN/Inf check runs only at log points: an epoch's batch loop aborts exactly when some
      batch whose step is a log point has a NaN or infinite loss. */
  lemma BatchesAbortIff(sc: Schedule, s: State, losses: seq<ExtReal>)
    requires sc.period > 0 && !s.aborted
    ensures RunBatches(sc, s, losses).aborted <==>
      exists j :: 0 <= j < |losses| && IsLogPoint(sc.period, s.step + j + 1) && IsNanOrInf(losses[j])
  {
    RunBatchesProgress(sc, s, losses);
    var r := RunBatches(sc, s, losses);
    if r.aborted {
      var j := r.step - s.step - 1;
      assert IsLogPoint(sc.period, s.step + j + 1) && IsNanOrInf(losses[j]);
    }
  }

  lemma AbortedRunStaysAborted(sc: Schedule, s: State, eps: seq<Epoch>, k: nat)
    requires sc.period > 0 && k <= |eps|
    requires RunEpochs(sc, s, eps[..k]).aborted
    ensures RunEpochs(sc, s, eps).aborted
    ensures RunEpochs(sc, s, eps).step == RunEpochs(sc, s, eps[..k]).step
    ensures RunEpochs(sc, s, eps).trace == RunEpochs(sc, s, eps[..k]).trace
  {
    if k < |eps| {
      AbortedEpochsAreIdle(sc, s, eps, k);
    } else {
      assert eps[..k] == eps;
    }
  }

  /** Without an abort, the counter ends at the start value plus the number of batches. */
  lemma {:induction false} StepsWithoutAbort(sc: Schedule, s: State, eps: seq<Epoch>)
    requires sc.period > 0 && !s.aborted
    requires !RunEpochs(sc, s, eps).aborted
    ensures RunEpochs(sc, s, eps).step == s.step + TotalBatches(eps)
    decreases |eps|
  {
    if |eps| > 0 {
      var init := eps[..|eps| - 1];
      var p := RunEpochs(sc, s, init);
      assert !p.aborted;
      StepsWithoutAbort(sc, s, init);
      var q := p.(epochAvg := Fresh);
      RunBatchesProgress(sc, q, eps[|eps| - 1].train);
    }
  }

  /** The epoch in which training aborts is still entered (its validation block runs if scheduled),
      and it is the last one entered. */
  lemma {:induction false} AbortEpochIsLastEntered(sc: Schedule, s: State, eps: seq<Epoch>, k: nat)
    requires sc.period > 0 && 0 < k <= |eps|
    requires RunEpochs(sc, s, eps[..k]).aborted && !RunEpochs(sc, s, eps[..k - 1]).aborted
    ensures EpochsEntered(sc, s, eps) == k
    decreases |eps|
  {
    var init := eps[..|eps| - 1];
    if k < |eps| {
      assert init[..k] == eps[..k] && init[..k - 1] == eps[..k - 1];
      AbortEpochIsLastEntered(sc, s, init, k);
      AbortedRunStaysAborted(sc, s, init, k);
    } else {
      assert init == eps[..k - 1];
    }
  }

  /** The line printed by the validation block of a non-aborted epoch reports the mean loss of the
      batches that epoch consumed and the mean of its validation losses. */
  lemma EpochReport(sc: Schedule, s: State, epoch: nat, data: Epoch)
    requires sc.period > 0 && !s.aborted && ValidatesAt(sc.nEpochs, epoch)
    ensures s.step <= RunBatches(sc, s.(epochAvg := Fresh), data.train).step <= s.step + |data.train|
    ensures var b := RunBatches(sc, s.(epochAvg := Fresh), data.train);
      var r := EpochStep(sc, s, epoch, data);
      && |b.trace| < |r.trace| && r.trace[..|b.trace|] == b.trace
      && r.trace[|b.trace|] == Validate(epoch, Fresh.UpdateAll(data.train[..b.step - s.step]).Result(),
                                          Fresh.UpdateAll(data.val).Result())
  {
    var q := s.(epochAvg := Fresh);
    RunBatchesEpochMean(sc, q, data.train);
    var b := RunBatches(sc, q, data.train);
    var r := EpochStep(sc, s, epoch, data);
    var v := Fresh.UpdateAll(data.val).Result();
    var validated := b.trace + [Validate(epoch, b.epochAvg.Result(), v)];
    assert r == Validation(sc, b, epoch, data.val);
    assert r.trace == validated || r.trace == validated + [BestSave(epoch, v)];
    assert validated[..|b.trace|] == b.trace;
    assert (validated + [BestSave(epoch, v)])[..|b.trace|] == b.trace;
  }

  lemma FinalSaveSnoc(t: seq<Event>)
    ensures LogPoints(t + [FinalSave]) == LogPoints(t) && Logs(t + [FinalSave]) == Logs(t)
    ensures LogMeans(t + [FinalSave]) == LogMeans(t) && Jumps(t + [FinalSave]) == Jumps(t)
    ensures Aborts(t + [FinalSave]) == Aborts(t) && ValEpochs(t + [FinalSave]) == ValEpochs(t)
    ensures ValLosses(t + [FinalSave]) == ValLosses(t) && Bests(t + [FinalSave]) == Bests(t)
    ensures Finals(t + [FinalSave]) == Finals(t) + [true]
  {
    assert (t + [FinalSave])[..|t|] == t;
  }

  /** The trace of a whole run satisfies the loop invariant, and ends with the final save. */
  lemma TrainInv(startStep: nat, nTrain: nat, batchSize: nat, withIssuesManager: bool, epochs: seq<Epoch>)
    requires batchSize > 0 && LogPeriod(nTrain, batchSize) > 0
    ensures var sc := ScheduleOf(startStep, nTrain, batchSize, withIssuesManager, |epochs|);
      var s := RunEpochs(sc, Start(startStep), epochs);
      var out := Train(startStep, nTrain, batchSize, withIssuesManager, epochs);
      && Inv(sc, s, EpochsEntered(sc, Start(startStep), epochs))
      && (!s.aborted ==> EpochsEntered(sc, Start(startStep), epochs) == |epochs|)
      && out.events == s.trace + [FinalSave]
  {
    var sc := ScheduleOf(startStep, nTrain, batchSize, withIssuesManager, |epochs|);
    RunEpochsInv(sc, epochs);
    FinalSaveSnoc(RunEpochs(sc, Start(startStep), epochs).trace);
  }

  /** Exactly one final save happens, as the last event, whether or not training aborted. */
  lemma TrainSavesOnceAtEnd(startStep: nat, nTrain: nat, batchSize: nat, withIssuesManager: bool, epochs: seq<Epoch>)
    requires batchSize > 0 && LogPeriod(nTrain, batchSize) > 0
    ensures var out := Train(startStep, nTrain, batchSize, withIssuesManager, epochs);
      |out.events| > 0 && out.events[|out.events| - 1] == FinalSave && Finals(out.events) == [true]
  {
    TrainInv(startStep, nTrain, batchSize, withIssuesManager, epochs);
    var sc := ScheduleOf(startStep, nTrain, batchSize, withIssuesManager, |epochs|);
    FinalSaveSnoc(RunEpochs(sc, Start(startStep), epochs).trace);
  }

  /** Log points are exactly the steps after the start, up to the last step, that are multiples of
      `n_train // (batch_size * 10)`; the loss history holds the mean logged at each. */
  lemma TrainLogPoints(startStep: nat, nTrain: nat, batchSize: nat, withIssuesManager: bool, epochs: seq<Epoch>)
    requires batchSize > 0 && LogPeriod(nTrain, batchSize) > 0
    ensures var out := Train(startStep, nTrain, batchSize, withIssuesManager, epochs);
      && startStep <= out.steps
      && (forall k :: k in LogPoints(out.events) <==>
            startStep < k <= out.steps && k % LogPeriod(nTrain, batchSize) == 0)
      && out.lossHistory == LogMeans(out.events)
  {
    TrainInv(startStep, nTrain, batchSize, withIssuesManager, epochs);
    var sc := ScheduleOf(startStep, nTrain, batchSize, withIssuesManager, |epochs|);
    FinalSaveSnoc(RunEpochs(sc, Start(startStep), epochs).trace);
    var out := Train(startStep, nTrain, batchSize, withIssuesManager, epochs);
    MultiplesExact(startStep, out.steps, sc.period);
  }

  /** Defensive saves: none without an issues manager; with one, exactly at the logged means that
      exceed the previously logged mean by more than 10**6. */
  lemma TrainJumpSaves(startStep: nat, nTrain: nat, batchSize: nat, withIssuesManager: bool, epochs: seq<Epoch>)
    requires batchSize > 0 && LogPeriod(nTrain, batchSize) > 0
    ensures var out := Train(startStep, nTrain, batchSize, withIssuesManager, epochs);
      var logs := Logs(out.events);
      && (!withIssuesManager ==> Jumps(out.events) == [])
      && (withIssuesManager ==> forall k :: k in Jumps(out.events) <==>
            exists i :: 1 <= i < |logs| && logs[i].0 == k && Less(Fin(JumpThreshold), Sub(logs[i].1, logs[i - 1].1)))
  {
    TrainInv(startStep, nTrain, batchSize, withIssuesManager, epochs);
    var sc := ScheduleOf(startStep, nTrain, batchSize, withIssuesManager, |epochs|);
    FinalSaveSnoc(RunEpochs(sc, Start(startStep), epochs).trace);
    ExpectedJumpsExact(Logs(Train(startStep, nTrain, batchSize, withIssuesManager, epochs).events));
  }

  /** An abort is recorded once, at the last step; without one every batch was consumed. */
  lemma TrainAbort(startStep: nat, nTrain: nat, batchSize: nat, withIssuesManager: bool, epochs: seq<Epoch>)
    requires batchSize > 0 && LogPeriod(nTrain, batchSize) > 0
    ensures var out := Train(startStep, nTrain, batchSize, withIssuesManager, epochs);
      && Aborts(out.events) == (if out.aborted then [out.steps] else [])
      && (!out.aborted ==> out.steps == startStep + TotalBatches(epochs))
  {
    TrainInv(startStep, nTrain, batchSize, withIssuesManager, epochs);
    var sc := ScheduleOf(startStep, nTrain, batchSize, withIssuesManager, |epochs|);
    FinalSaveSnoc(RunEpochs(sc, Start(startStep), epochs).trace);
    if !RunEpochs(sc, Start(startStep), epochs).aborted {
      StepsWithoutAbort(sc, Start(startStep), epochs);
    }
  }

  lemma TrainValRecords(startStep: nat, nTrain: nat, batchSize: nat, withIssuesManager: bool, epochs: seq<Epoch>)
    requires batchSize > 0 && LogPeriod(nTrain, batchSize) > 0
    ensures var out := Train(startStep, nTrain, batchSize, withIssuesManager, epochs);
      && Bests(out.events) == ExpectedBest(ValLosses(out.events))
      && out.minValLoss == RunningMin(ValLosses(out.events))
  {
    TrainInv(startStep, nTrain, batchSize, withIssuesManager, epochs);
    var sc := ScheduleOf(startStep, nTrain, batchSize, withIssuesManager, |epochs|);
    FinalSaveSnoc(RunEpochs(sc, Start(startStep), epochs).trace);
  }

  /** Best-model saves are exactly the validation losses strictly below every earlier one and below
      the initial 0; `min_val_loss` ends as the last of them, or 0. */
  lemma TrainBestSaves(startStep: nat, nTrain: nat, batchSize: nat, withIssuesManager: bool, epochs: seq<Epoch>)
    requires batchSize > 0 && LogPeriod(nTrain, batchSize) > 0
    ensures var out := Train(startStep, nTrain, batchSize, withIssuesManager, epochs);
      var best := Bests(out.events);
      && best == ExpectedBest(ValLosses(out.events))
      && (forall i :: 0 <= i < |best| ==> Less(best[i], Fin(0.0)))
      && (forall i, j :: 0 <= i < j < |best| ==> Less(best[j], best[i]))
      && out.minValLoss == (if |best| == 0 then Fin(0.0) else best[|best| - 1])
  {
    TrainValRecords(startStep, nTrain, batchSize, withIssuesManager, epochs);
    RecordsDecrease(ValLosses(Train(startStep, nTrain, batchSize, withIssuesManager, epochs).events));
  }

  /** Validation runs in exactly the scheduled epochs among those entered: all of them without an
      abort, and up to and including the aborting epoch otherwise. */
  lemma TrainValidations(startStep: nat, nTrain: nat, batchSize: nat, withIssuesManager: bool, epochs: seq<Epoch>)
    requires batchSize > 0 && LogPeriod(nTrain, batchSize) > 0
    ensures var out := Train(startStep, nTrain, batchSize, withIssuesManager, epochs);
      var sc := ScheduleOf(startStep, nTrain, batchSize, withIssuesManager, |epochs|);
      var entered := EpochsEntered(sc, Start(startStep), epochs);
      && entered <= |epochs|
      && (!out.aborted ==> entered == |epochs|)
      && forall e :: e in ValEpochs(out.events) <==> 1 <= e <= entered && ValidatesAt(|epochs|, e)
  {
    TrainInv(startStep, nTrain, batchSize, withIssuesManager, epochs);
    var sc := ScheduleOf(startStep, nTrain, batchSize, withIssuesManager, |epochs|);
    FinalSaveSnoc(RunEpochs(sc, Start(startStep), epochs).trace);
    EnteredBound(sc, Start(startStep), epochs);
    ValidationScheduleExact(|epochs|, EpochsEntered(sc, Start(startStep), epochs));
  }

  lemma {:induction false} EnteredBound(sc: Schedule, s: State, eps: seq<Epoch>)
    requires sc.period > 0
    ensures EpochsEntered(sc, s, eps) <= |eps|
    decreases |eps|
  {
    if |eps| > 0 {
      EnteredBound(sc, s, eps[..|eps| - 1]);
    }
  }
}
