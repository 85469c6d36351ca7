/**
 * What the training policy guarantees about its event trace. Each guarantee
 * is stated on a projection of the trace (the log points, the defensive
 * saves, the validations, the best-model saves, ...) and compared with an
 * independent description of what that projection must be.
 */
module TrainingTrace {
  import opened Wrappers
  import opened ExtReals
  import opened TrainingLoop

  // ---- Projections of a trace ----

  /** Steps at which a log point was reached (logged or aborted). */
  function LogPoints(t: seq<Event>): seq<nat>
    decreases |t|
  {
    if |t| == 0 then []
    else LogPoints(t[..|t| - 1]) + (var e := t[|t| - 1]; if e.Log? || e.Abort? then [e.step] else [])
  }

  /** Logged window means, with their steps. */
  function Logs(t: seq<Event>): seq<(nat, ExtReal)>
    decreases |t|
  {
    if |t| == 0 then []
    else Logs(t[..|t| - 1]) + (var e := t[|t| - 1]; if e.Log? then [(e.step, e.mean)] else [])
  }

  /** Logged window means. */
  function LogMeans(t: seq<Event>): seq<ExtReal>
    decreases |t|
  {
    if |t| == 0 then []
    else LogMeans(t[..|t| - 1]) + (var e := t[|t| - 1]; if e.Log? then [e.mean] else [])
  }

  /** Steps of the defensive saves. */
  function Jumps(t: seq<Event>): seq<nat>
    decreases |t|
  {
    if |t| == 0 then []
    else Jumps(t[..|t| - 1]) + (var e := t[|t| - 1]; if e.JumpSave? then [e.step] else [])
  }

  /** Steps at which training aborted. */
  function Aborts(t: seq<Event>): seq<nat>
    decreases |t|
  {
    if |t| == 0 then []
    else Aborts(t[..|t| - 1]) + (var e := t[|t| - 1]; if e.Abort? then [e.step] else [])
  }

  /** Epochs that ran the validation block. */
  function ValEpochs(t: seq<Event>): seq<nat>
    decreases |t|
  {
    if |t| == 0 then []
    else ValEpochs(t[..|t| - 1]) + (var e := t[|t| - 1]; if e.Validate? then [e.epoch] else [])
  }

  /** Validation losses, in order. */
  function ValLosses(t: seq<Event>): seq<ExtReal>
    decreases |t|
  {
    if |t| == 0 then []
    else ValLosses(t[..|t| - 1]) + (var e := t[|t| - 1]; if e.Validate? then [e.valLoss] else [])
  }

  /** Validation losses saved as a new best. */
  function Bests(t: seq<Event>): seq<ExtReal>
    decreases |t|
  {
    if |t| == 0 then []
    else Bests(t[..|t| - 1]) + (var e := t[|t| - 1]; if e.BestSave? then [e.valLoss] else [])
  }

  /** One entry per final save. */
  function Finals(t: seq<Event>): seq<bool>
    decreases |t|
  {
    if |t| == 0 then []
    else Finals(t[..|t| - 1]) + (var e := t[|t| - 1]; if e.FinalSave? then [true] else [])
  }

  // ---- Independent descriptions ----

  /** The steps in (lo, hi] that are multiples of p, ascending. */
  function Multiples(lo: nat, hi: nat, p: nat): seq<nat>
    requires p > 0
    decreases hi
  {
    if hi <= lo then [] else Multiples(lo, hi - 1, p) + (if hi % p == 0 then [hi] else [])
  }

  /** Steps of the logged means that exceed the mean logged just before them by more than the threshold. */
  function ExpectedJumps(logs: seq<(nat, ExtReal)>): seq<nat>
    decreases |logs|
  {
    if |logs| < 2 then []
    else
      var n := |logs|;
      ExpectedJumps(logs[..n - 1])
        + (if Less(Fin(JumpThreshold), Sub(logs[n - 1].1, logs[n - 2].1)) then [logs[n - 1].0] else [])
  }

  /** The smallest validation loss so far, starting from `min_val_loss = 0.`, under IEEE `<`. */
  function RunningMin(vs: seq<ExtReal>): ExtReal
    decreases |vs|
  {
    if |vs| == 0 then Fin(0.0)
    else
      var m := RunningMin(vs[..|vs| - 1]);
      if Less(vs[|vs| - 1], m) then vs[|vs| - 1] else m
  }

  /** The validation losses that beat every earlier one and 0: the records. */
  function ExpectedBest(vs: seq<ExtReal>): seq<ExtReal>
    decreases |vs|
  {
    if |vs| == 0 then []
    else
      var init := vs[..|vs| - 1];
      ExpectedBest(init) + (if Less(vs[|vs| - 1], RunningMin(init)) then [vs[|vs| - 1]] else [])
  }

  /** The epochs among 1..k that run the validation block. */
  function ValidationSchedule(nEpochs: nat, k: nat): seq<nat>
    decreases k
  {
    if k == 0 then [] else ValidationSchedule(nEpochs, k - 1) + (if ValidatesAt(nEpochs, k) then [k] else [])
  }

  /** Number of epochs whose body ran: all of them, or up to the one in which training aborted. */
  function EpochsEntered(sc: Schedule, s: State, eps: seq<Epoch>): nat
    requires sc.period > 0
    decreases |eps|
  {
    if |eps| == 0 then 0
    else if RunEpochs(sc, s, eps[..|eps| - 1]).aborted then EpochsEntered(sc, s, eps[..|eps| - 1])
    else |eps|
  }

  function LastMean(logs: seq<(nat, ExtReal)>): Option<ExtReal> {
    if |logs| == 0 then None else Some(logs[|logs| - 1].1)
  }

  /** What the batch loop keeps true of the log points, window means, defensive saves and the abort. */
  ghost predicate LogInv(sc: Schedule, s: State)
    requires sc.period > 0
  {
    var logs := Logs(s.trace);
    && sc.startStep <= s.step
    && LogPoints(s.trace) == Multiples(sc.startStep, s.step, sc.period)
    && s.history == LogMeans(s.trace)
    && s.prev == (if sc.issues then LastMean(logs) else None)
    && Jumps(s.trace) == (if sc.issues then ExpectedJumps(logs) else [])
    && Aborts(s.trace) == (if s.aborted then [s.step] else [])
  }

  /** What the validation blocks keep true, `validated` epochs having been entered. */
  ghost predicate ValInv(sc: Schedule, s: State, validated: nat) {
    var vals := ValLosses(s.trace);
    && s.minVal == RunningMin(vals)
    && Bests(s.trace) == ExpectedBest(vals)
    && ValEpochs(s.trace) == ValidationSchedule(sc.nEpochs, validated)
    && Finals(s.trace) == []
  }

  ghost predicate Inv(sc: Schedule, s: State, validated: nat)
    requires sc.period > 0
  {
    LogInv(sc, s) && ValInv(sc, s, validated)
  }

  /** Appending a batch-loop event adds its own contribution to the log projections. */
  lemma SnocBatchEvent(t: seq<Event>, e: Event)
    requires e.Log? || e.Abort? || e.JumpSave?
    ensures LogPoints(t + [e]) == LogPoints(t) + (if e.Log? || e.Abort? then [e.step] else [])
    ensures Logs(t + [e]) == Logs(t) + (if e.Log? then [(e.step, e.mean)] else [])
    ensures LogMeans(t + [e]) == LogMeans(t) + (if e.Log? then [e.mean] else [])
    ensures Jumps(t + [e]) == Jumps(t) + (if e.JumpSave? then [e.step] else [])
    ensures Aborts(t + [e]) == Aborts(t) + (if e.Abort? then [e.step] else [])
  {
    assert (t + [e])[..|t|] == t;
  }

  /** ... and leaves the validation projections alone. */
  lemma BatchEventKeepsVal(t: seq<Event>, e: Event)
    requires e.Log? || e.Abort? || e.JumpSave?
    ensures ValEpochs(t + [e]) == ValEpochs(t)
    ensures ValLosses(t + [e]) == ValLosses(t)
    ensures Bests(t + [e]) == Bests(t)
    ensures Finals(t + [e]) == Finals(t)
  {
    assert (t + [e])[..|t|] == t;
  }

  /** Appending a validation-block event adds its own contribution to the validation projections. */
  lemma SnocValEvent(t: seq<Event>, e: Event)
    requires e.Validate? || e.BestSave?
    ensures ValEpochs(t + [e]) == ValEpochs(t) + (if e.Validate? then [e.epoch] else [])
    ensures ValLosses(t + [e]) == ValLosses(t) + (if e.Validate? then [e.valLoss] else [])
    ensures Bests(t + [e]) == Bests(t) + (if e.BestSave? then [e.valLoss] else [])
    ensures Finals(t + [e]) == Finals(t)
  {
    assert (t + [e])[..|t|] == t;
  }

  /** ... and leaves the log projections alone. */
  lemma ValEventKeepsLog(t: seq<Event>, e: Event)
    requires e.Validate? || e.BestSave?
    ensures LogPoints(t + [e]) == LogPoints(t)
    ensures Logs(t + [e]) == Logs(t)
    ensures LogMeans(t + [e]) == LogMeans(t)
    ensures Jumps(t + [e]) == Jumps(t)
    ensures Aborts(t + [e]) == Aborts(t)
  {
    assert (t + [e])[..|t|] == t;
  }

  lemma ExpectedJumpsSnoc(logs: seq<(nat, ExtReal)>, x: (nat, ExtReal))
    ensures ExpectedJumps(logs + [x]) == ExpectedJumps(logs)
      + (if |logs| > 0 && Less(Fin(JumpThreshold), Sub(x.1, logs[|logs| - 1].1)) then [x.0] else [])
  {
    assert (logs + [x])[..|logs|] == logs;
  }

  lemma RecordsSnoc(vs: seq<ExtReal>, v: ExtReal)
    ensures RunningMin(vs + [v]) == if Less(v, RunningMin(vs)) then v else RunningMin(vs)
    ensures ExpectedBest(vs + [v]) == ExpectedBest(vs) + if Less(v, RunningMin(vs)) then [v] else []
  {
    assert (vs + [v])[..|vs|] == vs;
  }

  lemma MultiplesSnoc(lo: nat, hi: nat, p: nat)
    requires p > 0 && lo <= hi
    ensures Multiples(lo, hi + 1, p) == Multiples(lo, hi, p) + (if (hi + 1) % p == 0 then [hi + 1] else [])
  {
  }

  lemma BatchStepLogInv(sc: Schedule, s: State, loss: ExtReal)
    requires sc.period > 0 && LogInv(sc, s) && !s.aborted
    ensures LogInv(sc, BatchStep(sc, s, loss))
  {
    var step := s.step + 1;
    MultiplesSnoc(sc.startStep, s.step, sc.period);
    if !IsLogPoint(sc.period, step) {
      assert BatchStep(sc, s, loss).trace == s.trace;
    } else if IsNanOrInf(loss) {
      AbortStepLogInv(sc, s, loss);
    } else {
      LoggedStepLogInv(sc, s, loss);
    }
  }

  lemma AbortStepLogInv(sc: Schedule, s: State, loss: ExtReal)
    requires sc.period > 0 && LogInv(sc, s) && !s.aborted
    requires IsLogPoint(sc.period, s.step + 1) && IsNanOrInf(loss)
    ensures LogInv(sc, BatchStep(sc, s, loss))
  {
    var step := s.step + 1;
    var r := BatchStep(sc, s, loss);
    MultiplesSnoc(sc.startStep, s.step, sc.period);
    SnocBatchEvent(s.trace, Abort(step));
    assert r.trace == s.trace + [Abort(step)];
    assert Logs(r.trace) == Logs(s.trace) && Jumps(r.trace) == Jumps(s.trace);
  }

  /** How a logged step changes the log projections, whatever held before it. */
  lemma LoggedStepProjections(sc: Schedule, s: State, loss: ExtReal)
    requires sc.period > 0 && IsLogPoint(sc.period, s.step + 1) && !IsNanOrInf(loss)
    ensures var r := BatchStep(sc, s, loss);
      var curr := s.window.Update(loss).Result();
      var jump := sc.issues && s.prev.Some? && Less(Fin(JumpThreshold), Sub(curr, s.prev.value));
      && LogPoints(r.trace) == LogPoints(s.trace) + [s.step + 1]
      && Logs(r.trace) == Logs(s.trace) + [(s.step + 1, curr)]
      && LogMeans(r.trace) == LogMeans(s.trace) + [curr]
      && Aborts(r.trace) == Aborts(s.trace)
      && Jumps(r.trace) == Jumps(s.trace) + (if jump then [s.step + 1] else [])
  {
    var step := s.step + 1;
    var r := BatchStep(sc, s, loss);
    var curr := s.window.Update(loss).Result();
    var logged := s.trace + [Log(step, curr)];
    var jump := sc.issues && s.prev.Some? && Less(Fin(JumpThreshold), Sub(curr, s.prev.value));
    SnocBatchEvent(s.trace, Log(step, curr));
    if jump {
      assert r.trace == logged + [JumpSave(step)];
      SnocBatchEvent(logged, JumpSave(step));
    } else {
      assert r.trace == logged;
    }
  }

  lemma LoggedStepLogInv(sc: Schedule, s: State, loss: ExtReal)
    requires sc.period > 0 && LogInv(sc, s) && !s.aborted
    requires IsLogPoint(sc.period, s.step + 1) && !IsNanOrInf(loss)
    ensures LogInv(sc, BatchStep(sc, s, loss))
  {
    var step := s.step + 1;
    var r := BatchStep(sc, s, loss);
    var curr := s.window.Update(loss).Result();
    var logs := Logs(s.trace);
    MultiplesSnoc(sc.startStep, s.step, sc.period);
    LoggedStepProjections(sc, s, loss);
    ExpectedJumpsSnoc(logs, (step, curr));
    assert r.step == step && !r.aborted && r.history == s.history + [curr];
    assert r.prev == if sc.issues then Some(curr) else s.prev;
    assert LastMean(logs + [(step, curr)]) == Some(curr);
    if sc.issues {
      assert s.prev == LastMean(logs);
      assert s.prev.Some? <==> |logs| > 0;
      assert Jumps(r.trace) == ExpectedJumps(logs + [(step, curr)]);
    } else {
      assert Jumps(r.trace) == [];
    }
  }

  /** A batch step leaves the validation projections and the best loss alone. */
  lemma BatchStepKeepsVal(sc: Schedule, s: State, loss: ExtReal)
    requires sc.period > 0
    ensures var r := BatchStep(sc, s, loss);
      && r.minVal == s.minVal
      && ValEpochs(r.trace) == ValEpochs(s.trace)
      && ValLosses(r.trace) == ValLosses(s.trace)
      && Bests(r.trace) == Bests(s.trace)
      && Finals(r.trace) == Finals(s.trace)
  {
    var step := s.step + 1;
    var r := BatchStep(sc, s, loss);
    if !IsLogPoint(sc.period, step) {
      assert r.trace == s.trace;
    } else if IsNanOrInf(loss) {
      assert r.trace == s.trace + [Abort(step)];
      BatchEventKeepsVal(s.trace, Abort(step));
    } else {
      var curr := s.window.Update(loss).Result();
      var logged := s.trace + [Log(step, curr)];
      BatchEventKeepsVal(s.trace, Log(step, curr));
      if r.trace != logged {
        assert r.trace == logged + [JumpSave(step)];
        BatchEventKeepsVal(logged, JumpSave(step));
      }
    }
  }

  lemma BatchStepValInv(sc: Schedule, s: State, loss: ExtReal, validated: nat)
    requires sc.period > 0 && ValInv(sc, s, validated)
    ensures ValInv(sc, BatchStep(sc, s, loss), validated)
  {
    BatchStepKeepsVal(sc, s, loss);
  }

  lemma {:induction false} RunBatchesInv(sc: Schedule, s: State, losses: seq<ExtReal>, validated: nat)
    requires sc.period > 0 && Inv(sc, s, validated) && !s.aborted
    ensures Inv(sc, RunBatches(sc, s, losses), validated)
    decreases |losses|
  {
    if |losses| > 0 {
      var init := losses[..|losses| - 1];
      RunBatchesInv(sc, s, init, validated);
      var p := RunBatches(sc, s, init);
      if !p.aborted {
        BatchStepLogInv(sc, p, losses[|losses| - 1]);
        BatchStepValInv(sc, p, losses[|losses| - 1], validated);
      }
    }
  }

  lemma ValidationLogInv(sc: Schedule, s: State, epoch: nat, val: seq<ExtReal>)
    requires sc.period > 0 && LogInv(sc, s)
    ensures LogInv(sc, Validation(sc, s, epoch, val))
  {
    if ValidatesAt(sc.nEpochs, epoch) {
      var v := Fresh.UpdateAll(val).Result();
      var e := Validate(epoch, s.epochAvg.Result(), v);
      ValEventKeepsLog(s.trace, e);
      ValEventKeepsLog(s.trace + [e], BestSave(epoch, v));
    }
  }

  lemma ValidationValInv(sc: Schedule, s: State, epoch: nat, val: seq<ExtReal>)
    requires epoch > 0 && ValInv(sc, s, epoch - 1)
    ensures ValInv(sc, Validation(sc, s, epoch, val), epoch)
  {
    if ValidatesAt(sc.nEpochs, epoch) {
      var v := Fresh.UpdateAll(val).Result();
      var e := Validate(epoch, s.epochAvg.Result(), v);
      var validated := s.trace + [e];
      SnocValEvent(s.trace, e);
      RecordsSnoc(ValLosses(s.trace), v);
      var r := Validation(sc, s, epoch, val);
      if Less(v, s.minVal) {
        SnocValEvent(validated, BestSave(epoch, v));
        assert r == s.(minVal := v, trace := validated + [BestSave(epoch, v)]);
        assert ValLosses(validated) == ValLosses(s.trace) + [v];
        assert ValLosses(r.trace) == ValLosses(validated);
        assert RunningMin(ValLosses(s.trace) + [v]) == v;
      } else {
        assert r == s.(trace := validated);
      }
    }
  }

  lemma ValidationInv(sc: Schedule, s: State, epoch: nat, val: seq<ExtReal>)
    requires sc.period > 0 && epoch > 0 && Inv(sc, s, epoch - 1)
    ensures Inv(sc, Validation(sc, s, epoch, val), epoch)
  {
    ValidationLogInv(sc, s, epoch, val);
    ValidationValInv(sc, s, epoch, val);
  }

  /** One epoch of a run that has not aborted keeps the invariant, with one more epoch entered. */
  lemma EpochStepInv(sc: Schedule, p: State, epoch: nat, ep: Epoch)
    requires sc.period > 0 && epoch > 0 && Inv(sc, p, epoch - 1) && !p.aborted
    ensures Inv(sc, EpochStep(sc, p, epoch, ep), epoch)
  {
    var q := p.(epochAvg := Fresh);
    assert Inv(sc, q, epoch - 1);
    RunBatchesInv(sc, q, ep.train, epoch - 1);
    ValidationInv(sc, RunBatches(sc, q, ep.train), epoch, ep.val);
  }

  lemma {:induction false} RunEpochsInv(sc: Schedule, eps: seq<Epoch>)
    requires sc.period > 0
    ensures Inv(sc, RunEpochs(sc, Start(sc.startStep), eps), EpochsEntered(sc, Start(sc.startStep), eps))
    ensures !RunEpochs(sc, Start(sc.startStep), eps).aborted ==> EpochsEntered(sc, Start(sc.startStep), eps) == |eps|
    decreases |eps|
  {
    var s0 := Start(sc.startStep);
    if |eps| > 0 {
      var init := eps[..|eps| - 1];
      RunEpochsInv(sc, init);
      var p := RunEpochs(sc, s0, init);
      var r := RunEpochs(sc, s0, eps);
      assert r == EpochStep(sc, p, |eps|, eps[|eps| - 1]);
      if !p.aborted {
        assert EpochsEntered(sc, s0, eps) == |eps|;
        EpochStepInv(sc, p, |eps|, eps[|eps| - 1]);
      } else {
        assert EpochsEntered(sc, s0, eps) == EpochsEntered(sc, s0, init);
        assert r == p.(epochAvg := Fresh);
      }
    }
  }

  // ---- Properties of the independent descriptions ----

  /** The log points are exactly the multiples of the period after the start, in increasing order. */
  lemma {:induction false} MultiplesExact(lo: nat, hi: nat, p: nat)
    requires p > 0
    ensures forall k :: k in Multiples(lo, hi, p) <==> lo < k <= hi && k % p == 0
    ensures forall i, j :: 0 <= i < j < |Multiples(lo, hi, p)| ==> Multiples(lo, hi, p)[i] < Multiples(lo, hi, p)[j]
    decreases hi
  {
    if hi > lo {
      MultiplesExact(lo, hi - 1, p);
      var m := Multiples(lo, hi - 1, p);
      forall i | 0 <= i < |m| ensures m[i] < hi {
        assert m[i] in m;
      }
    }
  }

  /** A defensive save happens exactly at a logged mean that exceeds the previously logged mean by more
      than the threshold; the first logged mean only initialises the comparison. */
  lemma {:induction false} ExpectedJumpsExact(logs: seq<(nat, ExtReal)>)
    ensures forall k :: k in ExpectedJumps(logs) <==>
      exists i :: 1 <= i < |logs| && logs[i].0 == k && Less(Fin(JumpThreshold), Sub(logs[i].1, logs[i - 1].1))
    ensures |logs| > 0 ==> |ExpectedJumps(logs)| < |logs|
    decreases |logs|
  {
    if |logs| >= 2 {
      var n := |logs|;
      var init := logs[..n - 1];
      ExpectedJumpsExact(init);
      forall k | k in ExpectedJumps(logs)
        ensures exists i :: 1 <= i < n && logs[i].0 == k && Less(Fin(JumpThreshold), Sub(logs[i].1, logs[i - 1].1))
      {
        if k in ExpectedJumps(init) {
          var i :| 1 <= i < |init| && init[i].0 == k && Less(Fin(JumpThreshold), Sub(init[i].1, init[i - 1].1));
          assert logs[i] == init[i] && logs[i - 1] == init[i - 1];
        } else {
          assert logs[n - 1].0 == k;
        }
      }
      forall k, i | 1 <= i < n && logs[i].0 == k && Less(Fin(JumpThreshold), Sub(logs[i].1, logs[i - 1].1))
        ensures k in ExpectedJumps(logs)
      {
        if i < n - 1 {
          assert init[i] == logs[i] && init[i - 1] == logs[i - 1];
        }
      }
    }
  }

  /** Best-model saves are records: each is below 0 and below every earlier one, and the running
      minimum is the last record (or the initial 0 when there is none). */
  lemma {:induction false} RecordsDecrease(vs: seq<ExtReal>)
    ensures var b := ExpectedBest(vs);
      && (forall i :: 0 <= i < |b| ==> Less(b[i], Fin(0.0)))
      && (forall i, j :: 0 <= i < j < |b| ==> Less(b[j], b[i]))
      && RunningMin(vs) == (if |b| == 0 then Fin(0.0) else b[|b| - 1])
    decreases |vs|
  {
    if |vs| > 0 {
      var init := vs[..|vs| - 1];
      var v := vs[|vs| - 1];
      RecordsDecrease(init);
      var b0 := ExpectedBest(init);
      if Less(v, RunningMin(init)) {
        forall i | 0 <= i < |b0| ensures Less(v, b0[i]) {
          if i < |b0| - 1 {
            LessIsStrictOrder(v, b0[|b0| - 1], b0[i]);
          }
        }
        if |b0| > 0 {
          LessIsStrictOrder(v, b0[|b0| - 1], Fin(0.0));
        }
      }
    }
  }

  /** The minimum never increases: each prefix's minimum is the final one or above it. */
  lemma {:induction false} RunningMinNeverIncreases(vs: seq<ExtReal>, k: nat)
    requires k <= |vs|
    ensures RunningMin(vs) == RunningMin(vs[..k]) || Less(RunningMin(vs), RunningMin(vs[..k]))
    decreases |vs|
  {
    if k < |vs| {
      var init := vs[..|vs| - 1];
      assert init[..k] == vs[..k];
      RunningMinNeverIncreases(init, k);
      LessIsStrictOrder(RunningMin(vs), RunningMin(init), RunningMin(vs[..k]));
    } else {
      assert vs[..k] == vs;
    }
  }

  /** Because the minimum starts at 0, validation losses that are not below 0 never cause a save. */
  lemma {:induction false} NonNegativeLossesNeverSave(vs: seq<ExtReal>)
    requires forall i :: 0 <= i < |vs| ==> !Less(vs[i], Fin(0.0))
    ensures ExpectedBest(vs) == [] && RunningMin(vs) == Fin(0.0)
    decreases |vs|
  {
    if |vs| > 0 {
      NonNegativeLossesNeverSave(vs[..|vs| - 1]);
    }
  }

  /** The validation losses 5, 4, 4.5, 3 give no best-model save (all are above the initial 0);
      their negations -5, -4, -4.5, -6 give two, at -5 and at -6. */
  lemma BestSaveExamples()
    ensures ExpectedBest([Fin(5.0), Fin(4.0), Fin(4.5), Fin(3.0)]) == []
    ensures ExpectedBest([Fin(-5.0), Fin(-4.0), Fin(-4.5), Fin(-6.0)]) == [Fin(-5.0), Fin(-6.0)]
  {
    NonNegativeLossesNeverSave([Fin(5.0), Fin(4.0), Fin(4.5), Fin(3.0)]);
    var vs := [Fin(-5.0), Fin(-4.0), Fin(-4.5), Fin(-6.0)];
    assert vs[..1] == [Fin(-5.0)] && vs[..2] == [Fin(-5.0), Fin(-4.0)] && vs[..3] == [Fin(-5.0), Fin(-4.0), Fin(-4.5)];
    assert [Fin(-5.0)][..0] == [] && vs[..2][..1] == vs[..1] && vs[..3][..2] == vs[..2] && vs[..4][..3] == vs[..3];
    assert vs[..4] == vs;
    assert RunningMin(vs[..1]) == Fin(-5.0) && ExpectedBest(vs[..1]) == [Fin(-5.0)];
    assert RunningMin(vs[..2]) == Fin(-5.0) && ExpectedBest(vs[..2]) == [Fin(-5.0)];
    assert RunningMin(vs[..3]) == Fin(-5.0) && ExpectedBest(vs[..3]) == [Fin(-5.0)];
  }

  /** Validation runs in every epoch when there are fewer than 100 epochs, otherwise in the epochs
      divisible by `N_EPOCHS // 100`. */
  lemma {:induction false} ValidationScheduleExact(nEpochs: nat, k: nat)
    ensures forall e :: e in ValidationSchedule(nEpochs, k) <==> 1 <= e <= k && ValidatesAt(nEpochs, e)
    ensures nEpochs < 100 ==> |ValidationSchedule(nEpochs, k)| == k
    decreases k
  {
    if k > 0 {
      ValidationScheduleExact(nEpochs, k - 1);
    }
  }
}
