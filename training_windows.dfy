/**
 * What each logged loss is. `history_loss_avg` (the window) is fed every batch loss and is
 * reset only after a log point that logs; the start of an epoch does not reset it. So the
 * mean logged at log point `k` is the mean of the losses of the steps after the previous
 * log point (or after the start step) up to `k`, counted across epoch boundaries.
 */
module TrainingWindows {
  import opened ExtReals
  import opened TrainingLoop
  import opened TrainingTrace
  import opened TrainingTheorems

  /** The last log point at or before step `k` after `start`, or `start` when there is none. */
  function LastLogPoint(start: nat, k: nat, p: nat): (m: nat)
    requires p > 0 && start <= k
    ensures start <= m <= k
    decreases k
  {
    if k == start then start
    else if k % p == 0 then k
    else LastLogPoint(start, k - 1, p)
  }

  /** The training losses of all epochs, in the order the batch loop meets them. */
  function AllBatches(eps: seq<Epoch>): seq<ExtReal>
    decreases |eps|
  {
    if |eps| == 0 then [] else AllBatches(eps[..|eps| - 1]) + eps[|eps| - 1].train
  }

  /** The means the window reports, for the consumed losses `xs` (`xs[i]` is the loss of step
      `start + i + 1`): at each log point, the mean of the losses since the previous one. */
  function WindowMeans(start: nat, p: nat, xs: seq<ExtReal>): seq<ExtReal>
    requires p > 0
    decreases |xs|
  {
    if |xs| == 0 then []
    else
      var k := start + |xs|;
      WindowMeans(start, p, xs[..|xs| - 1])
        + (if k % p == 0 then [Fresh.UpdateAll(xs[LastLogPoint(start, k - 1, p) - start..]).Result()] else [])
  }

  /** `LastLogPoint` is the previous log point: the start or a multiple of the period, with no
      multiple of the period after it up to `k`. */
  lemma {:induction false} LastLogPointExact(start: nat, k: nat, p: nat)
    requires p > 0 && start <= k
    ensures var m := LastLogPoint(start, k, p);
      && (m == start || m % p == 0)
      && forall j :: m < j <= k ==> j % p != 0
    decreases k
  {
    if k > start && k % p != 0 {
      LastLogPointExact(start, k - 1, p);
    }
  }

  /** `m` is the mean of the losses of the steps after the log point before `k`, up to `k`, where
      `all[i]` is the loss of step `start + i + 1` and `k` is one of the first `n` steps. */
  ghost predicate MeanAt(start: nat, p: nat, all: seq<ExtReal>, n: nat, k: nat, m: ExtReal)
    requires p > 0
  {
    && start < k <= start + n && n <= |all|
    && m == Fresh.UpdateAll(all[LastLogPoint(start, k - 1, p) - start..k - start]).Result()
  }

  /** The window means of the first `n` losses, read against the log points: the i-th mean is that
      of the losses of the steps after the previous log point up to the i-th log point. */
  lemma {:induction false} WindowMeansAtLogPoints(start: nat, p: nat, all: seq<ExtReal>, n: nat)
    requires p > 0 && n <= |all|
    ensures var ks := Multiples(start, start + n, p);
      var ms := WindowMeans(start, p, all[..n]);
      && |ms| == |ks|
      && forall i :: 0 <= i < |ks| ==> MeanAt(start, p, all, n, ks[i], ms[i])
    decreases n
  {
    if n > 0 {
      WindowMeansAtLogPoints(start, p, all, n - 1);
      MultiplesSnoc(start, start + n - 1, p);
      assert all[..n][..n - 1] == all[..n - 1];
      var ks0 := Multiples(start, start + n - 1, p);
      var ms0 := WindowMeans(start, p, all[..n - 1]);
      var ks := Multiples(start, start + n, p);
      var ms := WindowMeans(start, p, all[..n]);
      var k := start + n;
      var a := LastLogPoint(start, k - 1, p) - start;
      var last := if k % p == 0 then [Fresh.UpdateAll(all[..n][a..]).Result()] else [];
      assert ms == ms0 + last;
      assert all[..n][a..] == all[a..n];
      forall i | 0 <= i < |ks|
        ensures MeanAt(start, p, all, n, ks[i], ms[i])
      {
        if i < |ks0| {
          assert ks[i] == ks0[i] && ms[i] == ms0[i];
          assert MeanAt(start, p, all, n - 1, ks[i], ms[i]);
        } else {
          assert ks[i] == k && ms[i] == last[0];
        }
      }
    }
  }

  /** The window on its own, fed the consumed losses: what it holds and the means it has logged. */
  datatype Window = Window(mean: Mean, logged: seq<ExtReal>)

  function WindowRun(start: nat, p: nat, xs: seq<ExtReal>): Window
    requires p > 0
    decreases |xs|
  {
    if |xs| == 0 then Window(Fresh, [])
    else
      var w := WindowRun(start, p, xs[..|xs| - 1]);
      var m := w.mean.Update(xs[|xs| - 1]);
      if (start + |xs|) % p == 0 then Window(Fresh, w.logged + [m.Result()]) else Window(m, w.logged)
  }

  lemma WindowRunSnoc(start: nat, p: nat, xs: seq<ExtReal>, v: ExtReal)
    requires p > 0
    ensures var w := WindowRun(start, p, xs);
      var m := w.mean.Update(v);
      WindowRun(start, p, xs + [v])
        == if (start + |xs| + 1) % p == 0 then Window(Fresh, w.logged + [m.Result()]) else Window(m, w.logged)
  {
    assert (xs + [v])[..|xs|] == xs;
  }

  lemma UpdateAllSnoc(m: Mean, vs: seq<ExtReal>, v: ExtReal)
    ensures m.UpdateAll(vs + [v]) == m.UpdateAll(vs).Update(v)
  {
    assert (vs + [v])[..|vs|] == vs;
  }

  /** The window holds the losses of the steps after the last log point. */
  lemma {:induction false} WindowRunMean(start: nat, p: nat, xs: seq<ExtReal>)
    requires p > 0
    ensures WindowRun(start, p, xs).mean == Fresh.UpdateAll(xs[LastLogPoint(start, start + |xs|, p) - start..])
    decreases |xs|
  {
    if |xs| == 0 {
      assert xs[LastLogPoint(start, start, p) - start..] == [];
    } else {
      WindowRunMean(start, p, xs[..|xs| - 1]);
      WindowRunMeanStep(start, p, xs);
    }
  }

  lemma WindowRunMeanStep(start: nat, p: nat, xs: seq<ExtReal>)
    requires p > 0 && |xs| > 0
    requires var init := xs[..|xs| - 1];
      WindowRun(start, p, init).mean == Fresh.UpdateAll(init[LastLogPoint(start, start + |init|, p) - start..])
    ensures WindowRun(start, p, xs).mean == Fresh.UpdateAll(xs[LastLogPoint(start, start + |xs|, p) - start..])
  {
    var k := start + |xs|;
    if k % p == 0 {
      assert LastLogPoint(start, k, p) == k;
      assert xs[k - start..] == [];
    } else {
      var a := LastLogPoint(start, k - 1, p) - start;
      assert LastLogPoint(start, k, p) == a + start;
      FeedWindow(xs, a, WindowRun(start, p, xs[..|xs| - 1]).mean);
    }
  }

  /** The window logs the window means. */
  lemma {:induction false} WindowRunLogged(start: nat, p: nat, xs: seq<ExtReal>)
    requires p > 0
    ensures WindowRun(start, p, xs).logged == WindowMeans(start, p, xs)
    decreases |xs|
  {
    if |xs| > 0 {
      WindowRunLogged(start, p, xs[..|xs| - 1]);
      WindowRunMean(start, p, xs[..|xs| - 1]);
      WindowRunLoggedStep(start, p, xs);
    }
  }

  lemma WindowRunLoggedStep(start: nat, p: nat, xs: seq<ExtReal>)
    requires p > 0 && |xs| > 0
    requires var init := xs[..|xs| - 1];
      && WindowRun(start, p, init).logged == WindowMeans(start, p, init)
      && WindowRun(start, p, init).mean == Fresh.UpdateAll(init[LastLogPoint(start, start + |init|, p) - start..])
    ensures WindowRun(start, p, xs).logged == WindowMeans(start, p, xs)
  {
    if (start + |xs|) % p == 0 {
      LogPointLogged(start, p, xs);
    } else {
      QuietWindowMean(start, p, xs);
    }
  }

  /** At a log point the window logs the mean of the losses it held, and the last loss. */
  lemma LogPointLogged(start: nat, p: nat, xs: seq<ExtReal>)
    requires p > 0 && |xs| > 0 && (start + |xs|) % p == 0
    requires var init := xs[..|xs| - 1];
      && WindowRun(start, p, init).logged == WindowMeans(start, p, init)
      && WindowRun(start, p, init).mean == Fresh.UpdateAll(init[LastLogPoint(start, start + |init|, p) - start..])
    ensures WindowRun(start, p, xs).logged == WindowMeans(start, p, xs)
  {
    var w := WindowRun(start, p, xs[..|xs| - 1]);
    var a := LastLogPoint(start, start + |xs| - 1, p) - start;
    FeedWindow(xs, a, w.mean);
    LoggedWindowMean(start, p, xs);
    assert WindowRun(start, p, xs).logged == w.logged + [w.mean.Update(xs[|xs| - 1]).Result()];
  }

  /** At a log point the window means gain the mean since the previous one. */
  lemma LoggedWindowMean(start: nat, p: nat, xs: seq<ExtReal>)
    requires p > 0 && |xs| > 0 && (start + |xs|) % p == 0
    ensures var a := LastLogPoint(start, start + |xs| - 1, p) - start;
      WindowMeans(start, p, xs) == WindowMeans(start, p, xs[..|xs| - 1]) + [Fresh.UpdateAll(xs[a..]).Result()]
  {
  }

  /** Off the log points they stay as they are. */
  lemma QuietWindowMean(start: nat, p: nat, xs: seq<ExtReal>)
    requires p > 0 && |xs| > 0 && (start + |xs|) % p != 0
    ensures WindowMeans(start, p, xs) == WindowMeans(start, p, xs[..|xs| - 1])
  {
  }

  /** Feeding the last loss to a window that holds the losses before it from index `a` on. */
  lemma FeedWindow(xs: seq<ExtReal>, a: nat, w: Mean)
    requires a < |xs| && w == Fresh.UpdateAll(xs[..|xs| - 1][a..])
    ensures w.Update(xs[|xs| - 1]) == Fresh.UpdateAll(xs[a..])
  {
    assert xs[a..] == xs[..|xs| - 1][a..] + [xs[|xs| - 1]];
    UpdateAllSnoc(Fresh, xs[..|xs| - 1][a..], xs[|xs| - 1]);
  }

  /** What the batch loop keeps true of the window, given the losses consumed so far: before an
      abort the window and the logged means are those of the window fed every consumed loss; an
      abort happens at the last consumed loss, whose window is not logged. */
  ghost predicate WindowInv(sc: Schedule, s: State, consumed: seq<ExtReal>)
    requires sc.period > 0
  {
    && s.step == sc.startStep + |consumed|
    && (s.aborted ==> |consumed| > 0)
    && var w := WindowRun(sc.startStep, sc.period, if s.aborted then consumed[..|consumed| - 1] else consumed);
       && (!s.aborted ==> s.window == w.mean)
       && LogMeans(s.trace) == w.logged
  }

  /** A batch off the log points feeds the window and logs nothing. */
  lemma QuietStepWindowInv(sc: Schedule, s: State, r: State, loss: ExtReal, consumed: seq<ExtReal>)
    requires sc.period > 0 && WindowInv(sc, s, consumed) && !s.aborted
    requires !IsLogPoint(sc.period, s.step + 1)
    requires r.step == s.step + 1 && !r.aborted && r.window == s.window.Update(loss) && r.trace == s.trace
    ensures WindowInv(sc, r, consumed + [loss])
  {
    WindowRunSnoc(sc.startStep, sc.period, consumed, loss);
  }

  /** A NaN or infinite loss at a log point aborts without logging its window. */
  lemma AbortStepWindowInv(sc: Schedule, s: State, r: State, loss: ExtReal, consumed: seq<ExtReal>)
    requires sc.period > 0 && WindowInv(sc, s, consumed) && !s.aborted
    requires r.step == s.step + 1 && r.aborted && LogMeans(r.trace) == LogMeans(s.trace)
    ensures WindowInv(sc, r, consumed + [loss])
  {
    assert (consumed + [loss])[..|consumed|] == consumed;
  }

  /** A finite loss at a log point logs the mean of the window's losses and empties the window. */
  lemma LoggedStepWindowInv(sc: Schedule, s: State, r: State, loss: ExtReal, consumed: seq<ExtReal>)
    requires sc.period > 0 && WindowInv(sc, s, consumed) && !s.aborted
    requires IsLogPoint(sc.period, s.step + 1)
    requires r.step == s.step + 1 && !r.aborted && r.window == Fresh
    requires LogMeans(r.trace) == LogMeans(s.trace) + [s.window.Update(loss).Result()]
    ensures WindowInv(sc, r, consumed + [loss])
  {
    WindowRunSnoc(sc.startStep, sc.period, consumed, loss);
  }

  lemma BatchStepWindowInv(sc: Schedule, s: State, loss: ExtReal, consumed: seq<ExtReal>)
    requires sc.period > 0 && WindowInv(sc, s, consumed) && !s.aborted
    ensures WindowInv(sc, BatchStep(sc, s, loss), consumed + [loss])
  {
    var r := BatchStep(sc, s, loss);
    BatchStepCounters(sc, s, loss);
    if !IsLogPoint(sc.period, s.step + 1) {
      assert r.window == s.window.Update(loss) && r.trace == s.trace;
      QuietStepWindowInv(sc, s, r, loss, consumed);
    } else if IsNanOrInf(loss) {
      assert r.trace == s.trace + [Abort(s.step + 1)];
      SnocBatchEvent(s.trace, Abort(s.step + 1));
      AbortStepWindowInv(sc, s, r, loss, consumed);
    } else {
      LoggedStepProjections(sc, s, loss);
      assert r.window == Fresh;
      LoggedStepWindowInv(sc, s, r, loss, consumed);
    }
  }

  /** An epoch's batch loop extends the consumed losses by the batches it consumed. */
  lemma {:induction false} RunBatchesWindowInv(sc: Schedule, s: State, losses: seq<ExtReal>, consumed: seq<ExtReal>)
    requires sc.period > 0 && WindowInv(sc, s, consumed) && !s.aborted
    ensures s.step <= RunBatches(sc, s, losses).step <= s.step + |losses|
    ensures var r := RunBatches(sc, s, losses);
      WindowInv(sc, r, consumed + losses[..r.step - s.step])
    decreases |losses|
  {
    if |losses| == 0 {
      assert consumed + losses[..0] == consumed;
    } else {
      var init := losses[..|losses| - 1];
      RunBatchesWindowInv(sc, s, init, consumed);
      if RunBatches(sc, s, init).aborted {
        AbortedPrefixWindowInv(sc, s, losses, consumed);
      } else {
        LastBatchWindowInv(sc, s, losses, consumed);
      }
    }
  }

  /** The inductive step of `RunBatchesWindowInv` when the prefix aborted: nothing more is consumed. */
  lemma AbortedPrefixWindowInv(sc: Schedule, s: State, losses: seq<ExtReal>, consumed: seq<ExtReal>)
    requires sc.period > 0 && !s.aborted && |losses| > 0
    requires var init := losses[..|losses| - 1];
      var p := RunBatches(sc, s, init);
      && p.aborted && s.step <= p.step <= s.step + |init|
      && WindowInv(sc, p, consumed + init[..p.step - s.step])
    ensures s.step <= RunBatches(sc, s, losses).step <= s.step + |losses|
    ensures var r := RunBatches(sc, s, losses);
      WindowInv(sc, r, consumed + losses[..r.step - s.step])
  {
    var init := losses[..|losses| - 1];
    var p := RunBatches(sc, s, init);
    assert RunBatches(sc, s, losses) == p;
    assert init[..p.step - s.step] == losses[..p.step - s.step];
  }

  /** The inductive step of `RunBatchesWindowInv` when the prefix did not abort. */
  lemma LastBatchWindowInv(sc: Schedule, s: State, losses: seq<ExtReal>, consumed: seq<ExtReal>)
    requires sc.period > 0 && !s.aborted && |losses| > 0
    requires var init := losses[..|losses| - 1];
      var p := RunBatches(sc, s, init);
      && !p.aborted && s.step <= p.step <= s.step + |init|
      && WindowInv(sc, p, consumed + init[..p.step - s.step])
    ensures s.step <= RunBatches(sc, s, losses).step <= s.step + |losses|
    ensures var r := RunBatches(sc, s, losses);
      WindowInv(sc, r, consumed + losses[..r.step - s.step])
  {
    var n := |losses|;
    var init := losses[..n - 1];
    var p := RunBatches(sc, s, init);
    RunBatchesCount(sc, s, init);
    assert init[..p.step - s.step] == init;
    BatchStepCounters(sc, p, losses[n - 1]);
    BatchStepWindowInv(sc, p, losses[n - 1], consumed + init);
    assert RunBatches(sc, s, losses) == BatchStep(sc, p, losses[n - 1]);
    AppendBatch(sc, s.step, RunBatches(sc, s, losses), consumed, losses);
  }

  /** The batch just consumed, read as the last of the epoch's losses so far. */
  lemma AppendBatch(sc: Schedule, entry: nat, r: State, consumed: seq<ExtReal>, losses: seq<ExtReal>)
    requires sc.period > 0 && |losses| > 0 && r.step == entry + |losses|
    requires WindowInv(sc, r, (consumed + losses[..|losses| - 1]) + [losses[|losses| - 1]])
    ensures entry <= r.step <= entry + |losses|
    ensures WindowInv(sc, r, consumed + losses[..r.step - entry])
  {
    assert (consumed + losses[..|losses| - 1]) + [losses[|losses| - 1]] == consumed + losses[..r.step - entry];
  }

  /** Two states that agree on the step, the abort flag, the window and the logged means. */
  predicate SameWindow(r: State, s: State) {
    r.step == s.step && r.aborted == s.aborted && r.window == s.window && LogMeans(r.trace) == LogMeans(s.trace)
  }

  lemma SameWindowInv(sc: Schedule, r: State, s: State, consumed: seq<ExtReal>)
    requires sc.period > 0 && WindowInv(sc, s, consumed) && SameWindow(r, s)
    ensures WindowInv(sc, r, consumed)
  {
  }

  /** The validation block leaves the step, the abort flag, the window and the logged means alone. */
  lemma ValidationSameWindow(sc: Schedule, s: State, epoch: nat, val: seq<ExtReal>)
    ensures SameWindow(Validation(sc, s, epoch, val), s)
  {
    if ValidatesAt(sc.nEpochs, epoch) {
      var v := Fresh.UpdateAll(val).Result();
      var e := Validate(epoch, s.epochAvg.Result(), v);
      ValEventKeepsLog(s.trace, e);
      ValEventKeepsLog(s.trace + [e], BestSave(epoch, v));
    }
  }

  /** So an entered epoch ends, as far as the window is concerned, where its batch loop ends. */
  lemma EpochStepSameWindow(sc: Schedule, p: State, epoch: nat, ep: Epoch)
    requires sc.period > 0 && !p.aborted
    ensures SameWindow(EpochStep(sc, p, epoch, ep), RunBatches(sc, p.(epochAvg := Fresh), ep.train))
  {
    var b := RunBatches(sc, p.(epochAvg := Fresh), ep.train);
    ValidationSameWindow(sc, b, epoch, ep.val);
    assert EpochStep(sc, p, epoch, ep) == Validation(sc, b, epoch, ep.val);
  }

  /** One epoch of a run that has not aborted: the window carries over from the previous epoch,
      and the epoch consumes a prefix of its training losses. */
  lemma EpochStepWindowInv(sc: Schedule, p: State, epoch: nat, ep: Epoch, before: seq<ExtReal>, all: seq<ExtReal>)
    requires sc.period > 0 && WindowInv(sc, p, before) && !p.aborted && all == before + ep.train
    ensures var r := EpochStep(sc, p, epoch, ep);
      sc.startStep <= r.step <= sc.startStep + |all|
    ensures var r := EpochStep(sc, p, epoch, ep);
      && WindowInv(sc, r, all[..r.step - sc.startStep])
      && (!r.aborted ==> r.step == sc.startStep + |all|)
  {
    var q := p.(epochAvg := Fresh);
    EpochEntryWindowInv(sc, p, before);
    EpochBatchesWindowInv(sc, q, ep.train, before);
    EpochStepSameWindow(sc, p, epoch, ep);
    EpochEnd(sc, EpochStep(sc, p, epoch, ep), RunBatches(sc, q, ep.train), before, ep.train, all);
  }

  /** The state an epoch ends in, read against all the losses up to that epoch. */
  lemma EpochEnd(sc: Schedule, r: State, b: State, before: seq<ExtReal>, train: seq<ExtReal>, all: seq<ExtReal>)
    requires sc.period > 0 && all == before + train && SameWindow(r, b)
    requires var q := sc.startStep + |before|;
      && q <= b.step <= q + |train|
      && WindowInv(sc, b, before + train[..b.step - q])
      && (!b.aborted ==> b.step == q + |train|)
    ensures sc.startStep <= r.step <= sc.startStep + |all|
    ensures WindowInv(sc, r, all[..r.step - sc.startStep])
    ensures !r.aborted ==> r.step == sc.startStep + |all|
  {
    AppendConsumed(sc, b, before, train, all);
    SameWindowInv(sc, r, b, all[..b.step - sc.startStep]);
  }

  /** Resetting the epoch mean at the start of an epoch leaves the window alone. */
  lemma EpochEntryWindowInv(sc: Schedule, p: State, consumed: seq<ExtReal>)
    requires sc.period > 0 && WindowInv(sc, p, consumed)
    ensures WindowInv(sc, p.(epochAvg := Fresh), consumed)
  {
  }

  /** `RunBatchesWindowInv` together with the step count of a loop that did not abort. */
  lemma EpochBatchesWindowInv(sc: Schedule, q: State, train: seq<ExtReal>, consumed: seq<ExtReal>)
    requires sc.period > 0 && WindowInv(sc, q, consumed) && !q.aborted
    ensures var b := RunBatches(sc, q, train);
      && q.step <= b.step <= q.step + |train|
      && WindowInv(sc, b, consumed + train[..b.step - q.step])
      && (!b.aborted ==> b.step == q.step + |train|)
  {
    RunBatchesWindowInv(sc, q, train, consumed);
    RunBatchesCount(sc, q, train);
  }

  /** The whole epoch loop: the consumed losses are a prefix of all training losses, all of them
      without an abort. */
  lemma {:induction false} RunEpochsWindowInv(sc: Schedule, eps: seq<Epoch>)
    requires sc.period > 0
    ensures var r := RunEpochs(sc, Start(sc.startStep), eps);
      sc.startStep <= r.step <= sc.startStep + |AllBatches(eps)|
    ensures var r := RunEpochs(sc, Start(sc.startStep), eps);
      && WindowInv(sc, r, AllBatches(eps)[..r.step - sc.startStep])
      && (!r.aborted ==> r.step == sc.startStep + |AllBatches(eps)|)
    decreases |eps|
  {
    if |eps| == 0 {
      assert AllBatches(eps)[..0] == [];
    } else {
      var init := eps[..|eps| - 1];
      RunEpochsWindowInv(sc, init);
      if RunEpochs(sc, Start(sc.startStep), init).aborted {
        AbortedEpochsWindowInv(sc, eps);
      } else {
        LastEpochWindowInv(sc, eps);
      }
    }
  }

  /** The inductive step of `RunEpochsWindowInv` when an earlier epoch aborted. */
  lemma AbortedEpochsWindowInv(sc: Schedule, eps: seq<Epoch>)
    requires sc.period > 0 && |eps| > 0
    requires var init := eps[..|eps| - 1];
      var p := RunEpochs(sc, Start(sc.startStep), init);
      && p.aborted && sc.startStep <= p.step <= sc.startStep + |AllBatches(init)|
      && WindowInv(sc, p, AllBatches(init)[..p.step - sc.startStep])
    ensures var r := RunEpochs(sc, Start(sc.startStep), eps);
      sc.startStep <= r.step <= sc.startStep + |AllBatches(eps)|
    ensures var r := RunEpochs(sc, Start(sc.startStep), eps);
      && WindowInv(sc, r, AllBatches(eps)[..r.step - sc.startStep])
      && (!r.aborted ==> r.step == sc.startStep + |AllBatches(eps)|)
  {
    var init := eps[..|eps| - 1];
    var p := RunEpochs(sc, Start(sc.startStep), init);
    var before := AllBatches(init);
    AllBatchesSnoc(eps);
    PrefixOfConcat(before, eps[|eps| - 1].train, p.step - sc.startStep);
    EpochEntryWindowInv(sc, p, before[..p.step - sc.startStep]);
    assert RunEpochs(sc, Start(sc.startStep), eps) == p.(epochAvg := Fresh);
  }

  /** The inductive step of `RunEpochsWindowInv` when the last epoch is entered. */
  lemma LastEpochWindowInv(sc: Schedule, eps: seq<Epoch>)
    requires sc.period > 0 && |eps| > 0
    requires var init := eps[..|eps| - 1];
      var p := RunEpochs(sc, Start(sc.startStep), init);
      && !p.aborted && p.step == sc.startStep + |AllBatches(init)|
      && WindowInv(sc, p, AllBatches(init)[..p.step - sc.startStep])
    ensures var r := RunEpochs(sc, Start(sc.startStep), eps);
      sc.startStep <= r.step <= sc.startStep + |AllBatches(eps)|
    ensures var r := RunEpochs(sc, Start(sc.startStep), eps);
      && WindowInv(sc, r, AllBatches(eps)[..r.step - sc.startStep])
      && (!r.aborted ==> r.step == sc.startStep + |AllBatches(eps)|)
  {
    var init := eps[..|eps| - 1];
    var p := RunEpochs(sc, Start(sc.startStep), init);
    var before := AllBatches(init);
    AllBatchesSnoc(eps);
    assert before[..p.step - sc.startStep] == before;
    EpochStepWindowInv(sc, p, |eps|, eps[|eps| - 1], before, AllBatches(eps));
  }

  /** The losses an epoch consumed, read as a prefix of all the losses up to that epoch. */
  lemma AppendConsumed(sc: Schedule, r: State, before: seq<ExtReal>, train: seq<ExtReal>, all: seq<ExtReal>)
    requires sc.period > 0 && all == before + train
    requires var q := sc.startStep + |before|;
      && q <= r.step <= q + |train|
      && WindowInv(sc, r, before + train[..r.step - q])
      && (!r.aborted ==> r.step == q + |train|)
    ensures sc.startStep <= r.step <= sc.startStep + |all|
    ensures WindowInv(sc, r, all[..r.step - sc.startStep])
    ensures !r.aborted ==> r.step == sc.startStep + |all|
  {
    PrefixOfConcat(before, train, r.step - sc.startStep);
  }

  lemma AllBatchesSnoc(eps: seq<Epoch>)
    requires |eps| > 0
    ensures AllBatches(eps) == AllBatches(eps[..|eps| - 1]) + eps[|eps| - 1].train
  {
  }

  lemma PrefixOfConcat<T>(a: seq<T>, b: seq<T>, j: nat)
    requires j <= |a| + |b|
    ensures j <= |a| ==> (a + b)[..j] == a[..j]
    ensures j >= |a| ==> (a + b)[..j] == a + b[..j - |a|]
  {
    if j <= |a| {
      assert (a + b)[..j] == a[..j];
    } else {
      assert (a + b)[..j] == a + b[..j - |a|];
    }
  }

  /** Every logged loss (`loss_history`) is the mean of the batch losses since the previous log
      point, counted across epochs: over all consumed losses, or, after an abort, over all but the
      loss that caused it. */
  lemma TrainLoggedMeans(startStep: nat, nTrain: nat, batchSize: nat, withIssuesManager: bool, epochs: seq<Epoch>)
    requires batchSize > 0 && LogPeriod(nTrain, batchSize) > 0
    ensures var out := Train(startStep, nTrain, batchSize, withIssuesManager, epochs);
      && startStep <= out.steps <= startStep + |AllBatches(epochs)|
      && (out.aborted ==> out.steps > startStep)
      && (!out.aborted ==> out.steps == startStep + |AllBatches(epochs)|)
    ensures var out := Train(startStep, nTrain, batchSize, withIssuesManager, epochs);
      var consumed := AllBatches(epochs)[..out.steps - startStep];
      out.lossHistory == WindowMeans(startStep, LogPeriod(nTrain, batchSize),
                                     if out.aborted then consumed[..|consumed| - 1] else consumed)
  {
    var sc := ScheduleOf(startStep, nTrain, batchSize, withIssuesManager, |epochs|);
    var s := RunEpochs(sc, Start(startStep), epochs);
    RunEpochsWindowInv(sc, epochs);
    TrainInv(startStep, nTrain, batchSize, withIssuesManager, epochs);
    var consumed := AllBatches(epochs)[..s.step - startStep];
    WindowRunLogged(startStep, sc.period, if s.aborted then consumed[..|consumed| - 1] else consumed);
  }

  /** `history` lists, for each log point after `start` up to the last step whose loss was logged
      or skipped (the one before an abort, else the last step run), the mean of the losses of the
      steps after the log point before it. */
  ghost predicate MeansPerLogPoint(start: nat, p: nat, all: seq<ExtReal>, steps: nat, aborted: bool,
                                   history: seq<ExtReal>)
    requires p > 0
  {
    && start <= steps <= start + |all|
    && (aborted ==> start < steps)
    && var logged := if aborted then steps - 1 else steps;
       var ks := Multiples(start, logged, p);
       && |history| == |ks|
       && forall i :: 0 <= i < |history| ==> MeanAt(start, p, all, logged - start, ks[i], history[i])
  }

  /** The same, read per log point: the i-th logged loss is the mean of the training losses of
      the steps after the previous log point up to the i-th log point; the loss that caused an
      abort is in no logged mean. */
  lemma TrainLoggedMeansAtLogPoints(startStep: nat, nTrain: nat, batchSize: nat, withIssuesManager: bool,
                                    epochs: seq<Epoch>)
    requires batchSize > 0 && LogPeriod(nTrain, batchSize) > 0
    ensures var out := Train(startStep, nTrain, batchSize, withIssuesManager, epochs);
      MeansPerLogPoint(startStep, LogPeriod(nTrain, batchSize), AllBatches(epochs), out.steps, out.aborted, out.lossHistory)
  {
    var out := Train(startStep, nTrain, batchSize, withIssuesManager, epochs);
    TrainLoggedMeans(startStep, nTrain, batchSize, withIssuesManager, epochs);
    LoggedMeansAt(startStep, LogPeriod(nTrain, batchSize), AllBatches(epochs), out.steps, out.aborted, out.lossHistory);
  }

  /** `TrainLoggedMeansAtLogPoints` for any run that consumed the first `steps - start` losses. */
  lemma LoggedMeansAt(start: nat, p: nat, all: seq<ExtReal>, steps: nat, aborted: bool, history: seq<ExtReal>)
    requires p > 0 && start <= steps <= start + |all| && (aborted ==> steps > start)
    requires var consumed := all[..steps - start];
      history == WindowMeans(start, p, if aborted then consumed[..|consumed| - 1] else consumed)
    ensures MeansPerLogPoint(start, p, all, steps, aborted, history)
  {
    var logged := if aborted then steps - 1 else steps;
    var consumed := all[..steps - start];
    assert (if aborted then consumed[..|consumed| - 1] else consumed) == all[..logged - start];
    WindowMeansAtLogPoints(start, p, all, logged - start);
  }
}
