/**
 * evaluate_flow.py: the metrics reported for a trained Glow model on MNIST. Each batch's
 * log-densities become the raw loss, the negative log-likelihood corrected for
 * dequantization (and for the logit preprocessing when it is used) and bits per pixel;
 * the per-batch averages are accumulated in six running means.
 *
 * `ln` and `sigmoid` stand for `tf.math.log` and `tf.math.sigmoid`; the model relies only
 * on `ln(2) > 0` and `0 < sigmoid(x) < 1`.
 */
module Evaluation {
  import opened ExtReals

  /** `build_flow`: the data are 28x28 grey images; the base distribution after two squeezes. */
  const DataShape: seq<nat> := [28, 28, 1]
  const BaseShape: seq<nat> := [7, 7, 16]

  /** `D`, the number of dimensions of one example. */
  const D: real := (28 * 28 * 1) as real

  function Size(shape: seq<nat>): nat
    decreases |shape|
  {
    if |shape| == 0 then 1 else Size(shape[..|shape| - 1]) * shape[|shape| - 1]
  }

  /** The base distribution has one dimension per data dimension, laid out as two 2x2
      squeezes of the data: a quarter of the height and width, sixteen times the channels. */
  lemma ShapesAgree()
    ensures Size(DataShape) == Size(BaseShape) && Size(DataShape) as real == D
    ensures BaseShape == [DataShape[0] / 4, DataShape[1] / 4, DataShape[2] * 16]
  {
    assert DataShape[..2] == [28, 28] && [28, 28][..1] == [28] && [28][..0] == [];
    assert Size([28]) == 28 && Size([28, 28]) == 784 && Size(DataShape) == 784;
    assert BaseShape[..2] == [7, 7] && [7, 7][..1] == [7] && [7][..0] == [];
    assert Size([7]) == 7 && Size([7, 7]) == 49 && Size(BaseShape) == 784;
  }

  /** One example: the flow's log-density and its input values over axes 1..3. */
  datatype Example = Example(logProb: real, pixels: seq<real>)

  /** `reduce_sum(sigmoid(x) * (1 - sigmoid(x)), axis=[1, 2, 3])`. */
  function LogitCorrection(sigmoid: real -> real, pixels: seq<real>): real
    decreases |pixels|
  {
    if |pixels| == 0 then 0.0
    else
      var s := sigmoid(pixels[|pixels| - 1]);
      LogitCorrection(sigmoid, pixels[..|pixels| - 1]) + s * (1.0 - s)
  }

  /** The dequantization constant added to every log-density. */
  function Dequantization(ln: real -> real, useLogit: bool, alpha: real): real {
    if useLogit then D * ln((1.0 - alpha) / 256.0) else D * ln(1.0 / 256.0)
  }

  function LogLik(ln: real -> real, sigmoid: real -> real, useLogit: bool, alpha: real, e: Example): real {
    if useLogit then e.logProb + Dequantization(ln, useLogit, alpha) - LogitCorrection(sigmoid, e.pixels)
    else e.logProb + Dequantization(ln, useLogit, alpha)
  }

  /** Nats to bits, per dimension. */
  function BitsPerPixel(ln: real -> real, logLik: real): real
    requires ln(2.0) > 0.0
  {
    -logLik / (D * ln(2.0))
  }

  datatype StepResult = StepResult(avgLoss: real, avgNll: real, avgBpp: real)

  function LogProbs(batch: seq<Example>): seq<real> {
    seq(|batch|, i requires 0 <= i < |batch| => batch[i].logProb)
  }

  function LogLiks(ln: real -> real, sigmoid: real -> real, useLogit: bool, alpha: real, batch: seq<Example>): seq<real> {
    seq(|batch|, i requires 0 <= i < |batch| => LogLik(ln, sigmoid, useLogit, alpha, batch[i]))
  }

  function Corrections(sigmoid: real -> real, batch: seq<Example>): seq<real> {
    seq(|batch|, i requires 0 <= i < |batch| => LogitCorrection(sigmoid, batch[i].pixels))
  }

  function Bits(ln: real -> real, lls: seq<real>): seq<real>
    requires ln(2.0) > 0.0
  {
    seq(|lls|, i requires 0 <= i < |lls| => BitsPerPixel(ln, lls[i]))
  }

  /** `eval_step` on one batch. */
  function EvalStep(ln: real -> real, sigmoid: real -> real, useLogit: bool, alpha: real, batch: seq<Example>): StepResult
    requires ln(2.0) > 0.0 && |batch| > 0
  {
    var lls := LogLiks(ln, sigmoid, useLogit, alpha, batch);
    StepResult(-Average(LogProbs(batch)), -Average(lls), Average(Bits(ln, lls)))
  }

  function Shifted(xs: seq<real>, c: real): seq<real> {
    seq(|xs|, i requires 0 <= i < |xs| => xs[i] + c)
  }

  function Scaled(xs: seq<real>, c: real): seq<real> {
    seq(|xs|, i requires 0 <= i < |xs| => xs[i] * c)
  }

  lemma {:induction false} SumShifted(xs: seq<real>, c: real)
    ensures Sum(Shifted(xs, c)) == Sum(xs) + |xs| as real * c
    decreases |xs|
  {
    if |xs| > 0 {
      var n := |xs| - 1;
      SumShifted(xs[..n], c);
      assert Shifted(xs, c)[..n] == Shifted(xs[..n], c);
    }
  }

  lemma {:induction false} SumScaled(xs: seq<real>, c: real)
    ensures Sum(Scaled(xs, c)) == Sum(xs) * c
    decreases |xs|
  {
    if |xs| > 0 {
      var n := |xs| - 1;
      SumScaled(xs[..n], c);
      assert Scaled(xs, c)[..n] == Scaled(xs[..n], c) by {
        forall i | 0 <= i < n ensures Scaled(xs, c)[..n][i] == Scaled(xs[..n], c)[i] { }
      }
      assert (Sum(xs[..n]) + xs[n]) * c == Sum(xs[..n]) * c + xs[n] * c;
    }
  }

  lemma {:induction false} SumPointwise(xs: seq<real>, ys: seq<real>, zs: seq<real>)
    requires |xs| == |ys| == |zs| && forall i :: 0 <= i < |xs| ==> zs[i] == xs[i] - ys[i]
    ensures Sum(zs) == Sum(xs) - Sum(ys)
    decreases |xs|
  {
    if |xs| > 0 {
      var n := |xs| - 1;
      SumPointwise(xs[..n], ys[..n], zs[..n]);
    }
  }

  lemma DivideDistributes(a: real, b: real, n: real)
    requires n != 0.0
    ensures (a + b) / n == a / n + b / n
    ensures (a - b) / n == a / n - b / n
  {
  }

  lemma DivideCommutesWithScale(a: real, c: real, n: real)
    requires n != 0.0
    ensures (a * c) / n == (a / n) * c
    ensures (n * c) / n == c
  {
  }

  /** A mean moves with a constant shift and scales with a constant factor. */
  lemma AverageAffine(xs: seq<real>, c: real)
    requires |xs| > 0
    ensures Average(Shifted(xs, c)) == Average(xs) + c
    ensures Average(Scaled(xs, c)) == Average(xs) * c
  {
    AverageShifted(xs, c);
    AverageScaled(xs, c);
  }

  lemma AverageShifted(xs: seq<real>, c: real)
    requires |xs| > 0
    ensures Average(Shifted(xs, c)) == Average(xs) + c
  {
    SumShifted(xs, c);
    var n := |xs| as real;
    assert |Shifted(xs, c)| == |xs|;
    DivideDistributes(Sum(xs), n * c, n);
    DivideCommutesWithScale(Sum(xs), c, n);
    assert Sum(Shifted(xs, c)) == Sum(xs) + n * c;
    assert Average(Shifted(xs, c)) == Sum(Shifted(xs, c)) / n;
  }

  lemma AverageScaled(xs: seq<real>, c: real)
    requires |xs| > 0
    ensures Average(Scaled(xs, c)) == Average(xs) * c
  {
    SumScaled(xs, c);
    var n := |xs| as real;
    assert |Scaled(xs, c)| == |xs|;
    DivideCommutesWithScale(Sum(xs), c, n);
    assert Average(Scaled(xs, c)) == Sum(Scaled(xs, c)) / n;
    assert Sum(Scaled(xs, c)) / n == (Sum(xs) * c) / n;
    assert Average(xs) == Sum(xs) / n;
  }

  /** `sigmoid(x) * (1 - sigmoid(x))` lies in (0, 1/4], so the logit correction is positive
      for a non-empty input and at most a quarter of its size. */
  lemma {:induction false} CorrectionBounds(sigmoid: real -> real, pixels: seq<real>)
    requires forall x :: 0.0 < sigmoid(x) < 1.0
    ensures 0.0 <= LogitCorrection(sigmoid, pixels) <= |pixels| as real / 4.0
    ensures |pixels| > 0 ==> LogitCorrection(sigmoid, pixels) > 0.0
    decreases |pixels|
  {
    if |pixels| > 0 {
      var init := pixels[..|pixels| - 1];
      CorrectionBounds(sigmoid, init);
      var s := sigmoid(pixels[|pixels| - 1]);
      var c := LogitCorrection(sigmoid, init);
      var d := s * (1.0 - s);
      SlopeBounds(s, d);
      assert LogitCorrection(sigmoid, pixels) == c + d;
      var n := |init| as real;
      assert |pixels| as real == n + 1.0;
      assert c + d <= (n + 1.0) / 4.0;
    }
  }

  /** The slope of a sigmoid value `s` in (0, 1), `s * (1 - s)`, lies in (0, 1/4]. */
  lemma SlopeBounds(s: real, d: real)
    requires 0.0 < s < 1.0 && d == s * (1.0 - s)
    ensures 0.0 < d <= 0.25
  {
    var t := 1.0 - s;
    assert 0.0 < s * t;
    assert s * t == 0.25 - (s - 0.5) * (s - 0.5);
    assert (s - 0.5) * (s - 0.5) >= 0.0;
  }

  /** Bits per pixel is the log-likelihood rescaled: strictly decreasing in it, and
      converting back multiplies by `D * ln 2`. */
  lemma BitsPerPixelMonotone(ln: real -> real, ll1: real, ll2: real)
    requires ln(2.0) > 0.0
    ensures ll1 < ll2 <==> BitsPerPixel(ln, ll1) > BitsPerPixel(ln, ll2)
    ensures -BitsPerPixel(ln, ll1) * (D * ln(2.0)) == ll1
  {
    var c := D * ln(2.0);
    assert c > 0.0;
    assert BitsPerPixel(ln, ll1) == -ll1 / c && BitsPerPixel(ln, ll2) == -ll2 / c;
    if ll1 < ll2 {
      assert -ll1 / c > -ll2 / c;
    }
    if -ll1 / c > -ll2 / c {
      assert ll1 < ll2;
    }
  }

  lemma DivideIsScale(x: real, c: real)
    requires c != 0.0
    ensures x / c == x * (1.0 / c)
  {
  }

  /** The NLL of a batch is its raw loss minus the dequantization constant, plus the batch's
      mean logit correction when logit preprocessing is used. */
  lemma NllFromLoss(ln: real -> real, sigmoid: real -> real, useLogit: bool, alpha: real, batch: seq<Example>)
    requires ln(2.0) > 0.0 && |batch| > 0
    ensures var r := EvalStep(ln, sigmoid, useLogit, alpha, batch);
      r.avgNll == r.avgLoss - Dequantization(ln, useLogit, alpha)
                  + (if useLogit then Average(Corrections(sigmoid, batch)) else 0.0)
  {
    var c := Dequantization(ln, useLogit, alpha);
    var lps := LogProbs(batch);
    var lls := LogLiks(ln, sigmoid, useLogit, alpha, batch);
    AverageAffine(lps, c);
    if useLogit {
      var cs := Corrections(sigmoid, batch);
      SumPointwise(Shifted(lps, c), cs, lls);
      DivideDistributes(Sum(Shifted(lps, c)), Sum(cs), |batch| as real);
    } else {
      assert lls == Shifted(lps, c);
    }
  }

  lemma NegatedQuotient(a: real, d: real)
    requires d != 0.0
    ensures -a / d == a * (-1.0 / d)
    ensures a * (-1.0 / d) == (-a) * (1.0 / d)
  {
  }

  lemma BitsAreScaled(ln: real -> real, lls: seq<real>)
    requires ln(2.0) > 0.0
    ensures Bits(ln, lls) == Scaled(lls, -1.0 / (D * ln(2.0)))
  {
    var d := D * ln(2.0);
    forall i | 0 <= i < |lls| ensures Bits(ln, lls)[i] == Scaled(lls, -1.0 / d)[i] {
      NegatedQuotient(lls[i], d);
    }
  }

  /** The bits per pixel of a batch are its NLL expressed in bits per dimension. */
  lemma BitsFromNll(ln: real -> real, sigmoid: real -> real, useLogit: bool, alpha: real, batch: seq<Example>)
    requires ln(2.0) > 0.0 && |batch| > 0
    ensures var r := EvalStep(ln, sigmoid, useLogit, alpha, batch);
      r.avgBpp == r.avgNll * (1.0 / (D * ln(2.0)))
  {
    var lls := LogLiks(ln, sigmoid, useLogit, alpha, batch);
    var d := D * ln(2.0);
    BitsAreScaled(ln, lls);
    AverageAffine(lls, -1.0 / d);
    NegatedQuotient(Average(lls), d);
  }

  /** With logit preprocessing the NLL exceeds the shifted raw loss by a positive amount of
      at most a quarter of the per-example input size. */
  lemma LogitCorrectionRaisesNll(ln: real -> real, sigmoid: real -> real, alpha: real, batch: seq<Example>, size: nat)
    requires ln(2.0) > 0.0 && |batch| > 0
    requires forall x :: 0.0 < sigmoid(x) < 1.0
    requires forall i :: 0 <= i < |batch| ==> 0 < |batch[i].pixels| <= size
    ensures var r := EvalStep(ln, sigmoid, true, alpha, batch);
      var base := r.avgLoss - Dequantization(ln, true, alpha);
      base < r.avgNll <= base + size as real / 4.0
  {
    NllFromLoss(ln, sigmoid, true, alpha, batch);
    var cs := Corrections(sigmoid, batch);
    forall i | 0 <= i < |batch| ensures 0.0 < cs[i] <= size as real / 4.0 {
      CorrectionBounds(sigmoid, batch[i].pixels);
    }
    AverageBounds(cs, size as real / 4.0);
  }

  lemma {:induction false} SumBounds(xs: seq<real>, hi: real)
    requires forall i :: 0 <= i < |xs| ==> 0.0 < xs[i] <= hi
    ensures 0.0 <= Sum(xs) <= |xs| as real * hi
    ensures |xs| > 0 ==> Sum(xs) > 0.0
    decreases |xs|
  {
    if |xs| > 0 {
      SumBounds(xs[..|xs| - 1], hi);
    }
  }

  lemma AverageBounds(xs: seq<real>, hi: real)
    requires |xs| > 0 && forall i :: 0 <= i < |xs| ==> 0.0 < xs[i] <= hi
    ensures 0.0 < Average(xs) <= hi
  {
    SumBounds(xs, hi);
    var n := |xs| as real;
    assert Sum(xs) / n <= (n * hi) / n;
  }

  /** The results of `eval_step` over a pass, in order. */
  function Steps(ln: real -> real, sigmoid: real -> real, useLogit: bool, alpha: real, batches: seq<seq<Example>>): seq<StepResult>
    requires ln(2.0) > 0.0 && forall b :: b in batches ==> |b| > 0
  {
    seq(|batches|, i requires 0 <= i < |batches| => EvalStep(ln, sigmoid, useLogit, alpha, batches[i]))
  }

  function LossColumn(rs: seq<StepResult>): seq<real> {
    seq(|rs|, i requires 0 <= i < |rs| => rs[i].avgLoss)
  }

  function NllColumn(rs: seq<StepResult>): seq<real> {
    seq(|rs|, i requires 0 <= i < |rs| => rs[i].avgNll)
  }

  function BppColumn(rs: seq<StepResult>): seq<real> {
    seq(|rs|, i requires 0 <= i < |rs| => rs[i].avgBpp)
  }

  /** The six metrics in the order `evaluate` returns them. */
  datatype Metrics = Metrics(trainLoss: Mean, trainNll: Mean, trainBpp: Mean, testLoss: Mean, testNll: Mean, testBpp: Mean)
  {
    function Results(): seq<ExtReal> {
      [trainLoss.Result(), trainNll.Result(), trainBpp.Result(), testLoss.Result(), testNll.Result(), testBpp.Result()]
    }
  }

  /** A running mean of finite values. */
  function Accumulated(xs: seq<real>): Mean {
    Mean(Fin(Sum(xs)), |xs|)
  }

  lemma AccumulateOne(xs: seq<real>, x: real)
    ensures Accumulated(xs).Update(Fin(x)) == Accumulated(xs + [x])
  {
    assert (xs + [x])[..|xs|] == xs;
  }

  /** The two evaluation passes: the train metrics see only `ds`, the test metrics only `dsVal`. */
  method Evaluate(ln: real -> real, sigmoid: real -> real, useLogit: bool, alpha: real,
                  ds: seq<seq<Example>>, dsVal: seq<seq<Example>>) returns (m: Metrics)
    requires ln(2.0) > 0.0
    requires forall b :: b in ds ==> |b| > 0
    requires forall b :: b in dsVal ==> |b| > 0
    ensures var train := Steps(ln, sigmoid, useLogit, alpha, ds);
      && m.trainLoss == Accumulated(LossColumn(train))
      && m.trainNll == Accumulated(NllColumn(train))
      && m.trainBpp == Accumulated(BppColumn(train))
    ensures var test := Steps(ln, sigmoid, useLogit, alpha, dsVal);
      && m.testLoss == Accumulated(LossColumn(test))
      && m.testNll == Accumulated(NllColumn(test))
      && m.testBpp == Accumulated(BppColumn(test))
  {
    var trainLoss, trainNll, trainBpp := Fresh, Fresh, Fresh;
    var testLoss, testNll, testBpp := Fresh, Fresh, Fresh;
    var i := 0;
    while i < |ds|
      invariant 0 <= i <= |ds|
      invariant var rs := Steps(ln, sigmoid, useLogit, alpha, ds[..i]);
        && trainLoss == Accumulated(LossColumn(rs))
        && trainNll == Accumulated(NllColumn(rs))
        && trainBpp == Accumulated(BppColumn(rs))
    {
      var r := EvalStep(ln, sigmoid, useLogit, alpha, ds[i]);
      ghost var before := Steps(ln, sigmoid, useLogit, alpha, ds[..i]);
      AccumulateOne(LossColumn(before), r.avgLoss);
      AccumulateOne(NllColumn(before), r.avgNll);
      AccumulateOne(BppColumn(before), r.avgBpp);
      trainLoss := trainLoss.Update(Fin(r.avgLoss));
      trainNll := trainNll.Update(Fin(r.avgNll));
      trainBpp := trainBpp.Update(Fin(r.avgBpp));
      StepsSnoc(ln, sigmoid, useLogit, alpha, ds, i);
      i := i + 1;
    }
    assert ds[..|ds|] == ds;
    var j := 0;
    while j < |dsVal|
      invariant 0 <= j <= |dsVal|
      invariant var rs := Steps(ln, sigmoid, useLogit, alpha, dsVal[..j]);
        && testLoss == Accumulated(LossColumn(rs))
        && testNll == Accumulated(NllColumn(rs))
        && testBpp == Accumulated(BppColumn(rs))
    {
      var r := EvalStep(ln, sigmoid, useLogit, alpha, dsVal[j]);
      ghost var before := Steps(ln, sigmoid, useLogit, alpha, dsVal[..j]);
      AccumulateOne(LossColumn(before), r.avgLoss);
      AccumulateOne(NllColumn(before), r.avgNll);
      AccumulateOne(BppColumn(before), r.avgBpp);
      testLoss := testLoss.Update(Fin(r.avgLoss));
      testNll := testNll.Update(Fin(r.avgNll));
      testBpp := testBpp.Update(Fin(r.avgBpp));
      StepsSnoc(ln, sigmoid, useLogit, alpha, dsVal, j);
      j := j + 1;
    }
    assert dsVal[..|dsVal|] == dsVal;
    m := Metrics(trainLoss, trainNll, trainBpp, testLoss, testNll, testBpp);
  }

  lemma StepsSnoc(ln: real -> real, sigmoid: real -> real, useLogit: bool, alpha: real, batches: seq<seq<Example>>, i: nat)
    requires ln(2.0) > 0.0 && forall b :: b in batches ==> |b| > 0
    requires i < |batches|
    ensures var before := Steps(ln, sigmoid, useLogit, alpha, batches[..i]);
      var r := EvalStep(ln, sigmoid, useLogit, alpha, batches[i]);
      var after := Steps(ln, sigmoid, useLogit, alpha, batches[..i + 1]);
      && LossColumn(after) == LossColumn(before) + [r.avgLoss]
      && NllColumn(after) == NllColumn(before) + [r.avgNll]
      && BppColumn(after) == BppColumn(before) + [r.avgBpp]
  {
  }

  /** Each reported number is the unweighted mean of the per-batch averages of its pass
      (0 for an empty pass), and the aggregated bits per pixel are the aggregated NLL in bits
      per dimension. */
  lemma ReportedMeans(ln: real -> real, sigmoid: real -> real, useLogit: bool, alpha: real,
                      ds: seq<seq<Example>>, dsVal: seq<seq<Example>>, m: Metrics)
    requires ln(2.0) > 0.0
    requires forall b :: b in ds ==> |b| > 0
    requires forall b :: b in dsVal ==> |b| > 0
    requires var train := Steps(ln, sigmoid, useLogit, alpha, ds);
      var test := Steps(ln, sigmoid, useLogit, alpha, dsVal);
      && m.trainLoss == Accumulated(LossColumn(train)) && m.trainNll == Accumulated(NllColumn(train))
      && m.trainBpp == Accumulated(BppColumn(train))
      && m.testLoss == Accumulated(LossColumn(test)) && m.testNll == Accumulated(NllColumn(test))
      && m.testBpp == Accumulated(BppColumn(test))
    ensures var train := Steps(ln, sigmoid, useLogit, alpha, ds);
      var test := Steps(ln, sigmoid, useLogit, alpha, dsVal);
      && m.Results() == [Fin(Average(LossColumn(train))), Fin(Average(NllColumn(train))), Fin(Average(BppColumn(train))),
                         Fin(Average(LossColumn(test))), Fin(Average(NllColumn(test))), Fin(Average(BppColumn(test)))]
      && m.trainBpp.Result().r == m.trainNll.Result().r / (D * ln(2.0))
      && m.testBpp.Result().r == m.testNll.Result().r / (D * ln(2.0))
  {
    PassBitsAreNll(ln, sigmoid, useLogit, alpha, ds);
    PassBitsAreNll(ln, sigmoid, useLogit, alpha, dsVal);
  }

  lemma ColumnsScaled(rs: seq<StepResult>, k: real)
    requires forall i :: 0 <= i < |rs| ==> rs[i].avgBpp == rs[i].avgNll * k
    ensures BppColumn(rs) == Scaled(NllColumn(rs), k)
  {
    assert |BppColumn(rs)| == |Scaled(NllColumn(rs), k)|;
    forall i | 0 <= i < |rs| ensures BppColumn(rs)[i] == Scaled(NllColumn(rs), k)[i] { }
  }

  lemma AverageOfColumns(rs: seq<StepResult>, d: real)
    requires d != 0.0
    requires forall i :: 0 <= i < |rs| ==> rs[i].avgBpp == rs[i].avgNll * (1.0 / d)
    ensures Average(BppColumn(rs)) == Average(NllColumn(rs)) / d
  {
    ColumnsScaled(rs, 1.0 / d);
    if |rs| > 0 {
      AverageScaled(NllColumn(rs), 1.0 / d);
    }
    DivideIsScale(Average(NllColumn(rs)), d);
  }

  lemma StepsBitsFromNll(ln: real -> real, sigmoid: real -> real, useLogit: bool, alpha: real, batches: seq<seq<Example>>)
    requires ln(2.0) > 0.0 && forall b :: b in batches ==> |b| > 0
    ensures var rs := Steps(ln, sigmoid, useLogit, alpha, batches);
      forall i :: 0 <= i < |rs| ==> rs[i].avgBpp == rs[i].avgNll * (1.0 / (D * ln(2.0)))
  {
    forall i | 0 <= i < |batches|
      ensures EvalStep(ln, sigmoid, useLogit, alpha, batches[i]).avgBpp
           == EvalStep(ln, sigmoid, useLogit, alpha, batches[i]).avgNll * (1.0 / (D * ln(2.0)))
    {
      assert batches[i] in batches;
      BitsFromNll(ln, sigmoid, useLogit, alpha, batches[i]);
    }
  }

  /** Over a whole pass, the mean of the batches' bits per pixel is the mean NLL in bits. */
  lemma PassBitsAreNll(ln: real -> real, sigmoid: real -> real, useLogit: bool, alpha: real, batches: seq<seq<Example>>)
    requires ln(2.0) > 0.0 && forall b :: b in batches ==> |b| > 0
    ensures var rs := Steps(ln, sigmoid, useLogit, alpha, batches);
      Average(BppColumn(rs)) == Average(NllColumn(rs)) / (D * ln(2.0))
  {
    StepsBitsFromNll(ln, sigmoid, useLogit, alpha, batches);
    AverageOfColumns(Steps(ln, sigmoid, useLogit, alpha, batches), D * ln(2.0));
  }
}
