/**
 * Loss values as the training loop sees them: real numbers together with the
 * non-finite values of floating point (NaN and the two infinities), with the
 * IEEE rules for how those propagate through `+`, `-`, `/` and `<`.
 * Rounding is not modelled: finite arithmetic is exact.
 *
 * Also the running-mean accumulator (a Keras `Mean` metric): a total and a
 * count, whose result is `total / count`, or 0 while nothing was recorded.
 */
module ExtReals {

  datatype ExtReal = Fin(r: real) | PosInf | NegInf | NaN

  /** `tf.math.is_nan(x) or tf.math.is_inf(x)` */
  predicate IsNanOrInf(x: ExtReal) {
    !x.Fin?
  }

  function Neg(x: ExtReal): ExtReal {
    match x
    case Fin(v) => Fin(-v)
    case PosInf => NegInf
    case NegInf => PosInf
    case NaN => NaN
  }

  /** IEEE addition: NaN absorbs, opposite infinities give NaN. */
  function Add(a: ExtReal, b: ExtReal): (s: ExtReal)
    ensures s.Fin? <==> a.Fin? && b.Fin?
    ensures s.NaN? <==> a.NaN? || b.NaN? || (a.PosInf? && b.NegInf?) || (a.NegInf? && b.PosInf?)
  {
    if a.NaN? || b.NaN? then NaN
    else if (a.PosInf? && b.NegInf?) || (a.NegInf? && b.PosInf?) then NaN
    else if a.PosInf? || b.PosInf? then PosInf
    else if a.NegInf? || b.NegInf? then NegInf
    else Fin(a.r + b.r)
  }

  function Sub(a: ExtReal, b: ExtReal): ExtReal {
    Add(a, Neg(b))
  }

  /** Division by a positive element count. */
  function DivCount(x: ExtReal, n: nat): (q: ExtReal)
    requires n > 0
    ensures q.Fin? <==> x.Fin?
  {
    if x.Fin? then Fin(x.r / n as real) else x
  }

  /** IEEE `a < b`: false whenever either side is NaN. */
  predicate Less(a: ExtReal, b: ExtReal) {
    if a.NaN? || b.NaN? then false
    else if a.Fin? && b.Fin? then a.r < b.r
    else (a.NegInf? && !b.NegInf?) || (!a.PosInf? && b.PosInf?)
  }

  lemma LessIsStrictOrder(a: ExtReal, b: ExtReal, c: ExtReal)
    ensures !Less(a, a)
    ensures Less(a, b) ==> !Less(b, a)
    ensures Less(a, b) && Less(b, c) ==> Less(a, c)
    ensures a.NaN? ==> !Less(a, b) && !Less(b, a)
  {
  }

  /** A Keras `Mean` metric: `update_state` adds a value, `result` divides. */
  datatype Mean = Mean(total: ExtReal, count: nat) {

    function Update(v: ExtReal): Mean {
      Mean(Add(total, v), count + 1)
    }

    /** `divide_no_nan(total, count)`: 0 while the count is 0. */
    function Result(): ExtReal {
      if count == 0 then Fin(0.0) else DivCount(total, count)
    }

    /** The effect of `update_state` on each of `vs`, in order. */
    function UpdateAll(vs: seq<ExtReal>): Mean
      decreases |vs|
    {
      if |vs| == 0 then this else UpdateAll(vs[..|vs| - 1]).Update(vs[|vs| - 1])
    }
  }

  /** A freshly created or `reset_states`-ed metric. */
  const Fresh: Mean := Mean(Fin(0.0), 0)

  function Sum(xs: seq<real>): real
    decreases |xs|
  {
    if |xs| == 0 then 0.0 else Sum(xs[..|xs| - 1]) + xs[|xs| - 1]
  }

  /** The arithmetic mean of a list of reals, 0 for the empty list. */
  function Average(xs: seq<real>): real {
    if |xs| == 0 then 0.0 else Sum(xs) / |xs| as real
  }

  function Lift(xs: seq<real>): (ys: seq<ExtReal>)
    ensures |ys| == |xs| && forall i :: 0 <= i < |xs| ==> ys[i] == Fin(xs[i])
  {
    seq(|xs|, i requires 0 <= i < |xs| => Fin(xs[i]))
  }

  lemma {:induction false} UpdateAllSplit(m: Mean, vs: seq<ExtReal>, n: nat)
    requires n < |vs|
    ensures m.UpdateAll(vs[..n + 1]) == m.UpdateAll(vs[..n]).Update(vs[n])
  {
    assert vs[..n + 1][..n] == vs[..n];
  }

  /** Recording only finite values keeps an exact total and count. */
  lemma {:induction false} UpdateAllFinite(xs: seq<real>)
    ensures Fresh.UpdateAll(Lift(xs)) == Mean(Fin(Sum(xs)), |xs|)
  {
    if |xs| > 0 {
      var init := xs[..|xs| - 1];
      assert Lift(xs)[..|xs| - 1] == Lift(init);
      UpdateAllFinite(init);
    }
  }

  /** A `Mean` fed finite values reports their arithmetic mean. */
  lemma MeanOfFinite(xs: seq<real>)
    ensures Fresh.UpdateAll(Lift(xs)).Result() == Fin(Average(xs))
  {
    UpdateAllFinite(xs);
  }

  /** One NaN or infinity among the recorded values poisons the mean, and only then is it non-finite. */
  lemma {:induction false} MeanFiniteIff(vs: seq<ExtReal>)
    ensures Fresh.UpdateAll(vs).count == |vs|
    ensures Fresh.UpdateAll(vs).Result().Fin? <==> forall i :: 0 <= i < |vs| ==> vs[i].Fin?
  {
    if |vs| > 0 {
      var init := vs[..|vs| - 1];
      MeanFiniteIff(init);
      assert Fresh.UpdateAll(init).Result().Fin? <==> Fresh.UpdateAll(init).total.Fin?;
      assert (forall i :: 0 <= i < |vs| ==> vs[i].Fin?) <==>
             (forall i :: 0 <= i < |init| ==> init[i].Fin?) && vs[|vs| - 1].Fin?;
    }
  }
}
