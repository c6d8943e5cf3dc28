/**
 * The measurement-guided update shared by both posterior samplers
 * (diffusion/respace.py): the reconstruction losses, the step-size rule with
 * its zero-loss fallback and the gradient step `x_old - zeta * grad`.
 *
 * Autograd is not modelled: the gradient of the loss with respect to the
 * current sample arrives as a tensor. Square roots come from a collaborator
 * `sqrt` that is only assumed to return the non-negative root.
 */
module PosteriorGuidance {
  import opened Wrappers
  import opened Tensors

  /** `th.nn.MSELoss(reduction="sum")` or `PoissonMseLoss`. */
  datatype LossKind = SumSquaredError | PoissonWeighted

  datatype GuidanceError =
    | LossShapeMismatch(predicted: seq<nat>, observed: seq<nat>)
    | UpdateShapeMismatch(sample: seq<nat>, gradient: seq<nat>)
    | UnknownNoiseModel(name: string)

  /** The loss selected for a noise model name; other names are rejected. */
  function SelectLoss(noiseModel: string): (r: Result<LossKind, GuidanceError>)
    ensures r == Success(SumSquaredError) <==> noiseModel == "gaussian"
    ensures r == Success(PoissonWeighted) <==> noiseModel == "poisson"
    ensures r.Failure? <==> noiseModel != "gaussian" && noiseModel != "poisson"
    ensures r.Failure? ==> r.error == UnknownNoiseModel(noiseModel)
  {
    if noiseModel == "gaussian" then Success(SumSquaredError)
    else if noiseModel == "poisson" then Success(PoissonWeighted)
    else Failure(UnknownNoiseModel(noiseModel))
  }

  function Abs(x: real): real {
    if x < 0.0 then -x else x
  }

  /** `1 / (2 * clamp(|y|, min=1e-2))`, the Poisson-normal weight of an observation. */
  function PoissonWeight(y: real): (w: real)
    ensures 0.0 < w <= 50.0
  {
    var clamped := if Abs(y) < 0.01 then 0.01 else Abs(y);
    assert 2.0 * clamped >= 0.02;
    InverseBound(2.0 * clamped);
    1.0 / (2.0 * clamped)
  }

  lemma InverseBound(c: real)
    requires c >= 0.02
    ensures 0.0 < 1.0 / c <= 50.0
  {
    var inv := 1.0 / c;
    assert inv * c == 1.0;
    assert inv > 0.0;
    assert 0.02 * inv <= c * inv;
  }

  /** `a * a` for a non-negative `a`. The second factor is written `Same(a)`: the
      solver does not conclude that `a * a` is non-zero for a positive `a`, but it
      does for a product of two distinct terms, which `PositiveProduct` supplies. */
  function Square(a: real): (r: real)
    requires a >= 0.0
    ensures r >= 0.0
    ensures r == 0.0 <==> a == 0.0
  {
    if a > 0.0 then
      PositiveProduct(a, Same(a));
      a * Same(a)
    else
      0.0
  }

  /** The identity on reals, used only to keep the two factors of `Square` apart; it is a
      proof device, not a model of any operator of the sampler. */
  function Same(a: real): (r: real)
    ensures r == a
  {
    a
  }

  lemma PositiveProduct(a: real, b: real)
    requires a > 0.0 && b > 0.0
    ensures a * b > 0.0
  {
    assert a * b > 0.0 * b;
  }

  /** The loss contributed by one predicted element `x` against its observation `y`:
      `(x - y) ** 2`, weighted by `1 / (2 * clamp(|y|))` for the Poisson loss. */
  function Term(kind: LossKind, x: real, y: real): (r: real)
    ensures r >= 0.0
    ensures r == 0.0 <==> x == y
  {
    var sq := Square(Abs(x - y));
    match kind
    case SumSquaredError => sq
    case PoissonWeighted =>
      if sq > 0.0 then
        PositiveProduct(PoissonWeight(y), sq);
        PoissonWeight(y) * sq
      else
        0.0
  }

  /** The summed loss over equal-length element lists. */
  function LossSum(kind: LossKind, xs: seq<real>, ys: seq<real>): (r: real)
    requires |xs| == |ys|
    ensures r >= 0.0
  {
    if xs == [] then 0.0
    else
      Term(kind, xs[0], ys[0]) + LossSum(kind, xs[1..], ys[1..])
  }

  /** Both losses vanish exactly when the prediction equals the observation. */
  lemma {:induction false} LossSumZero(kind: LossKind, xs: seq<real>, ys: seq<real>)
    requires |xs| == |ys|
    ensures LossSum(kind, xs, ys) == 0.0 <==> xs == ys
  {
    if xs != [] {
      LossSumZero(kind, xs[1..], ys[1..]);
      if xs[1..] == ys[1..] && xs[0] == ys[0] {
        assert xs == [xs[0]] + xs[1..] && ys == [ys[0]] + ys[1..];
      }
    }
  }

  /** The measurement loss of a prediction against an observation of the same shape;
      `PoissonMseLoss` asserts equal shapes and the summed MSE is taken to demand them too. */
  function Loss(kind: LossKind, predicted: Tensor, observed: Tensor): (r: Result<real, GuidanceError>)
    requires predicted.Valid() && observed.Valid()
    ensures r.Success? <==> predicted.shape == observed.shape
    ensures r.Failure? ==> r.error == LossShapeMismatch(predicted.shape, observed.shape)
    ensures r.Success? ==> r.value >= 0.0 && (r.value == 0.0 <==> predicted.data == observed.data)
  {
    if predicted.shape != observed.shape then Failure(LossShapeMismatch(predicted.shape, observed.shape))
    else
      LossSumZero(kind, predicted.data, observed.data);
      Success(LossSum(kind, predicted.data, observed.data))
  }

  /** `sqrt` returns the non-negative square root of every non-negative real. */
  ghost predicate IsSqrt(sqrt: real -> real) {
    forall s :: s >= 0.0 ==> sqrt(s) >= 0.0 && Square(sqrt(s)) == s
  }

  /** `th.linalg.norm(th.abs(y_pred - y))`: the Euclidean norm of the residual. */
  function ResidualNorm(predicted: seq<real>, observed: seq<real>, sqrt: real -> real): (r: real)
    requires |predicted| == |observed| && IsSqrt(sqrt)
    ensures r >= 0.0 && Square(r) == LossSum(SumSquaredError, predicted, observed)
    ensures r == 0.0 <==> predicted == observed
  {
    LossSumZero(SumSquaredError, predicted, observed);
    sqrt(LossSum(SumSquaredError, predicted, observed))
  }

  /** The step-size rule: `zeta = step_size / ||y - A(x0)||` when the loss is positive,
      and `step_size` itself when the loss is zero. */
  predicate StepRule(stepSize: real, loss: real, norm: real, zeta: real) {
    (loss > 0.0 ==> norm > 0.0 && zeta * norm == stepSize) && (loss <= 0.0 ==> zeta == stepSize)
  }

  function StepSize(stepSize: real, loss: real, norm: real): (zeta: real)
    requires loss > 0.0 ==> norm > 0.0
    ensures StepRule(stepSize, loss, norm, zeta)
  {
    if loss > 0.0 then stepSize / norm else stepSize
  }

  /** `x_old - zeta * grad` */
  function GradientStep(xOld: Tensor, grad: Tensor, zeta: real): (r: Tensor)
    requires |xOld.data| == |grad.data|
    ensures r.shape == xOld.shape && |r.data| == |xOld.data|
    ensures forall i :: 0 <= i < |r.data| ==> r.data[i] == xOld.data[i] - zeta * grad.data[i]
  {
    Tensor(xOld.shape, seq(|xOld.data|, i requires 0 <= i < |xOld.data| => xOld.data[i] - zeta * grad.data[i]))
  }

  /** The settings a posterior-sampling step reads: the loss, the step size, the
      observation `y` and the measurement operator `A`. */
  datatype Guidance = Guidance(
    lossKind: LossKind,
    stepSize: real,
    measurement: Tensor,
    operator: Tensor -> Tensor,
    sqrt: real -> real)
  {
    ghost predicate Valid() {
      IsSqrt(sqrt) && measurement.Valid() && forall t: Tensor :: t.Valid() ==> operator(t).Valid()
    }
  }

  /** `dps_update`: the observation and `A(x0)` are given a batch dimension unless
      they are 4-D, the loss is taken between them, and `x_old` moves against
      `grad` by the step size of the step-size rule. */
  function DpsUpdate(g: Guidance, x0: Tensor, grad: Tensor, xOld: Tensor): (r: Result<Tensor, GuidanceError>)
    requires g.Valid() && x0.Valid() && grad.Valid() && xOld.Valid()
    ensures var predicted, observed := Batch4(g.operator(x0)), Batch4(g.measurement);
      && (r.Success? <==> predicted.shape == observed.shape && grad.shape == xOld.shape)
      && (predicted.shape != observed.shape ==> r == Failure(LossShapeMismatch(predicted.shape, observed.shape)))
      && (r.Success? ==>
            exists zeta :: StepRule(g.stepSize, LossSum(g.lossKind, predicted.data, observed.data),
                                    ResidualNorm(predicted.data, observed.data, g.sqrt), zeta)
                        && r.value == GradientStep(xOld, grad, zeta))
  {
    var observed := Batch4(g.measurement);
    var predicted := Batch4(g.operator(x0));
    match Loss(g.lossKind, predicted, observed)
    case Failure(e) => Failure(e)
    case Success(loss) =>
      if grad.shape != xOld.shape then Failure(UpdateShapeMismatch(xOld.shape, grad.shape))
      else
        var norm := ResidualNorm(predicted.data, observed.data, g.sqrt);
        var zeta := StepSize(g.stepSize, loss, norm);
        assert |xOld.data| == |grad.data|;
        Success(GradientStep(xOld, grad, zeta))
  }

  /** When `A(x0)` reproduces the observation the loss is zero and the full
      step size is used: `x_new = x_old - step_size * grad`. */
  lemma DpsUpdateExactFit(g: Guidance, x0: Tensor, grad: Tensor, xOld: Tensor)
    requires g.Valid() && x0.Valid() && grad.Valid() && xOld.Valid() && grad.shape == xOld.shape
    requires Batch4(g.operator(x0)) == Batch4(g.measurement)
    ensures DpsUpdate(g, x0, grad, xOld) == Success(GradientStep(xOld, grad, g.stepSize))
  {
    var observed := Batch4(g.measurement);
    LossSumZero(g.lossKind, observed.data, observed.data);
  }

  /** When the loss is positive the step moves `x_old` by exactly `step_size`
      times the unit direction of the gradient scaled by the residual norm. */
  lemma DpsUpdateNormalised(g: Guidance, x0: Tensor, grad: Tensor, xOld: Tensor)
    requires g.Valid() && x0.Valid() && grad.Valid() && xOld.Valid() && grad.shape == xOld.shape
    requires Batch4(g.operator(x0)).shape == Batch4(g.measurement).shape
    requires Batch4(g.operator(x0)).data != Batch4(g.measurement).data
    ensures var r := DpsUpdate(g, x0, grad, xOld);
      var norm := ResidualNorm(Batch4(g.operator(x0)).data, Batch4(g.measurement).data, g.sqrt);
      r.Success? && norm > 0.0 &&
      forall i :: 0 <= i < |xOld.data| ==> (xOld.data[i] - r.value.data[i]) * norm == g.stepSize * grad.data[i]
  {
    var predicted, observed := Batch4(g.operator(x0)), Batch4(g.measurement);
    LossSumZero(g.lossKind, predicted.data, observed.data);
    var loss := LossSum(g.lossKind, predicted.data, observed.data);
    var norm := ResidualNorm(predicted.data, observed.data, g.sqrt);
    var zeta := StepSize(g.stepSize, loss, norm);
    var stepped := GradientStep(xOld, grad, zeta);
    assert DpsUpdate(g, x0, grad, xOld) == Success(stepped);
    forall i | 0 <= i < |xOld.data|
      ensures (xOld.data[i] - stepped.data[i]) * norm == g.stepSize * grad.data[i]
    {
      ScaledProduct(zeta, norm, g.stepSize, grad.data[i]);
    }
  }

  lemma ScaledProduct(zeta: real, norm: real, stepSize: real, d: real)
    requires zeta * norm == stepSize
    ensures (zeta * d) * norm == stepSize * d
  {
    assert (zeta * d) * norm == (zeta * norm) * d;
  }

  /** A zero gradient leaves the sample where it was. */
  lemma DpsUpdateZeroGradient(g: Guidance, x0: Tensor, grad: Tensor, xOld: Tensor)
    requires g.Valid() && x0.Valid() && grad.Valid() && xOld.Valid() && grad.shape == xOld.shape
    requires Batch4(g.operator(x0)).shape == Batch4(g.measurement).shape
    requires AllZero(grad.data)
    ensures DpsUpdate(g, x0, grad, xOld) == Success(xOld)
  {
    var predicted, observed := Batch4(g.operator(x0)), Batch4(g.measurement);
    var r := DpsUpdate(g, x0, grad, xOld);
    var zeta :| StepRule(g.stepSize, LossSum(g.lossKind, predicted.data, observed.data),
                         ResidualNorm(predicted.data, observed.data, g.sqrt), zeta)
             && r.value == GradientStep(xOld, grad, zeta);
    assert r.value.data == xOld.data;
  }
}
