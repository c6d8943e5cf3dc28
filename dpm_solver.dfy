/**
 * One step of `DPMDiffusionPosteriorSampling.multistep_dpm_solver_update`
 * (diffusion/respace.py): the x_0 prediction at the truncated current time,
 * the DPM-Solver proposal of the requested order, the DPS correction of that
 * proposal and the fixed blend `0.7 * x_new + 0.3 * proposal`.
 *
 * The noise-prediction network, `_predict_xstart_from_eps`, the first-,
 * second- and third-order DPM-Solver updates and the autograd gradient are
 * collaborators of which only the shapes of their results are assumed.
 */
module DpmPosterior {
  import opened Wrappers
  import opened Tensors
  import opened PosteriorGuidance

  datatype DpmError =
    | EmptyTimeHistory              // `t_prev_list[-1]` of an empty list
    | EmptyModelHistory             // `model_prev_list[-1]` of an empty list, for order 1
    | InvalidOrder(order: int)      // "Solver order must be 1 or 2 or 3"
    | GuidanceFailed(error: GuidanceError)

  /** `.long()` on a floating-point time: truncation toward zero. */
  function Trunc(r: real): (n: int)
    ensures r >= 0.0 ==> 0 <= n && n as real <= r < n as real + 1.0
    ensures r < 0.0 ==> n <= 0 && n as real - 1.0 < r <= n as real
  {
    if r >= 0.0 then r.Floor else -((-r).Floor)
  }

  datatype Solver = Solver(
    guidance: Guidance,
    eps: (Tensor, int) -> Tensor,                                   // `get_model_output(x, t)["eps"]`
    predictXstart: (Tensor, int, Tensor) -> Tensor,                 // `_predict_xstart_from_eps(x_t, t, eps)`
    firstUpdate: (Tensor, real, real, Tensor) -> Tensor,            // `dpm_solver_first_update(x, s, t, model_s)`
    secondUpdate: (Tensor, seq<Tensor>, seq<real>, real) -> Tensor, // `multistep_dpm_solver_second_update`
    thirdUpdate: (Tensor, seq<Tensor>, seq<real>, real) -> Tensor,  // `multistep_dpm_solver_third_update`
    gradient: (Tensor, int) -> Tensor)                              // the loss gradient with respect to `x_t`
  {
    /** The collaborators return well-formed tensors; proposals and gradients are shaped like `x_t`. */
    ghost predicate Valid() {
      && guidance.Valid()
      && (forall x: Tensor, t: int, e: Tensor :: x.Valid() ==> predictXstart(x, t, e).Valid())
      && (forall x: Tensor, s: real, t: real, m: Tensor :: x.Valid() ==> ShapedLike(firstUpdate(x, s, t, m), x))
      && (forall x: Tensor, ms: seq<Tensor>, ts: seq<real>, t: real :: x.Valid() ==> ShapedLike(secondUpdate(x, ms, ts, t), x))
      && (forall x: Tensor, ms: seq<Tensor>, ts: seq<real>, t: real :: x.Valid() ==> ShapedLike(thirdUpdate(x, ms, ts, t), x))
      && (forall x: Tensor, t: int :: x.Valid() ==> ShapedLike(gradient(x, t), x))
    }
  }

  predicate ShapedLike(a: Tensor, b: Tensor) {
    a.Valid() && a.shape == b.shape
  }

  /** The DPM-Solver proposal of the requested order; any other order is a `ValueError`. */
  function Proposal(sv: Solver, x: Tensor, modelPrev: seq<Tensor>, tPrev: seq<real>, t: real, order: int): (r: Result<Tensor, DpmError>)
    requires sv.Valid() && x.Valid() && |tPrev| > 0
    ensures r.Failure? <==> order !in {1, 2, 3} || (order == 1 && modelPrev == [])
    ensures r.Failure? ==> r.error == (if order in {1, 2, 3} then EmptyModelHistory else InvalidOrder(order))
    ensures r.Success? ==> ShapedLike(r.value, x)
  {
    if order == 1 then
      if modelPrev == [] then Failure(EmptyModelHistory)
      else
        var last := tPrev[|tPrev| - 1];
        var modelLast := modelPrev[|modelPrev| - 1];
        assert ShapedLike(sv.firstUpdate(x, last, t, modelLast), x);
        Success(sv.firstUpdate(x, last, t, modelLast))
    else if order == 2 then Success(sv.secondUpdate(x, modelPrev, tPrev, t))
    else if order == 3 then Success(sv.thirdUpdate(x, modelPrev, tPrev, t))
    else Failure(InvalidOrder(order))
  }

  /** `0.7 * x_new + 0.3 * proposal` */
  function Blend(xNew: Tensor, proposal: Tensor): (r: Tensor)
    requires |xNew.data| == |proposal.data|
    ensures r.shape == xNew.shape && |r.data| == |xNew.data|
    ensures forall i :: 0 <= i < |r.data| ==> r.data[i] == 0.7 * xNew.data[i] + 0.3 * proposal.data[i]
  {
    Tensor(xNew.shape, seq(|xNew.data|, i requires 0 <= i < |xNew.data| => 0.7 * xNew.data[i] + 0.3 * proposal.data[i]))
  }

  /** The x_0 prediction at the current time, `t_prev_list[-1]` truncated to an integer. */
  function PredictedStart(sv: Solver, x: Tensor, tPrev: seq<real>): (r: Tensor)
    requires |tPrev| > 0
    ensures sv.Valid() && x.Valid() ==> r.Valid()
  {
    var tCurrent := Trunc(tPrev[|tPrev| - 1]);
    sv.predictXstart(x, tCurrent, sv.eps(x, tCurrent))
  }

  /** Only the current time counts, and only through its integer part: histories whose
      last entries truncate to the same timestep give the same prediction. */
  lemma PredictedStartAtCurrentStep(sv: Solver, x: Tensor, tPrev: seq<real>, tOther: seq<real>)
    requires |tPrev| > 0 && |tOther| > 0
    requires Trunc(tPrev[|tPrev| - 1]) == Trunc(tOther[|tOther| - 1])
    ensures PredictedStart(sv, x, tPrev) == PredictedStart(sv, x, tOther)
  {
  }

  /** The loss gradient at the current time. */
  function CurrentGradient(sv: Solver, x: Tensor, tPrev: seq<real>): Tensor
    requires |tPrev| > 0
  {
    sv.gradient(x, Trunc(tPrev[|tPrev| - 1]))
  }

  /** `multistep_dpm_solver_update`. */
  function MultistepUpdate(sv: Solver, x: Tensor, modelPrev: seq<Tensor>, tPrev: seq<real>, t: real, order: int)
    : (r: Result<Tensor, DpmError>)
    requires sv.Valid() && x.Valid()
    ensures tPrev == [] ==> r == Failure(EmptyTimeHistory)
    ensures tPrev != [] && order !in {1, 2, 3} ==> r == Failure(InvalidOrder(order))
    ensures tPrev != [] && order == 1 && modelPrev == [] ==> r == Failure(EmptyModelHistory)
    ensures r.Success? <==>
      && tPrev != [] && order in {1, 2, 3} && !(order == 1 && modelPrev == [])
      && Batch4(sv.guidance.operator(PredictedStart(sv, x, tPrev))).shape == Batch4(sv.guidance.measurement).shape
    ensures r.Success? ==> r.value.shape == x.shape
  {
    if tPrev == [] then Failure(EmptyTimeHistory)
    else
      var x0Pred := PredictedStart(sv, x, tPrev);
      match Proposal(sv, x, modelPrev, tPrev, t, order)
      case Failure(e) => Failure(e)
      case Success(proposal) =>
        match DpsUpdate(sv.guidance, x0Pred, CurrentGradient(sv, x, tPrev), proposal)
        case Failure(e) => Failure(GuidanceFailed(e))
        case Success(xNew) => Success(Blend(xNew, proposal))
  }

  /** The blend keeps 30% of the proposal and moves the rest by the DPS step, so the
      output is the proposal moved by `0.7 * zeta` times the gradient, with `zeta`
      given by the step-size rule. */
  lemma MultistepMovesProposal(sv: Solver, x: Tensor, modelPrev: seq<Tensor>, tPrev: seq<real>, t: real, order: int)
    requires sv.Valid() && x.Valid()
    requires MultistepUpdate(sv, x, modelPrev, tPrev, t, order).Success?
    ensures var out := MultistepUpdate(sv, x, modelPrev, tPrev, t, order).value;
      var proposal := Proposal(sv, x, modelPrev, tPrev, t, order).value;
      var grad := CurrentGradient(sv, x, tPrev);
      var predicted := Batch4(sv.guidance.operator(PredictedStart(sv, x, tPrev)));
      var observed := Batch4(sv.guidance.measurement);
      exists zeta ::
        && StepRule(sv.guidance.stepSize, LossSum(sv.guidance.lossKind, predicted.data, observed.data),
                    ResidualNorm(predicted.data, observed.data, sv.guidance.sqrt), zeta)
        && |out.data| == |proposal.data| == |grad.data|
        && forall i :: 0 <= i < |out.data| ==> out.data[i] == proposal.data[i] - 0.7 * (zeta * grad.data[i])
  {
    var out := MultistepUpdate(sv, x, modelPrev, tPrev, t, order).value;
    var proposal := Proposal(sv, x, modelPrev, tPrev, t, order).value;
    var grad := CurrentGradient(sv, x, tPrev);
    var x0Pred := PredictedStart(sv, x, tPrev);
    var predicted := Batch4(sv.guidance.operator(x0Pred));
    var observed := Batch4(sv.guidance.measurement);
    var xNew := DpsUpdate(sv.guidance, x0Pred, grad, proposal).value;
    assert out == Blend(xNew, proposal);
    var zeta :| StepRule(sv.guidance.stepSize, LossSum(sv.guidance.lossKind, predicted.data, observed.data),
                         ResidualNorm(predicted.data, observed.data, sv.guidance.sqrt), zeta)
             && xNew == GradientStep(proposal, grad, zeta);
    BlendOfGradientStep(proposal, grad, zeta);
  }

  /** Blending a gradient step of the proposal with the proposal moves it by 70% of the step. */
  lemma BlendOfGradientStep(proposal: Tensor, grad: Tensor, zeta: real)
    requires |proposal.data| == |grad.data|
    ensures var out := Blend(GradientStep(proposal, grad, zeta), proposal);
      forall i :: 0 <= i < |out.data| ==> out.data[i] == proposal.data[i] - 0.7 * (zeta * grad.data[i])
  {
    var xNew := GradientStep(proposal, grad, zeta);
    var out := Blend(xNew, proposal);
    forall i | 0 <= i < |out.data|
      ensures out.data[i] == proposal.data[i] - 0.7 * (zeta * grad.data[i])
    {
      assert xNew.data[i] == proposal.data[i] - zeta * grad.data[i];
    }
  }

  /** With a zero gradient the step returns the DPM-Solver proposal unchanged. */
  lemma MultistepZeroGradient(sv: Solver, x: Tensor, modelPrev: seq<Tensor>, tPrev: seq<real>, t: real, order: int)
    requires sv.Valid() && x.Valid()
    requires MultistepUpdate(sv, x, modelPrev, tPrev, t, order).Success?
    requires AllZero(CurrentGradient(sv, x, tPrev).data)
    ensures MultistepUpdate(sv, x, modelPrev, tPrev, t, order) == Proposal(sv, x, modelPrev, tPrev, t, order)
  {
    var out := MultistepUpdate(sv, x, modelPrev, tPrev, t, order).value;
    var proposal := Proposal(sv, x, modelPrev, tPrev, t, order).value;
    MultistepMovesProposal(sv, x, modelPrev, tPrev, t, order);
    assert out.data == proposal.data;
  }
}
