/**
 * The control skeleton of the ancestral posterior sampler
 * (`DiffusionPosteriorSampling` in diffusion/respace.py): one reverse step
 * `p_sample` with its `t != 0` noise mask and its DPS correction, and the
 * progressive loop that walks the spaced timesteps from `num_timesteps - 1`
 * down to 0, feeding each step's sample into the next.
 *
 * The network, the base-diffusion formulas behind `p_mean_variance`, the
 * Gaussian noise draw and the autograd gradient of the measurement loss are
 * collaborators: functions the sampler is given, of which only the shapes
 * of their results are assumed.
 */
module Samplers {
  import opened Wrappers
  import opened Tensors
  import opened PosteriorGuidance
  import Timesteps
  import Spacing

  /** What `p_mean_variance` reports for a sample: `"mean"`, `"log_variance"` and `"pred_xstart"`. */
  datatype MeanVariance = MeanVariance(mean: Tensor, logVariance: Tensor, predXstart: Tensor)

  /** One record yielded by the progressive loop: `"sample"`, `"pred_xstart"` and `"mean"`. */
  datatype StepRecord = StepRecord(sample: Tensor, predXstart: Tensor, mean: Tensor)

  datatype SamplingError =
    | EmptySchedule             // `min([])` on the index list of a schedule without steps
    | ScalarShape               // `shape[0]` of an empty shape
    | GuidanceFailed(error: GuidanceError)

  /** The records yielded so far and, when a step raised, its error. */
  datatype Trace = Trace(records: seq<StepRecord>, failure: Option<SamplingError>)

  datatype Sampler = Sampler(
    diffusion: Spacing.SpacedDiffusion,
    guidance: Guidance,
    meanVariance: (Tensor, seq<int>) -> MeanVariance,
    noise: (Tensor, seq<int>) -> Tensor,
    gradient: (Tensor, seq<int>) -> Tensor,
    exp: real -> real)
  {
    /** `num_timesteps`, the length of the respaced schedule. */
    function NumTimesteps(): nat {
      |diffusion.timestepMap|
    }

    /** The collaborators return well-formed tensors shaped like the sample they are given. */
    ghost predicate Valid() {
      && guidance.Valid()
      && (forall x: Tensor, t: seq<int> :: x.Valid() ==> MeanVarianceFits(meanVariance(x, t), x.shape))
      && (forall x: Tensor, t: seq<int> :: x.Valid() ==> noise(x, t).Valid() && noise(x, t).shape == x.shape)
      && (forall x: Tensor, t: seq<int> :: x.Valid() ==> gradient(x, t).Valid() && gradient(x, t).shape == x.shape)
    }
  }

  predicate MeanVarianceFits(out: MeanVariance, shape: seq<nat>) {
    && out.mean.Valid() && out.mean.shape == shape
    && out.logVariance.Valid() && out.logVariance.shape == shape
    && out.predXstart.Valid()
  }

  /** `th.tensor([i] * shape[0])`: the timestep `i` for every batch element. */
  function Uniform(i: int, batch: nat): (t: seq<int>)
    ensures |t| == batch && forall b :: 0 <= b < batch ==> t[b] == i
  {
    seq(batch, _ => i)
  }

  /** The batch element that the `p`-th element (row-major) of a tensor of this shape belongs to. */
  function BatchIndex(shape: seq<nat>, p: int): (b: int)
    requires |shape| >= 1 && 0 <= p < Product(shape)
    ensures 0 <= b < shape[0]
  {
    BatchIndexInRange(shape, p);
    p / Product(shape[1..])
  }

  lemma BatchIndexInRange(shape: seq<nat>, p: int)
    requires |shape| >= 1 && 0 <= p < Product(shape)
    ensures 0 <= p / Product(shape[1..]) < shape[0]
  {
    var inner := Product(shape[1..]);
    assert Product(shape) == shape[0] * inner;
    if inner > 0 {
      DivBelow(p, inner, shape[0]);
    }
  }

  lemma DivBelow(p: int, inner: int, count: int)
    requires inner > 0 && 0 <= p < count * inner
    ensures 0 <= p / inner < count
  {
    var q := p / inner;
    assert q * inner + p % inner == p;
    if q >= count {
      Timesteps.MulMono(count, q, inner);
    }
  }

  /** `(t != 0).float()` broadcast over the elements of each batch entry. */
  function NonzeroMask(t: seq<int>, shape: seq<nat>, p: int): (m: real)
    requires |shape| >= 1 && |t| == shape[0] && 0 <= p < Product(shape)
    ensures m == 1.0 || m == 0.0
    ensures m == 1.0 <==> t[BatchIndex(shape, p)] != 0
  {
    if t[BatchIndex(shape, p)] != 0 then 1.0 else 0.0
  }

  /** `mean + nonzero_mask * exp(0.5 * log_variance) * noise` */
  function NoisedSample(mean: Tensor, logVariance: Tensor, noise: Tensor, t: seq<int>, exp: real -> real): (r: Tensor)
    requires mean.Valid() && logVariance.Valid() && noise.Valid()
    requires logVariance.shape == mean.shape && noise.shape == mean.shape
    requires |mean.shape| >= 1 && |t| == mean.shape[0]
    ensures r.Valid() && r.shape == mean.shape
    ensures forall p :: 0 <= p < |r.data| && t[BatchIndex(mean.shape, p)] == 0 ==> r.data[p] == mean.data[p]
    ensures forall p :: 0 <= p < |r.data| && t[BatchIndex(mean.shape, p)] != 0 ==>
              r.data[p] == mean.data[p] + exp(0.5 * logVariance.data[p]) * noise.data[p]
  {
    Tensor(mean.shape, seq(|mean.data|, p requires 0 <= p < |mean.data| =>
      mean.data[p] + NonzeroMask(t, mean.shape, p) * exp(0.5 * logVariance.data[p]) * noise.data[p]))
  }

  /** `p_sample`: the posterior mean and variance of the network, the noised ancestral
      sample, and the DPS correction of that sample driven by the x_0 prediction. */
  function PSample(s: Sampler, x: Tensor, t: seq<int>): (r: Result<StepRecord, GuidanceError>)
    requires s.Valid() && x.Valid() && |x.shape| >= 1 && |t| == x.shape[0]
    ensures var out := s.meanVariance(x, t);
      && (r.Success? <==> Batch4(s.guidance.operator(out.predXstart)).shape == Batch4(s.guidance.measurement).shape)
      && (r.Success? ==> r.value.predXstart == out.predXstart && r.value.mean == out.mean)
      && (r.Success? ==> r.value.sample.Valid() && r.value.sample.shape == x.shape)
  {
    var out := s.meanVariance(x, t);
    var sample := NoisedSample(out.mean, out.logVariance, s.noise(x, t), t, s.exp);
    match DpsUpdate(s.guidance, out.predXstart, s.gradient(x, t), sample)
    case Failure(e) => Failure(e)
    case Success(corrected) => Success(StepRecord(corrected, out.predXstart, out.mean))
  }

  /** At the step where every batch element has `t == 0` no noise is added: the
      sample is the DPS correction of the posterior mean itself. */
  lemma PSampleFinalStep(s: Sampler, x: Tensor, t: seq<int>)
    requires s.Valid() && x.Valid() && |x.shape| >= 1 && |t| == x.shape[0]
    requires forall b :: 0 <= b < |t| ==> t[b] == 0
    ensures var out := s.meanVariance(x, t);
      PSample(s, x, t).Success? ==>
        PSample(s, x, t) == Success(StepRecord(DpsUpdate(s.guidance, out.predXstart, s.gradient(x, t), out.mean).value,
                                               out.predXstart, out.mean))
  {
    var out := s.meanVariance(x, t);
    var sample := NoisedSample(out.mean, out.logVariance, s.noise(x, t), t, s.exp);
    assert sample.data == out.mean.data;
    assert sample == out.mean;
  }

  /** `sample` is the noised ancestral sample of `p_sample` at `t` (`NoisedSample`) moved
      against the loss gradient by a step size `zeta` of the step-size rule. */
  ghost predicate MovesNoisedSample(s: Sampler, x: Tensor, t: seq<int>, sample: Tensor)
    requires s.Valid() && x.Valid() && |x.shape| >= 1 && |t| == x.shape[0]
  {
    var out := s.meanVariance(x, t);
    var noised := NoisedSample(out.mean, out.logVariance, s.noise(x, t), t, s.exp);
    var grad := s.gradient(x, t);
    var predicted := Batch4(s.guidance.operator(out.predXstart));
    var observed := Batch4(s.guidance.measurement);
    && |predicted.data| == |observed.data|
    && exists zeta ::
      && StepRule(s.guidance.stepSize, LossSum(s.guidance.lossKind, predicted.data, observed.data),
                  ResidualNorm(predicted.data, observed.data, s.guidance.sqrt), zeta)
      && |sample.data| == |noised.data| == |grad.data|
      && forall p :: 0 <= p < |sample.data| ==> sample.data[p] == noised.data[p] - zeta * grad.data[p]
  }

  /** The new sample of a successful `p_sample` is the noised ancestral sample moved against
      the loss gradient by the step size of the step-size rule. */
  lemma PSampleMovesNoisedSample(s: Sampler, x: Tensor, t: seq<int>)
    requires s.Valid() && x.Valid() && |x.shape| >= 1 && |t| == x.shape[0]
    requires PSample(s, x, t).Success?
    ensures MovesNoisedSample(s, x, t, PSample(s, x, t).value.sample)
  {
    var out := s.meanVariance(x, t);
    var grad := s.gradient(x, t);
    var predicted := Batch4(s.guidance.operator(out.predXstart));
    var observed := Batch4(s.guidance.measurement);
    var noised := NoisedSample(out.mean, out.logVariance, s.noise(x, t), t, s.exp);
    var sample := DpsUpdate(s.guidance, out.predXstart, grad, noised).value;
    assert PSample(s, x, t).value.sample == sample;
    var zeta :| StepRule(s.guidance.stepSize, LossSum(s.guidance.lossKind, predicted.data, observed.data),
                         ResidualNorm(predicted.data, observed.data, s.guidance.sqrt), zeta)
             && sample == GradientStep(noised, grad, zeta);
    GradientStepMoves(noised, grad, zeta, sample);
  }

  /** The elementwise form of a gradient step, for a result already named `r`. */
  lemma GradientStepMoves(xOld: Tensor, grad: Tensor, zeta: real, r: Tensor)
    requires |xOld.data| == |grad.data| && r == GradientStep(xOld, grad, zeta)
    ensures |r.data| == |xOld.data| == |grad.data|
    ensures forall p :: 0 <= p < |r.data| ==> r.data[p] == xOld.data[p] - zeta * grad.data[p]
  {
  }

  /** With every batch element at timestep `i`, the ancestral sample is the mean when
      `i == 0` and `mean + exp(0.5 * log_variance) * noise` everywhere otherwise. */
  lemma NoisedAtTimestep(mean: Tensor, logVariance: Tensor, noise: Tensor, i: int, exp: real -> real)
    requires mean.Valid() && logVariance.Valid() && noise.Valid()
    requires logVariance.shape == mean.shape && noise.shape == mean.shape && |mean.shape| >= 1
    ensures var r := NoisedSample(mean, logVariance, noise, Uniform(i, mean.shape[0]), exp);
      && (i == 0 ==> r == mean)
      && (i != 0 ==> forall p :: 0 <= p < |r.data| ==> r.data[p] == mean.data[p] + exp(0.5 * logVariance.data[p]) * noise.data[p])
  {
    var t := Uniform(i, mean.shape[0]);
    var r := NoisedSample(mean, logVariance, noise, t, exp);
    forall p | 0 <= p < |r.data| ensures t[BatchIndex(mean.shape, p)] == i {
      BatchIndexInRange(mean.shape, p);
    }
    if i == 0 {
      assert r.data == mean.data;
    }
  }

  /** The loop body at timestep `i`: `p_sample` with `t = th.tensor([i] * shape[0])`. */
  function Step(s: Sampler, x: Tensor, i: int): (r: Result<StepRecord, GuidanceError>)
    requires s.Valid() && x.Valid() && |x.shape| >= 1
    ensures r.Success? ==> r.value.sample.Valid() && r.value.sample.shape == x.shape
  {
    PSample(s, x, Uniform(i, x.shape[0]))
  }

  /** The loop body at timestep `i` succeeds exactly when the DPS loss shapes agree for the
      network's prediction at that timestep, and records the network's prediction and mean. */
  lemma StepOutcome(s: Sampler, x: Tensor, i: int)
    requires s.Valid() && x.Valid() && |x.shape| >= 1
    ensures var out := s.meanVariance(x, Uniform(i, x.shape[0]));
      var r := Step(s, x, i);
      && (r.Success? <==> Batch4(s.guidance.operator(out.predXstart)).shape == Batch4(s.guidance.measurement).shape)
      && (r.Success? ==> r.value.predXstart == out.predXstart && r.value.mean == out.mean)
  {
  }

  /** The new sample of a successful loop body at timestep `i` is the ancestral sample at `i`
      (see `NoisedAtTimestep`) moved against the loss gradient by the step-size rule. */
  lemma StepMovesNoisedSample(s: Sampler, x: Tensor, i: int)
    requires s.Valid() && x.Valid() && |x.shape| >= 1
    requires Step(s, x, i).Success?
    ensures MovesNoisedSample(s, x, Uniform(i, x.shape[0]), Step(s, x, i).value.sample)
  {
    PSampleMovesNoisedSample(s, x, Uniform(i, x.shape[0]));
  }

  /** The loop body as a function of the current sample and the timestep. */
  type StepFunction = (Tensor, int) --> Result<StepRecord, GuidanceError>

  /** `p_sample` of the sampler `s`, as the loop calls it. */
  function StepOf(s: Sampler): StepFunction {
    (x: Tensor, i: int) requires s.Valid() && x.Valid() && |x.shape| >= 1 => Step(s, x, i)
  }

  /** Every step from a sample of this shape is defined and yields a sample of the same shape. */
  ghost predicate KeepsShape(step: StepFunction, shape: seq<nat>) {
    forall x: Tensor, i: int {:trigger step.requires(x, i)} :: x.Valid() && x.shape == shape ==>
      && step.requires(x, i)
      && (step(x, i).Success? ==> step(x, i).value.sample.Valid() && step(x, i).value.sample.shape == shape)
  }

  lemma StepOfKeepsShape(s: Sampler, shape: seq<nat>)
    requires s.Valid() && |shape| >= 1
    ensures KeepsShape(StepOf(s), shape)
  {
  }

  /** The outcome of running the loop body for the timesteps `n - 1` down to 0 from sample `x`. */
  function Run(step: StepFunction, x: Tensor, n: nat): (tr: Trace)
    requires x.Valid() && KeepsShape(step, x.shape)
    ensures |tr.records| <= n
    ensures tr.failure.None? <==> |tr.records| == n
    ensures tr.failure.Some? ==> tr.failure.value.GuidanceFailed?
    ensures forall k :: 0 <= k < |tr.records| ==> tr.records[k].sample.Valid() && tr.records[k].sample.shape == x.shape
    decreases n
  {
    if n == 0 then Trace([], None)
    else
      assert step.requires(x, n - 1);
      match step(x, n - 1)
      case Failure(e) => Trace([], Some(GuidanceFailed(e)))
      case Success(record) =>
        var rest := Run(step, record.sample, n - 1);
        Trace([record] + rest.records, rest.failure)
  }

  /** The sample the `k`-th step starts from: the initial sample, then each step's output. */
  function Previous(x: Tensor, records: seq<StepRecord>, k: nat): Tensor
    requires k <= |records|
  {
    if k == 0 then x else records[k - 1].sample
  }

  /** The `k`-th record is the step at timestep `n - 1 - k` applied to the previous
      record's sample, so the loop visits `n - 1, ..., 0` in that order, each once. */
  lemma {:induction false} RunVisitsDescending(step: StepFunction, x: Tensor, n: nat)
    requires x.Valid() && KeepsShape(step, x.shape)
    ensures forall k :: 0 <= k < |Run(step, x, n).records| ==>
      step(Previous(x, Run(step, x, n).records, k), n - 1 - k) == Success(Run(step, x, n).records[k])
    decreases n
  {
    RunVisits(step, x, n);
    forall k | 0 <= k < |Run(step, x, n).records|
      ensures step(Previous(x, Run(step, x, n).records, k), n - 1 - k) == Success(Run(step, x, n).records[k])
    {
      VisitsAt(step, x, Run(step, x, n).records, n, k);
    }
  }

  /** Each record is the step at the next lower timestep from the previous record's sample. */
  ghost predicate Visits(step: StepFunction, x: Tensor, records: seq<StepRecord>, n: int)
    requires x.Valid() && KeepsShape(step, x.shape)
    decreases |records|
  {
    records == [] ||
    (n > 0 && step(x, n - 1) == Success(records[0]) && Visits(step, records[0].sample, records[1..], n - 1))
  }

  lemma {:induction false} RunVisits(step: StepFunction, x: Tensor, n: nat)
    requires x.Valid() && KeepsShape(step, x.shape)
    ensures Visits(step, x, Run(step, x, n).records, n)
    decreases n
  {
    if n > 0 && step(x, n - 1).Success? {
      var record := step(x, n - 1).value;
      var rest := Run(step, record.sample, n - 1);
      RunVisits(step, record.sample, n - 1);
      assert Run(step, x, n).records == [record] + rest.records;
      assert ([record] + rest.records)[1..] == rest.records;
    }
  }

  /** Record `k` of a chain of visits is the step at timestep `n - 1 - k` from the sample before it. */
  lemma {:induction false} VisitsAt(step: StepFunction, x: Tensor, records: seq<StepRecord>, n: int, k: nat)
    requires x.Valid() && KeepsShape(step, x.shape) && Visits(step, x, records, n) && k < |records|
    ensures Previous(x, records, k).Valid() && Previous(x, records, k).shape == x.shape
    ensures step(Previous(x, records, k), n - 1 - k) == Success(records[k])
    decreases k
  {
    if k > 0 {
      var first := records[0];
      VisitsAt(step, first.sample, records[1..], n - 1, k - 1);
      assert Previous(x, records, k) == Previous(first.sample, records[1..], k - 1);
    }
  }

  /** A loop that stops early stops with the error of the step right after the last record. */
  lemma {:induction false} RunStopsAtFailure(step: StepFunction, x: Tensor, n: nat)
    requires x.Valid() && KeepsShape(step, x.shape)
    ensures var tr := Run(step, x, n);
      tr.failure.Some? ==>
        var failed := step(Previous(x, tr.records, |tr.records|), n - 1 - |tr.records|);
        failed.Failure? && tr.failure == Some(GuidanceFailed(failed.error))
    decreases n
  {
    var tr := Run(step, x, n);
    if n > 0 {
      assert step.requires(x, n - 1);
      var first := step(x, n - 1);
      if first.Success? {
        var record := first.value;
        var rest := Run(step, record.sample, n - 1);
        RunStopsAtFailure(step, record.sample, n - 1);
        assert tr.records == [record] + rest.records;
        if tr.failure.Some? {
          var m := |rest.records|;
          assert Previous(x, tr.records, m + 1) == Previous(record.sample, rest.records, m);
          assert n - 1 - (m + 1) == n - 1 - 1 - m;
        }
      }
    }
  }

  /** `p_sample_loop_progressive`: from the initial sample `x0` (the Gaussian draw of
      the requested shape), one record per timestep, `num_timesteps - 1` down to 0. */
  method PSampleLoopProgressive(s: Sampler, shape: seq<nat>, x0: Tensor)
    returns (records: seq<StepRecord>, failure: Option<SamplingError>)
    requires s.Valid() && x0.Valid() && x0.shape == shape
    ensures s.NumTimesteps() == 0 ==> records == [] && failure == Some(EmptySchedule)
    ensures s.NumTimesteps() > 0 && |shape| == 0 ==> records == [] && failure == Some(ScalarShape)
    ensures s.NumTimesteps() > 0 && |shape| > 0 ==> Trace(records, failure) == Run(StepOf(s), x0, s.NumTimesteps())
  {
    var numTimesteps := s.NumTimesteps();
    if numTimesteps == 0 {
      return [], Some(EmptySchedule);
    }
    if |shape| == 0 {
      return [], Some(ScalarShape);
    }
    StepOfKeepsShape(s, shape);
    records, failure := RunLoop(StepOf(s), x0, numTimesteps);
  }

  /** The loop of `p_sample_loop` over the timesteps `n - 1` down to 0, for any step function. */
  method RunLoop(step: StepFunction, x0: Tensor, n: nat) returns (records: seq<StepRecord>, failure: Option<SamplingError>)
    requires x0.Valid() && KeepsShape(step, x0.shape)
    ensures Trace(records, failure) == Run(step, x0, n)
  {
    records := [];
    var x := x0;
    var i := n;
    while i > 0
      invariant 0 <= i <= n
      invariant x.Valid() && x.shape == x0.shape
      invariant Run(step, x0, n) == Resume(records, Run(step, x, i))
    {
      var out := step(x, i - 1);
      if out.Failure? {
        RunFails(step, x, i, out.error);
        assert records + [] == records;
        return records, Some(GuidanceFailed(out.error));
      }
      RunContinues(step, x, i, out.value, records);
      records := records + [out.value];
      x := out.value.sample;
      i := i - 1;
    }
    failure := None;
  }

  /** The trace of a run that had already yielded `records`. */
  function Resume(records: seq<StepRecord>, tr: Trace): Trace {
    Trace(records + tr.records, tr.failure)
  }

  /** A failing first step ends the run with no records. */
  lemma RunFails(step: StepFunction, x: Tensor, n: nat, e: GuidanceError)
    requires x.Valid() && KeepsShape(step, x.shape) && n > 0 && step(x, n - 1) == Failure(e)
    ensures Run(step, x, n) == Trace([], Some(GuidanceFailed(e)))
  {
  }

  /** A successful first step heads the run from its sample with one timestep fewer. */
  lemma RunContinues(step: StepFunction, x: Tensor, n: nat, record: StepRecord, records: seq<StepRecord>)
    requires x.Valid() && KeepsShape(step, x.shape) && n > 0 && step(x, n - 1) == Success(record)
    ensures Resume(records, Run(step, x, n)) == Resume(records + [record], Run(step, record.sample, n - 1))
  {
    var rest := Run(step, record.sample, n - 1);
    assert Run(step, x, n) == Trace([record] + rest.records, rest.failure);
    assert records + ([record] + rest.records) == (records + [record]) + rest.records;
  }

  /** `p_sample_loop`: the `"sample"` of the last record. */
  method PSampleLoop(s: Sampler, shape: seq<nat>, x0: Tensor) returns (r: Result<Tensor, SamplingError>)
    requires s.Valid() && x0.Valid() && x0.shape == shape
    ensures s.NumTimesteps() == 0 ==> r == Failure(EmptySchedule)
    ensures s.NumTimesteps() > 0 && |shape| == 0 ==> r == Failure(ScalarShape)
    ensures s.NumTimesteps() > 0 && |shape| > 0 ==>
      var tr := Run(StepOf(s), x0, s.NumTimesteps());
      && (r.Success? <==> tr.failure.None?)
      && (r.Success? ==> r.value == tr.records[s.NumTimesteps() - 1].sample)
      && (r.Failure? ==> Some(r.error) == tr.failure)
  {
    var records, failure := PSampleLoopProgressive(s, shape, x0);
    if failure.Some? {
      return Failure(failure.value);
    }
    r := Success(records[|records| - 1].sample);
  }
}
