# Diffusion posterior sampling: a Dafny model of the sampler's bookkeeping

This project models the discrete core of a diffusion-posterior-sampling (DPS) code base:

- **Timestep respacing.** `space_timesteps` chooses which steps of the original diffusion schedule a respaced sampler keeps, by "ddimN" striding or by evenly spaced indices per section. `SpacedDiffusion` then builds the timestep map and the respaced betas. The wrapped model translates spaced indices back to original ones.
- **The DPS correction.** The sum-of-squares and Poisson-weighted losses, the step size `zeta = step_size / ||A(x0) - y||` with its zero-loss fallback, and the update `x_old - zeta * grad`.
- **The ancestral sampler.** One step of `p_sample`, with its `t != 0` noise mask. The progressive loop visits timesteps `T-1` down to `0`, and `p_sample_loop` returns the last sample.
- **The DPM-Solver variant.** The solver-order check, the truncated current time, and the fixed `0.7 * x_new + 0.3 * proposal` blend.
- **The measurement operators.** Noise-model validation, identity, magnitude and grayscale. Random inpainting keeps its mask, box inpainting places its box once and zeroes it in place, and the non-linear and motion blurs keep their kernels.

Tensors are values holding a shape and row-major real elements (`Tensors.Tensor`). Reals are exact, so floating-point rounding is not modelled. The networks, the base diffusion formulas, the DPM-Solver updates, convolutions and the autograd gradient are collaborators: function-typed fields or parameters. Of each collaborator the model assumes only that it returns a well-formed tensor of the expected shape.

Random draws take one of two forms:

- Draws made by a stateful operator are nondeterministic choices within the range the draw promises (`torch.rand` in `[0, 1)`, `torch.randint(0, k)` in `[0, k)`).
- The sampler's Gaussian noise is a collaborator function.

The modules, in dependency order:

- `wrappers.dfy` (Wrappers)
- `timesteps.dfy` (Timesteps)
- `spacing.dfy` (Spacing)
- `tensors.dfy` (Tensors)
- `posterior_sampling.dfy` (PosteriorGuidance)
- `samplers.dfy` (Samplers)
- `dpm_solver.dfy` (DpmPosterior)
- `measurement_models.dfy` (MeasurementModels)

Where the code and its documentation differ, the model follows the code:

- The ddim error message names `num_timesteps`, not the requested count.
- The grayscale weights sum to 0.9999, not 1.
- A 3-D input whose channel count is not 3 comes back from `Grayscale` as 4-D.

## Model

| member | source | states |
|---|---|---|
| Timesteps.RoundHalfEven | diffusion/respace.py:66 | `round` of a rational: the result is within half a unit of `n/d`, and an exact tie goes to the even integer |
| Timesteps.RoundOfMultiple | diffusion/respace.py:66 | rounding an exact integer quotient gives that integer |
| Timesteps.RoundInSection | diffusion/respace.py:62-67 | the k-th rounded offset `round(k*(size-1)/(count-1))` lies in `[0, size-1]` for `k < count` |
| Timesteps.RoundStrictlyIncreasing | diffusion/respace.py:62-67 | because the fractional stride is at least 1, successive rounded offsets strictly increase |
| Timesteps.RangeLenSpec | diffusion/respace.py:43 | `len(range(0, n, i))` counts exactly the k with `k*i < n` |
| Timesteps.StridedRangeFacts | diffusion/respace.py:44 | `range(0, n, i)` is strictly increasing, inside `[0, n)`, and holds exactly the multiples of `i` below `n` |
| Timesteps.DdimStride | diffusion/respace.py:42-47 | the search over strides `1..n-1` returns the smallest stride whose range has the requested length, and fails exactly when none has |
| Timesteps.SmallestStrideSet | diffusion/respace.py:44 | the returned set has exactly the requested number of elements: the multiples of the stride below `n` |
| Timesteps.DdimOneUnsatisfiable | diffusion/respace.py:42-47 | "ddim1" can never be met, because every stride below `n` gives at least two indices |
| Timesteps.SectionStartClosed | diffusion/respace.py:49-69 | section `i` starts at `i*(n//m) + min(i, n%m)` |
| Timesteps.SectionsPartition | diffusion/respace.py:49-69 | sections are contiguous from 0, and their sizes sum to `n` |
| Timesteps.TakenStepsInSection | diffusion/respace.py:59-67 | a section's indices are strictly increasing and inside `[start, start+size)`; the first is `start`, and with two or more the last is `start+size-1` |
| Timesteps.LastSectionIndex | diffusion/respace.py:62-67 | with count >= 2 the last index of a section is its last step |
| Timesteps.TakeSection | diffusion/respace.py:59-68 | the inner loop appends `count` indices `start + round(k*stride)`, increasing and inside the section |
| Timesteps.AllStepsFacts | diffusion/respace.py:53-69 | after i sections that fit, `all_steps` is strictly increasing, lies below the next section's start, and has the sum of the counts as its length |
| Timesteps.SectionModeFacts | diffusion/respace.py:53-70 | when every section fits, the returned set has as many elements as the sum of the non-negative counts (a negative count takes nothing, as `range` of a negative length is empty), all in `[0, n)` |
| Timesteps.SectionSteps | diffusion/respace.py:49-70 | succeeds iff every section is at least its count; otherwise it reports the first section too small, with its size and count; an empty count list fails |
| Timesteps.SpaceTimesteps | diffusion/respace.py:17-70 | both modes: success conditions, the error raised, the exact set returned, and its size |
| Timesteps.DistinctElementsCount | diffusion/respace.py:70 | `set(...)` of a strictly increasing list has as many elements as the list |
| Timesteps.DocstringExample | diffusion/respace.py:23-25 | 300 steps with counts `[10, 15, 20]`: sections start at 0, 100 and 200; 45 indices; the first section is `0, 11, ..., 99` |
| Timesteps.Ddim50Over1000 | diffusion/respace.py:40-44 | "ddim50" over 1000 steps is stride 20: 50 indices, the multiples of 20 |
| Timesteps.Sections250Over1000 | diffusion/respace.py:49-70 | one section of 250 over 1000 steps gives 250 indices including 0 and 999 |
| Timesteps.SingleSectionEndpoints | diffusion/respace.py:59-67 | a single section of count >= 2 runs from 0 to `n-1` |
| Spacing.ScheduleStep | diffusion/respace.py:91-94 | appending a retained index `i` with beta `1 - alphas_cumprod[i] / last_alpha_cumprod` keeps every new beta equal to one minus the ratio of its step's `alphas_cumprod` to the previous retained one's (1 for the first) |
| Spacing.TelescopeAt | diffusion/respace.py:88-93 | when the new betas follow that ratio rule, the product of `1 - beta` over the first `j+1` of them equals `alphas_cumprod[timestep_map[j]]` |
| Spacing.BetasTelescope | diffusion/respace.py:88-93 | the ratio rule makes the respaced cumulative products equal the original `alphas_cumprod` at every mapped step |
| Spacing.VisitRetained | diffusion/respace.py:91-94 | visiting a retained index keeps the loop invariant: the map is the increasing list of retained indices seen so far, `last_alpha_cumprod` is the last mapped `alphas_cumprod`, and the betas follow the ratio rule |
| Spacing.VisitSkipped | diffusion/respace.py:90-91 | visiting an index that is not retained changes nothing and keeps the loop invariant |
| Spacing.ScheduleUpToSoFar | diffusion/respace.py:88-94 | after the first `i` indices the loop state satisfies the invariant for `i` |
| Spacing.ScheduleComplete | diffusion/respace.py:88-94 | the finished loop yields the strictly increasing list of exactly the retained indices below `len(betas)`, betas following the ratio rule, and cumulative products equal to the original at the mapped steps |
| Spacing.BuildSchedule | diffusion/respace.py:87-94 | `timestep_map` is the strictly increasing list of exactly the retained indices below `len(betas)`; `new_betas` has the same length, and its cumulative products equal the original `alphas_cumprod` at the mapped steps |
| Spacing.NewSpacedDiffusion | diffusion/respace.py:82-96 | the respaced diffusion keeps the retained set, the original step count and the rescale flag, and its schedule telescopes to the original |
| Spacing.SortedUnique | diffusion/respace.py:91-94 | two strictly increasing lists with the same elements are equal |
| Spacing.TimestepMapOfSortedSteps | diffusion/respace.py:82-94 | the timestep map of a `space_timesteps` result is that result's sorted index list |
| Spacing.LookupTimestep | diffusion/respace.py:507-508 | `map_tensor[t]` succeeds iff `-len <= t < len`, with Python's negative indexing |
| Spacing.TranslateTimesteps | diffusion/respace.py:507-508 | each `ts[j]` is replaced by its map entry; any out-of-range index fails |
| Spacing.Rescale | diffusion/respace.py:510 | each rescaled timestep times `original_num_steps` is 1000 times the mapped timestep, i.e. the schedule is stretched onto `[0, 1000)` |
| Spacing.Call | diffusion/respace.py:506-511 | a bare network gets the timesteps as given; a wrapped one succeeds iff every timestep indexes the map and, when rescaling, the original step count is non-zero; an out-of-range index is reported; without rescaling the network gets the mapped timesteps |
| Spacing.WrapModel | diffusion/respace.py:107-112 | an already-wrapped model is returned unchanged; otherwise it is wrapped with this diffusion's map, rescale flag and original step count |
| Spacing.WrapModelIdempotent | diffusion/respace.py:107-112 | wrapping twice is wrapping once, and the calls agree |
| Spacing.ModelTimestep | diffusion/respace.py:509-510 | a translated timestep is below 1000 when rescaled and below the original step count otherwise |
| Spacing.WrappedCallTranslates | diffusion/respace.py:506-511 | for in-range indices the wrapped call forwards `x` and kwargs untouched, with each timestep translated and, if the flag is set, scaled by `1000/original_num_steps` |
| Tensors.Unsqueeze0 | diffusion/respace.py:185-186 | `unsqueeze(0)` adds a leading 1 and keeps the elements |
| Tensors.Squeeze0 | measurement_models/measurement_models.py:75 | `squeeze(0)` drops a leading 1 and otherwise changes nothing |
| Tensors.Promote | measurement_models/measurement_models.py:68-69 | a rank-3 tensor gains a leading batch of one, any other is unchanged; the elements and well-formedness are kept |
| Tensors.Demote | measurement_models/measurement_models.py:75 | a 4-D batch of one loses its leading dimension, anything else is unchanged; the elements are kept |
| Tensors.Batch4 | diffusion/respace.py:185-186 | a measurement that is not 4-D gains a leading batch of one; a 4-D one is unchanged; the elements and well-formedness are kept |
| Tensors.PromoteDemoteRoundTrip | measurement_models/measurement_models.py:68-75 | promoting a rank-3 image and squeezing it gives it back; squeezing a batch of one and promoting gives it back |
| PosteriorGuidance.SelectLoss | diffusion/respace.py:165-168 | "gaussian" selects the summed squared error and "poisson" the Poisson-weighted loss; any other name is an error |
| PosteriorGuidance.PoissonWeight | diffusion/respace.py:129 | the weight `1/(2*max(|y|, 0.01))` lies in `(0, 50]` |
| PosteriorGuidance.Term | diffusion/respace.py:129-131 | each loss term is non-negative, and zero exactly when prediction and observation agree |
| PosteriorGuidance.LossSumZero | diffusion/respace.py:126-132 | the summed loss is zero iff prediction and observation are equal |
| PosteriorGuidance.Loss | diffusion/respace.py:126-132 | the loss is defined iff the shapes match (the assertion); it is non-negative, and zero iff the elements agree |
| PosteriorGuidance.ResidualNorm | diffusion/respace.py:198 | the residual norm is non-negative, squares to the summed squared error, and is zero iff the residual is zero |
| PosteriorGuidance.StepSize | diffusion/respace.py:198 | `zeta = step_size / norm` when the loss is positive, `step_size` otherwise |
| PosteriorGuidance.GradientStep | diffusion/respace.py:199 | each element becomes `x_old - zeta * grad` |
| PosteriorGuidance.DpsUpdate | diffusion/respace.py:173-206 | measurement and `A(x0)` are batched unless 4-D; the update succeeds iff the shapes agree, and then equals the gradient step under the step-size rule; a loss shape mismatch is reported with both shapes |
| PosteriorGuidance.DpsUpdateExactFit | diffusion/respace.py:198 | with zero loss the step uses the plain step size |
| PosteriorGuidance.DpsUpdateNormalised | diffusion/respace.py:198-199 | with positive loss each element moves by `step_size * grad / norm` |
| PosteriorGuidance.DpsUpdateZeroGradient | diffusion/respace.py:199 | a zero gradient leaves `x_old` unchanged |
| Samplers.Uniform | diffusion/respace.py:270 | the timestep tensor repeats `i` once per batch element |
| Samplers.BatchIndexInRange | diffusion/respace.py:234 | every element belongs to a batch entry inside the batch |
| Samplers.NonzeroMask | diffusion/respace.py:234 | the mask is 1 for elements of batch entries with `t != 0` and 0 otherwise |
| Samplers.NoisedSample | diffusion/respace.py:235 | where `t == 0` the sample is the mean; elsewhere it is `mean + exp(0.5*log_variance)*noise` |
| Samplers.PSample | diffusion/respace.py:208-251 | the step succeeds iff the DPS loss shapes agree; the record carries the model's `pred_xstart` and mean, and a sample shaped like `x` |
| Samplers.PSampleMovesNoisedSample | diffusion/respace.py:234-245 | the new sample of a successful step is the noised ancestral sample `mean + nonzero_mask * exp(0.5 * log_variance) * noise`, moved elementwise by `-zeta * grad` with `zeta` from the step-size rule |
| Samplers.Step | diffusion/respace.py:270-286 | the loop body at timestep `i` (`p_sample` with `t = [i] * shape[0]`) keeps the sample's shape when it succeeds |
| Samplers.NoisedAtTimestep | diffusion/respace.py:234-235 | with every batch element at timestep `i`, the ancestral sample is the mean when `i == 0` and `mean + exp(0.5 * log_variance) * noise` in every element otherwise |
| Samplers.StepMovesNoisedSample | diffusion/respace.py:270-286 | the record of a successful loop body at timestep `i` carries the ancestral sample at `[i] * shape[0]` moved by `-zeta * grad` under the step-size rule |
| Samplers.StepOutcome | diffusion/respace.py:270-286 | the loop body at timestep `i` succeeds iff the DPS loss shapes agree for the network's prediction at `[i] * shape[0]`, and records that prediction and mean |
| Samplers.PSampleFinalStep | diffusion/respace.py:234-245 | at `t == 0` the sample is the DPS update of the mean itself |
| Samplers.Run | diffusion/respace.py:266-288 | the trace has at most T records, all of them T when no step fails; every sample keeps the input's shape |
| Samplers.RunVisitsDescending | diffusion/respace.py:266-288 | record k is the step at timestep `T-1-k`, taken from the previous record's sample (the initial noise for k = 0) |
| Samplers.RunVisits | diffusion/respace.py:269-288 | the records of a run form a chain: each is the step at the next lower timestep from the sample of the one before |
| Samplers.VisitsAt | diffusion/respace.py:269-288 | in such a chain, record `k` is the step at timestep `n-1-k` from the sample before it, which keeps the initial shape |
| Samplers.RunStopsAtFailure | diffusion/respace.py:269-288 | a trace that stops early stops at the failing step, at timestep `T-1-len(records)`, with that step's error |
| Samplers.PSampleLoopProgressive | diffusion/respace.py:253-288 | an empty schedule or a shape without a batch dimension fails; otherwise the yielded records are exactly the trace of the descending run |
| Samplers.RunLoop | diffusion/respace.py:269-288 | the loop over `indices` reversed, feeding each record's sample into the next step, yields exactly the records of the descending run and stops at its first failure |
| Samplers.RunFails | diffusion/respace.py:277-283 | a run whose first step fails yields no records and reports that step's error |
| Samplers.RunContinues | diffusion/respace.py:277-284 | a run whose first step succeeds is that record followed by the run from its sample over the remaining timesteps |
| Samplers.PSampleLoop | diffusion/respace.py:300-332 | the result is the last record's sample when every step succeeds, and the run's error otherwise |
| DpmPosterior.Trunc | diffusion/respace.py:431 | `.long()` truncates toward zero |
| DpmPosterior.Proposal | diffusion/respace.py:443-452 | orders 1, 2 and 3 select their update; any other order is a ValueError; order 1 needs a previous model output; a proposal is shaped like `x_t` |
| DpmPosterior.PredictedStart | diffusion/respace.py:431-441 | the x_0 prediction at `t_prev_list[-1].long()` is a well-formed tensor |
| DpmPosterior.PredictedStartAtCurrentStep | diffusion/respace.py:431-441 | the prediction depends on the time history only through the truncated last entry |
| DpmPosterior.Blend | diffusion/respace.py:457 | each element is `0.7 * x_new + 0.3 * proposal` |
| DpmPosterior.MultistepUpdate | diffusion/respace.py:429-460 | empty time history, invalid order and missing model history fail as the source does; otherwise the step succeeds iff the DPS shapes agree, keeping `x_t`'s shape |
| DpmPosterior.MultistepMovesProposal | diffusion/respace.py:412-457 | the output is the proposal moved by `0.7 * zeta * grad`, with `zeta` from the step-size rule |
| DpmPosterior.BlendOfGradientStep | diffusion/respace.py:457 | blending a gradient step of the proposal with the proposal moves each element by `0.7 * zeta * grad` |
| DpmPosterior.MultistepZeroGradient | diffusion/respace.py:414-457 | with a zero gradient the output is the proposal |
| MeasurementModels.NewNoiseProcess | measurement_models/measurement_models.py:23-27 | only "gaussian" and "poisson" are accepted; any other name is a ValueError naming it |
| MeasurementModels.NoiseModelRoundTrip | measurement_models/measurement_models.py:23-27 | every noise model is accepted under its own name |
| MeasurementModels.Identity | measurement_models/measurement_models.py:47-48 | the identity operator returns its input |
| MeasurementModels.Magnitude | measurement_models/measurement_models.py:367-369 | `abs()`: every element is non-negative and equals the input element up to sign |
| MeasurementModels.MagnitudeIdempotent | measurement_models/measurement_models.py:367-369 | taking the magnitude twice equals taking it once |
| MeasurementModels.Grayscale | measurement_models/measurement_models.py:388-399 | rank < 2 fails at `shape[1]`; a channel count other than 3 returns the promoted input untouched; a 3-channel batch succeeds with the promoted shape kept |
| MeasurementModels.GrayscaleAt | measurement_models/measurement_models.py:386-395 | each output element is `0.2989 r + 0.5870 g + 0.1140 b` of its pixel |
| MeasurementModels.GrayscaleChannelsAgree | measurement_models/measurement_models.py:394-395 | the three output channels of a pixel are equal |
| MeasurementModels.GrayscaleOfGrayPixel | measurement_models/measurement_models.py:386-395 | a pixel with equal channels `v` comes out as `0.9999 v` |
| MeasurementModels.ExpandOverChannelsAt | measurement_models/measurement_models.py:72-73 | the expanded mask keeps or drops all channels of a pixel together |
| MeasurementModels.Masked | measurement_models/measurement_models.py:74 | kept elements are unchanged and the others are zero |
| MeasurementModels.MaskedIdempotent | measurement_models/measurement_models.py:71-74 | masking again with the stored mask changes nothing |
| MeasurementModels.RandomInpainting.Call | measurement_models/measurement_models.py:66-75 | a non-4-D input fails; the first call draws a mask of the input's shape, and later calls reuse it; the output is the masked input, squeezed for a batch of one |
| MeasurementModels.MaxOffset | measurement_models/measurement_models.py:103-104 | `max_x` leaves room for a box of `min(128, h)` rows, and for `h >= 128` a box at `max_x` ends at the image edge |
| MeasurementModels.SliceLength | measurement_models/measurement_models.py:127 | the slice `start:start+length` takes at most `length` indices, all inside the dimension, and is cut short only at the dimension's end |
| MeasurementModels.Inpainted | measurement_models/measurement_models.py:127 | zeroing a region keeps the length, and every element is either unchanged or zero |
| MeasurementModels.BoxFits | measurement_models/measurement_models.py:101-110 | an offset drawn from `[0, max(1, max_x))` keeps a box of `min(128, h)` rows inside the image |
| MeasurementModels.InpaintedAt | measurement_models/measurement_models.py:127 | covered elements become zero; the rest are unchanged |
| MeasurementModels.InpaintedIdempotent | measurement_models/measurement_models.py:127 | zeroing the box twice equals zeroing it once |
| MeasurementModels.BoxInpainting.Box | measurement_models/measurement_models.py:94-114 | the first call places a box of `min(128,h) x min(128,w)` that fits the image; once `box_values` is set, calls change nothing |
| MeasurementModels.BoxInpainting.Call | measurement_models/measurement_models.py:116-129 | zeroes exactly the box region of every plane, in place, when the slice is 128x128; otherwise it fails and leaves the tensor unchanged; on a first call it succeeds iff the image is at least 128x128 |
| MeasurementModels.Normalise | measurement_models/measurement_models.py:231 | `(x - min)/(max - min + 1e-8)` lies in `[0, 1)` |
| MeasurementModels.NormaliseOrder | measurement_models/measurement_models.py:231 | normalisation keeps the order of the elements in both directions, and sends the minimum to 0 |
| MeasurementModels.NonLinearBlur.Call | measurement_models/measurement_models.py:221-249 | a 4-D input with batch size other than 1 is a ValueError; the latent kernel is drawn once and reused; the blur runs on the squeezed, normalised image and is unsqueezed back |
| MeasurementModels.RepeatAt | measurement_models/measurement_models.py:307-308 | every channel copy of the repeated kernel equals the kernel matrix |
| MeasurementModels.ChannelKernel | measurement_models/measurement_models.py:305-308 | the depthwise kernel has shape `(c, 1, kh, kw)` |
| MeasurementModels.MotionBlur.Call | measurement_models/measurement_models.py:300-313 | the kernel is built on the first call, one copy per input channel, and kept afterwards; the convolution runs with padding `kernel_size[0] // 2` when the channel counts are compatible, and is squeezed for a batch of one |

## Left out

- Autograd (`requires_grad_`, `detach`, `set_grad_enabled`, `th.autograd.grad`): the loss gradient is a collaborator returning a tensor shaped like the sample.
- The base diffusion formulas (`p_mean_variance`, `_predict_xstart_from_eps`, `alphas_cumprod` beyond its definition as a cumulative product) and the first-, second- and third-order DPM-Solver updates: these are collaborators. The model does not capture how many history entries orders 2 and 3 read.
- `get_model_output`'s channel split of the network output, and `DPMDiffusionPosteriorSampling.__init__`: the noise network is a collaborator returning `eps`.
- Randomness: `th.randn`, `torch.rand`, `torch.randint`, `torch.randn` and `NoiseProcess.noiser`/`forward_noise`. The sampler's noise is a collaborator keyed by sample and timestep. The inpainting mask, the box offsets and the blur kernels are nondeterministic choices within their ranges. The 92% drop rate is a probability, not a property of one draw.
- Floating point: the accumulated drift of `cur_idx += frac_stride` (rounding uses the exact rational), NaN and infinity (e.g. `0 * inf` in the masks), division by a zero cumulative alpha (the respaced schedule requires non-zero cumulative alphas), and the `1e-8` guard of the normalisation (modelled as an exact constant).
- `SpacedDiffusion._scale_timesteps` returns its argument unchanged, because the wrapped model does the scaling (`Spacing.Call`); it has no member of its own.
- Device handling, `empty_cache`, `tqdm`, `denormalize_imagenet` and the unused imports.
- The intermediate-index `linspace` of the progressive loop: it is used only by the commented-out image saving.
- The commented-out DPM sampling loop and image saving.
- The invalid-noise-model branch of `DiffusionPosteriorSampling.__init__` prints, then construction fails with a `TypeError` because `__init__` returns a non-`None` value (the DPM sampler raises `NotImplementedError` instead). `SelectLoss` models both as a rejection of the name, and the sampler is given a loss kind.
- PosteriorGuidance.Loss: reports a mismatch for every shape difference, where `MSELoss` would broadcast some compatible shapes with a warning.
- Samplers.PSample: requires one timestep per batch element, which the loop always supplies.
- `section_counts` given as a comma-separated string: the model takes the parsed list. The "ddim" prefix is a constructor of `SectionCounts`, so its `int(...)` parse is not modelled.
- MeasurementModels.Grayscale: a three-channel tensor of rank 2 or 5 or more is reported as an error, where torch might broadcast the weights.
- MeasurementModels.RandomInpainting.Call: a later input of another shape is reported as a mismatch, where torch might broadcast the stored mask.
- MeasurementModels.BoxInpainting.Call: a tensor of rank 5 or more is reported as an error, where torch might broadcast the mask.
- MeasurementModels.MotionBlur.Call: the convolution's output is the collaborator's. Only the channel-group condition of `conv2d` (the kernel's channel count is a multiple of the input's) is checked.
- The KernelWizard network, its weight and YAML loading (`initialize_model`), the motion-blur `Kernel` generator and `F.conv2d`: these are collaborators.
- SuperResolution, GaussianBlur, PhaseRetrieval and RandomElastic: their behaviour is interpolation, convolution, FFT and elastic warping.
- scripts/lpips_2dirs.py: a command-line script over directories and an external network.
