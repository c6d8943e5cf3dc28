/**
 * `SpacedDiffusion` and `_WrappedModel` (diffusion/respace.py): the reduced
 * noise schedule built from the retained timesteps, and the model adapter that
 * translates spaced-schedule indices back to original-schedule timesteps.
 *
 * The base diffusion process (gaussian_diffusion.py) is not part of this model;
 * its `alphas_cumprod` is taken to be the cumulative product of (1 - beta),
 * computed here over the reals.
 */
module Spacing {
  import opened Wrappers
  import opened Timesteps

  /** The product of (1 - betas[k]) for k < j. */
  function RetainedProduct(betas: seq<real>, j: nat): real
    requires j <= |betas|
  {
    if j == 0 then 1.0 else RetainedProduct(betas, j - 1) * (1.0 - betas[j - 1])
  }

  /** alphas_cumprod of a base diffusion built from `betas`. */
  function AlphasCumprod(betas: seq<real>): (ac: seq<real>)
    ensures |ac| == |betas|
    ensures forall i :: 0 <= i < |betas| ==> ac[i] == RetainedProduct(betas, i + 1)
  {
    seq(|betas|, i requires 0 <= i < |betas| => RetainedProduct(betas, i + 1))
  }

  predicate NonZero(s: seq<real>) {
    forall i :: 0 <= i < |s| ==> s[i] != 0.0
  }

  /** A spaced diffusion process: the retained original indices in order, the
      per-step betas derived from them, and the base process's settings. */
  datatype SpacedDiffusion = SpacedDiffusion(
    useTimesteps: set<int>,
    timestepMap: seq<int>,
    betas: seq<real>,
    originalNumSteps: nat,
    rescaleTimesteps: bool)
  {
    /** timestep_map lists original indices, strictly increasing. */
    predicate Valid() {
      StrictlyIncreasing(timestepMap) && AllIn(timestepMap, 0, originalNumSteps) && |betas| == |timestepMap|
    }
  }

  /** The cumulative fraction before the j-th retained step (1.0 before the first). */
  function PrevAlpha(alphasCumprod: seq<real>, timestepMap: seq<int>, j: int): (r: real)
    requires NonZero(alphasCumprod) && AllIn(timestepMap, 0, |alphasCumprod|) && 0 <= j < |timestepMap|
    ensures r != 0.0
  {
    if j == 0 then 1.0 else alphasCumprod[timestepMap[j - 1]]
  }

  /** Each derived beta is 1 - alphas_cumprod[t] / (previous retained alphas_cumprod). */
  predicate BetasFollow(alphasCumprod: seq<real>, timestepMap: seq<int>, newBetas: seq<real>)
    requires NonZero(alphasCumprod) && AllIn(timestepMap, 0, |alphasCumprod|) && |timestepMap| == |newBetas|
  {
    forall j :: 0 <= j < |timestepMap| ==>
      newBetas[j] == 1.0 - alphasCumprod[timestepMap[j]] / PrevAlpha(alphasCumprod, timestepMap, j)
  }

  /** Rebuilding cumulative fractions from the derived betas gives back the originals. */
  predicate Telescopes(alphasCumprod: seq<real>, timestepMap: seq<int>, newBetas: seq<real>)
    requires AllIn(timestepMap, 0, |alphasCumprod|) && |timestepMap| == |newBetas|
  {
    forall j :: 0 <= j < |timestepMap| ==> RetainedProduct(newBetas, j + 1) == alphasCumprod[timestepMap[j]]
  }

  /** Appending a retained index with its derived beta keeps the betas following the schedule. */
  lemma ScheduleStep(alphasCumprod: seq<real>, timestepMap: seq<int>, newBetas: seq<real>, i: int, last: real)
    requires NonZero(alphasCumprod) && 0 <= i < |alphasCumprod|
    requires AllIn(timestepMap, 0, |alphasCumprod|) && |timestepMap| == |newBetas|
    requires BetasFollow(alphasCumprod, timestepMap, newBetas)
    requires last == if timestepMap == [] then 1.0 else alphasCumprod[timestepMap[|timestepMap| - 1]]
    ensures AllIn(timestepMap + [i], 0, |alphasCumprod|)
    ensures BetasFollow(alphasCumprod, timestepMap + [i], newBetas + [1.0 - alphasCumprod[i] / last])
  {
    var tm, nb := timestepMap + [i], newBetas + [1.0 - alphasCumprod[i] / last];
    assert AllIn(tm, 0, |alphasCumprod|);
    forall j | 0 <= j < |tm| ensures nb[j] == 1.0 - alphasCumprod[tm[j]] / PrevAlpha(alphasCumprod, tm, j) {
      if j < |timestepMap| {
        assert PrevAlpha(alphasCumprod, tm, j) == PrevAlpha(alphasCumprod, timestepMap, j);
      }
    }
  }

  /** Betas derived step by step multiply back to the retained cumulative fraction. */
  lemma {:induction false} TelescopeAt(alphasCumprod: seq<real>, timestepMap: seq<int>, newBetas: seq<real>, j: nat)
    requires NonZero(alphasCumprod) && AllIn(timestepMap, 0, |alphasCumprod|) && |timestepMap| == |newBetas|
    requires BetasFollow(alphasCumprod, timestepMap, newBetas) && j < |timestepMap|
    ensures RetainedProduct(newBetas, j + 1) == alphasCumprod[timestepMap[j]]
    decreases j
  {
    if j > 0 {
      TelescopeAt(alphasCumprod, timestepMap, newBetas, j - 1);
    }
    TelescopeStep(newBetas, j, PrevAlpha(alphasCumprod, timestepMap, j), alphasCumprod[timestepMap[j]]);
  }

  /** One factor of the product: from the previous cumulative fraction to the next. */
  lemma TelescopeStep(betas: seq<real>, j: nat, prev: real, alphaCumprod: real)
    requires j < |betas| && prev != 0.0
    requires RetainedProduct(betas, j) == prev && betas[j] == 1.0 - alphaCumprod / prev
    ensures RetainedProduct(betas, j + 1) == alphaCumprod
  {
    RetainedProductStep(betas, j);
    ScaleEqual(RetainedProduct(betas, j), prev, 1.0 - betas[j]);
    CancelBeta(prev, alphaCumprod, betas[j]);
  }

  lemma RetainedProductStep(betas: seq<real>, j: nat)
    requires j < |betas|
    ensures RetainedProduct(betas, j + 1) == RetainedProduct(betas, j) * (1.0 - betas[j])
  {
  }

  lemma ScaleEqual(x: real, y: real, z: real)
    requires x == y
    ensures x * z == y * z
  {
  }

  /** Multiplying by 1 - (1 - a / p) takes p to a. */
  lemma CancelBeta(p: real, a: real, beta: real)
    requires p != 0.0 && beta == 1.0 - a / p
    ensures p * (1.0 - beta) == a
  {
  }

  /** The derived betas rebuild every retained alphas_cumprod value. */
  lemma BetasTelescope(alphasCumprod: seq<real>, timestepMap: seq<int>, newBetas: seq<real>)
    requires NonZero(alphasCumprod) && AllIn(timestepMap, 0, |alphasCumprod|) && |timestepMap| == |newBetas|
    requires BetasFollow(alphasCumprod, timestepMap, newBetas)
    ensures Telescopes(alphasCumprod, timestepMap, newBetas)
  {
    forall j | 0 <= j < |timestepMap| ensures RetainedProduct(newBetas, j + 1) == alphasCumprod[timestepMap[j]] {
      TelescopeAt(alphasCumprod, timestepMap, newBetas, j);
    }
  }

  /** The loop invariant of the timestep map: the retained indices below `i`, in increasing order. */
  ghost predicate RetainedBelow(s: seq<int>, use: set<int>, i: int) {
    && StrictlyIncreasing(s) && AllIn(s, 0, i)
    && forall x :: x in s <==> x in use && 0 <= x < i
  }

  /** An index that is not retained leaves the map as it is. */
  lemma SkipIndex(s: seq<int>, i: int, use: set<int>)
    requires RetainedBelow(s, use, i) && i !in use
    ensures RetainedBelow(s, use, i + 1)
  {
  }

  lemma AppendIncreasing(s: seq<int>, i: int, use: set<int>)
    requires RetainedBelow(s, use, i) && 0 <= i && i in use
    ensures RetainedBelow(s + [i], use, i + 1)
  {
    forall x | x in s + [i] ensures x in use && 0 <= x < i + 1 {
      if x != i {
        var k :| 0 <= k < |s + [i]| && (s + [i])[k] == x;
        assert k < |s| && s[k] == x;
        assert x in s;
      }
    }
    forall x | x in use && 0 <= x < i + 1 ensures x in s + [i] {
      if x == i {
        assert (s + [i])[|s|] == i;
      } else {
        assert x in s;
        var k :| 0 <= k < |s| && s[k] == x;
        assert (s + [i])[k] == x;
      }
    }
  }

  /** The state of that loop after visiting the indices below `i`. */
  ghost predicate ScheduleSoFar(use: set<int>, alphasCumprod: seq<real>, timestepMap: seq<int>, newBetas: seq<real>,
                                last: real, i: int)
  {
    && NonZero(alphasCumprod) && 0 <= i <= |alphasCumprod|
    && |timestepMap| == |newBetas|
    && RetainedBelow(timestepMap, use, i)
    && AllIn(timestepMap, 0, |alphasCumprod|)
    && last == (if timestepMap == [] then 1.0 else alphasCumprod[timestepMap[|timestepMap| - 1]])
    && last != 0.0
    && BetasFollow(alphasCumprod, timestepMap, newBetas)
  }

  /** Visiting a retained index appends it with its derived beta and keeps the loop invariant. */
  lemma VisitRetained(use: set<int>, alphasCumprod: seq<real>, timestepMap: seq<int>, newBetas: seq<real>, last: real,
                      i: int, n: int)
    requires ScheduleSoFar(use, alphasCumprod, timestepMap, newBetas, last, i) && i < |alphasCumprod| && n == i + 1
    requires i in use
    ensures ScheduleSoFar(use, alphasCumprod, timestepMap + [i], newBetas + [1.0 - alphasCumprod[i] / last], alphasCumprod[i], n)
  {
    ScheduleStep(alphasCumprod, timestepMap, newBetas, i, last);
    AppendIncreasing(timestepMap, i, use);
  }

  /** Visiting an index that is not retained changes nothing and keeps the loop invariant. */
  lemma VisitSkipped(use: set<int>, alphasCumprod: seq<real>, timestepMap: seq<int>, newBetas: seq<real>, last: real,
                     i: int, n: int)
    requires ScheduleSoFar(use, alphasCumprod, timestepMap, newBetas, last, i) && i < |alphasCumprod| && n == i + 1
    requires i !in use
    ensures ScheduleSoFar(use, alphasCumprod, timestepMap, newBetas, last, n)
  {
    SkipIndex(timestepMap, i, use);
  }

  /** The variables of that loop: timestep_map, new_betas and last_alpha_cumprod. */
  datatype ScheduleState = ScheduleState(timestepMap: seq<int>, newBetas: seq<real>, last: real)

  /** One iteration of the loop, at index `i`. */
  function Visit(use: set<int>, alphasCumprod: seq<real>, st: ScheduleState, i: int): ScheduleState
    requires 0 <= i < |alphasCumprod| && st.last != 0.0
  {
    if i in use then
      ScheduleState(st.timestepMap + [i], st.newBetas + [1.0 - alphasCumprod[i] / st.last], alphasCumprod[i])
    else st
  }

  /** ScheduleVisit, stated on the loop state. */
  lemma VisitKeeps(use: set<int>, alphasCumprod: seq<real>, st: ScheduleState, i: int, n: int)
    requires ScheduleSoFar(use, alphasCumprod, st.timestepMap, st.newBetas, st.last, i) && i < |alphasCumprod| && n == i + 1
    ensures ScheduleSoFar(use, alphasCumprod, Visit(use, alphasCumprod, st, i).timestepMap,
                          Visit(use, alphasCumprod, st, i).newBetas, Visit(use, alphasCumprod, st, i).last, n)
  {
    if i in use {
      VisitRetained(use, alphasCumprod, st.timestepMap, st.newBetas, st.last, i, n);
    } else {
      VisitSkipped(use, alphasCumprod, st.timestepMap, st.newBetas, st.last, i, n);
    }
  }

  /** The loop state after visiting the indices below `i`. */
  function ScheduleUpTo(use: set<int>, alphasCumprod: seq<real>, i: nat): (r: ScheduleState)
    requires NonZero(alphasCumprod) && i <= |alphasCumprod|
    ensures r.last != 0.0
    ensures |r.timestepMap| == |r.newBetas| <= i
    decreases i
  {
    if i == 0 then ScheduleState([], [], 1.0)
    else Visit(use, alphasCumprod, ScheduleUpTo(use, alphasCumprod, i - 1), i - 1)
  }

  /** Every prefix of the loop keeps the schedule invariant. */
  lemma {:induction false} ScheduleUpToSoFar(use: set<int>, alphasCumprod: seq<real>, i: nat)
    requires NonZero(alphasCumprod) && i <= |alphasCumprod|
    ensures ScheduleSoFar(use, alphasCumprod, ScheduleUpTo(use, alphasCumprod, i).timestepMap,
                          ScheduleUpTo(use, alphasCumprod, i).newBetas, ScheduleUpTo(use, alphasCumprod, i).last, i)
    decreases i
  {
    if i > 0 {
      ScheduleUpToSoFar(use, alphasCumprod, i - 1);
      VisitKeeps(use, alphasCumprod, ScheduleUpTo(use, alphasCumprod, i - 1), i - 1, i);
    }
  }

  /** The finished schedule: exactly the requested indices in range, in increasing order,
      with betas whose cumulative products give back the retained alphas_cumprod. */
  lemma ScheduleComplete(use: set<int>, alphasCumprod: seq<real>, timestepMap: seq<int>, newBetas: seq<real>)
    requires NonZero(alphasCumprod)
    requires timestepMap == ScheduleUpTo(use, alphasCumprod, |alphasCumprod|).timestepMap
    requires newBetas == ScheduleUpTo(use, alphasCumprod, |alphasCumprod|).newBetas
    ensures StrictlyIncreasing(timestepMap) && AllIn(timestepMap, 0, |alphasCumprod|)
    ensures forall i :: i in timestepMap <==> i in use && 0 <= i < |alphasCumprod|
    ensures BetasFollow(alphasCumprod, timestepMap, newBetas)
    ensures Telescopes(alphasCumprod, timestepMap, newBetas)
  {
    ScheduleUpToSoFar(use, alphasCumprod, |alphasCumprod|);
    BetasTelescope(alphasCumprod, timestepMap, newBetas);
  }

  /** The loop of SpacedDiffusion.__init__ over base_diffusion.alphas_cumprod. */
  method BuildSchedule(useTimesteps: set<int>, alphasCumprod: seq<real>) returns (timestepMap: seq<int>, newBetas: seq<real>)
    requires NonZero(alphasCumprod)
    ensures timestepMap == ScheduleUpTo(useTimesteps, alphasCumprod, |alphasCumprod|).timestepMap
    ensures newBetas == ScheduleUpTo(useTimesteps, alphasCumprod, |alphasCumprod|).newBetas
    ensures |timestepMap| == |newBetas|
    ensures StrictlyIncreasing(timestepMap) && AllIn(timestepMap, 0, |alphasCumprod|)
    ensures forall i :: i in timestepMap <==> i in useTimesteps && 0 <= i < |alphasCumprod|
    ensures BetasFollow(alphasCumprod, timestepMap, newBetas)
    ensures Telescopes(alphasCumprod, timestepMap, newBetas)
  {
    timestepMap, newBetas := [], [];
    var lastAlphaCumprod := 1.0;
    var i := 0;
    while i < |alphasCumprod|
      invariant 0 <= i <= |alphasCumprod|
      invariant ScheduleUpTo(useTimesteps, alphasCumprod, i) == ScheduleState(timestepMap, newBetas, lastAlphaCumprod)
    {
      if i in useTimesteps {
        var alphaCumprod := alphasCumprod[i];
        newBetas := newBetas + [1.0 - alphaCumprod / lastAlphaCumprod];
        lastAlphaCumprod := alphaCumprod;
        timestepMap := timestepMap + [i];
      }
      i := i + 1;
    }
    ScheduleComplete(useTimesteps, alphasCumprod, timestepMap, newBetas);
  }

  /** SpacedDiffusion.__init__: the base process is rebuilt from the derived betas. */
  method NewSpacedDiffusion(useTimesteps: set<int>, betas: seq<real>, rescaleTimesteps: bool) returns (d: SpacedDiffusion)
    requires NonZero(AlphasCumprod(betas))
    ensures d.Valid()
    ensures d.useTimesteps == useTimesteps && d.originalNumSteps == |betas| && d.rescaleTimesteps == rescaleTimesteps
    ensures forall i :: i in d.timestepMap <==> i in useTimesteps && 0 <= i < |betas|
    ensures forall j :: 0 <= j < |d.timestepMap| ==> AlphasCumprod(d.betas)[j] == AlphasCumprod(betas)[d.timestepMap[j]]
  {
    var timestepMap, newBetas := BuildSchedule(useTimesteps, AlphasCumprod(betas));
    d := SpacedDiffusion(useTimesteps, timestepMap, newBetas, |betas|, rescaleTimesteps);
  }

  /** Two strictly increasing lists with the same elements are the same list. */
  lemma {:induction false} SortedUnique(a: seq<int>, b: seq<int>)
    requires StrictlyIncreasing(a) && StrictlyIncreasing(b)
    requires forall x :: x in a <==> x in b
    ensures a == b
  {
    assert Elements(a) == Elements(b);
    DistinctElementsCount(a);
    DistinctElementsCount(b);
    if a != [] {
      assert a[0] in b && b[0] in a;
      var k :| 0 <= k < |b| && b[k] == a[0];
      var l :| 0 <= l < |a| && a[l] == b[0];
      assert b[0] <= b[k] && a[0] <= a[l];
      forall x ensures x in a[1..] <==> x in b[1..] {
        if x in a[1..] {
          var i :| 1 <= i < |a| && a[i] == x;
          assert a[0] < x && x in b;
        }
        if x in b[1..] {
          var i :| 1 <= i < |b| && b[i] == x;
          assert b[0] < x && x in a;
        }
      }
      SortedUnique(a[1..], b[1..]);
      assert a == [a[0]] + a[1..] && b == [b[0]] + b[1..];
    }
  }

  /** Respacing then building the schedule: timestep_map is exactly the list that
      space_timesteps assembled, when every index lies below the schedule's length. */
  lemma TimestepMapOfSortedSteps(steps: seq<int>, timestepMap: seq<int>, n: nat)
    requires StrictlyIncreasing(steps) && AllIn(steps, 0, n)
    requires StrictlyIncreasing(timestepMap)
    requires forall i :: i in timestepMap <==> i in Elements(steps) && 0 <= i < n
    ensures timestepMap == steps
  {
    SortedUnique(timestepMap, steps);
  }

  // ------------------------------------------------------------------
  // _WrappedModel
  // ------------------------------------------------------------------

  datatype CallError = TimestepOutOfRange(t: int) | NoOriginalSteps

  /** A denoising network, or one wrapped with a spaced schedule's translation table. */
  datatype Model<!X, !K, Y> =
    | Network(run: (X, seq<real>, K) -> Y)
    | WrappedModel(model: (X, seq<real>, K) -> Y, timestepMap: seq<int>, rescaleTimesteps: bool, originalNumSteps: nat)

  /** Tensor indexing `map_tensor[t]`: negative indices count from the end. */
  function LookupTimestep(timestepMap: seq<int>, t: int): (r: Result<int, CallError>)
    ensures r.Success? <==> -|timestepMap| <= t < |timestepMap|
    ensures r.Success? && 0 <= t ==> r.value == timestepMap[t]
    ensures r.Success? && t < 0 ==> r.value == timestepMap[|timestepMap| + t]
    ensures r.Failure? ==> r.error == TimestepOutOfRange(t)
  {
    if 0 <= t < |timestepMap| then Success(timestepMap[t])
    else if -|timestepMap| <= t < 0 then Success(timestepMap[|timestepMap| + t])
    else Failure(TimestepOutOfRange(t))
  }

  /** `map_tensor[ts]` over a batch of spaced indices. */
  function TranslateTimesteps(timestepMap: seq<int>, ts: seq<int>): (r: Result<seq<int>, CallError>)
    ensures r.Success? <==> forall j :: 0 <= j < |ts| ==> LookupTimestep(timestepMap, ts[j]).Success?
    ensures r.Success? ==> |r.value| == |ts|
    ensures r.Success? ==> forall j :: 0 <= j < |ts| ==> r.value[j] == LookupTimestep(timestepMap, ts[j]).value
  {
    if ts == [] then Success([])
    else
      match LookupTimestep(timestepMap, ts[0])
      case Failure(e) => Failure(e)
      case Success(t) =>
        match TranslateTimesteps(timestepMap, ts[1..])
        case Failure(e) => Failure(e)
        case Success(rest) => Success([t] + rest)
  }

  function AsReals(ts: seq<int>): (r: seq<real>)
    ensures |r| == |ts| && forall j :: 0 <= j < |ts| ==> r[j] == ts[j] as real
  {
    seq(|ts|, j requires 0 <= j < |ts| => ts[j] as real)
  }

  /** new_ts.float() * (1000.0 / original_num_steps) */
  function Rescale(ts: seq<int>, originalNumSteps: nat): (r: seq<real>)
    requires originalNumSteps > 0
    ensures |r| == |ts|
    ensures forall j :: 0 <= j < |ts| ==> r[j] * (originalNumSteps as real) == 1000.0 * (ts[j] as real)
  {
    var scale := 1000.0 / (originalNumSteps as real);
    var r := seq(|ts|, j requires 0 <= j < |ts| => (ts[j] as real) * scale);
    forall j | 0 <= j < |ts| ensures r[j] * (originalNumSteps as real) == 1000.0 * (ts[j] as real) {
      ScaleBack(ts[j] as real, originalNumSteps as real);
    }
    r
  }

  /** Scaling by `1000 / n` and multiplying by `n` again gives `1000` times the value. */
  lemma ScaleBack(t: real, n: real)
    requires n > 0.0
    ensures t * (1000.0 / n) * n == 1000.0 * t
  {
    var c := 1000.0 / n;
    assert c * n == 1000.0;
    assert t * c * n == t * (c * n);
  }

  /** Calling a model with a batch of timesteps `ts` (and `x`, `kwargs` passed on). */
  function Call<X, K, Y>(m: Model<X, K, Y>, x: X, ts: seq<int>, kwargs: K): (r: Result<Y, CallError>)
    ensures m.Network? ==> r == Success(m.run(x, AsReals(ts), kwargs))
    ensures m.WrappedModel? ==>
      (r.Success? <==> TranslateTimesteps(m.timestepMap, ts).Success? && (m.rescaleTimesteps ==> m.originalNumSteps > 0))
    ensures m.WrappedModel? && TranslateTimesteps(m.timestepMap, ts).Failure? ==> r == Failure(TranslateTimesteps(m.timestepMap, ts).error)
    ensures m.WrappedModel? && !m.rescaleTimesteps && r.Success? ==> r == Success(m.model(x, AsReals(TranslateTimesteps(m.timestepMap, ts).value), kwargs))
  {
    match m
    case Network(run) => Success(run(x, AsReals(ts), kwargs))
    case WrappedModel(model, timestepMap, rescale, originalNumSteps) =>
      match TranslateTimesteps(timestepMap, ts)
      case Failure(e) => Failure(e)
      case Success(newTs) =>
        if !rescale then Success(model(x, AsReals(newTs), kwargs))
        else if originalNumSteps == 0 then Failure(NoOriginalSteps)
        else Success(model(x, Rescale(newTs, originalNumSteps), kwargs))
  }

  /** SpacedDiffusion._wrap_model: an already-wrapped model is returned as it is. */
  function WrapModel<X, K, Y>(d: SpacedDiffusion, m: Model<X, K, Y>): (r: Model<X, K, Y>)
    ensures r.WrappedModel?
    ensures m.WrappedModel? ==> r == m
    ensures m.Network? ==> r == WrappedModel(m.run, d.timestepMap, d.rescaleTimesteps, d.originalNumSteps)
  {
    match m
    case WrappedModel(_, _, _, _) => m
    case Network(run) => WrappedModel(run, d.timestepMap, d.rescaleTimesteps, d.originalNumSteps)
  }

  /** Wrapping twice is wrapping once: no double translation. */
  lemma WrapModelIdempotent<X, K, Y>(d: SpacedDiffusion, m: Model<X, K, Y>, x: X, ts: seq<int>, kwargs: K)
    ensures WrapModel(d, WrapModel(d, m)) == WrapModel(d, m)
    ensures Call(WrapModel(d, WrapModel(d, m)), x, ts, kwargs) == Call(WrapModel(d, m), x, ts, kwargs)
  {
  }

  /** The timestep the wrapped network receives for spaced index `t`:
      timestep_map[t], scaled by 1000 / original_num_steps when rescaling. */
  function ModelTimestep(d: SpacedDiffusion, t: int): (r: real)
    requires d.Valid() && 0 <= t < |d.timestepMap|
    ensures 0.0 <= r
    ensures d.rescaleTimesteps ==> r < 1000.0
    ensures !d.rescaleTimesteps ==> r < d.originalNumSteps as real
  {
    if d.rescaleTimesteps then
      ScaledBelow(d.timestepMap[t] as real, d.originalNumSteps as real);
      (d.timestepMap[t] as real) * (1000.0 / (d.originalNumSteps as real))
    else
      d.timestepMap[t] as real
  }

  lemma ScaledBelow(t: real, n: real)
    requires 0.0 <= t < n
    ensures 0.0 <= t * (1000.0 / n) < 1000.0
  {
    var c := 1000.0 / n;
    var whole := n * c;
    var part := t * c;
    assert whole == 1000.0;
    assert 0.0 <= part < whole;
    assert t * (1000.0 / n) == part;
  }

  /** Calling the wrapped network on a batch of spaced indices of a valid schedule
      passes `x` and the kwargs unchanged and the translated timesteps in place of
      the batch. */
  lemma WrappedCallTranslates<X, K, Y>(d: SpacedDiffusion, run: (X, seq<real>, K) -> Y, x: X, ts: seq<int>, kwargs: K)
    requires d.Valid() && (d.rescaleTimesteps ==> d.originalNumSteps > 0)
    requires forall j :: 0 <= j < |ts| ==> 0 <= ts[j] < |d.timestepMap|
    ensures Call(WrapModel(d, Network(run)), x, ts, kwargs)
         == Success(run(x, seq(|ts|, j requires 0 <= j < |ts| => ModelTimestep(d, ts[j])), kwargs))
  {
    var expected := seq(|ts|, j requires 0 <= j < |ts| => ModelTimestep(d, ts[j]));
    var tr := TranslateTimesteps(d.timestepMap, ts);
    assert tr.Success?;
    if d.rescaleTimesteps {
      var newTs := Rescale(tr.value, d.originalNumSteps);
      forall j | 0 <= j < |ts| ensures newTs[j] == expected[j] {
        assert tr.value[j] == d.timestepMap[ts[j]];
      }
      assert newTs == expected;
    } else {
      assert AsReals(tr.value) == expected;
    }
  }
}
