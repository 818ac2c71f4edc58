# Domain-randomizer wrappers, modelled in Dafny

The core is the set of environment wrappers in `randomizer/wrappers.py`. It models the
following pieces:

- **Randomization driver** (`RandomizedEnvWrapper`):
  - It builds a list of named *dimensions* from configuration records. Each dimension has
    a default, a multiplier range and a current value.
  - It exposes the dimensions as a normalized box of size N with bounds [0, 1].
  - Its `randomize(values)` walks `values` by position. The string `"default"` resets a
    dimension. `"random"` or the sentinel `-1` redraws it. A number in [0, 1] is rescaled
    into the dimension's range.
  - After the walk it asks the environment to apply the new values.
- **Three effect wrappers**, each of which refreshes its own state from the dimensions in
  `update_randomized_params`:
  - the **action delay**: a queue of pending actions whose length follows a delay sampled
    from `action_delay_mean` and `action_delay_std`;
  - the **systematic observation error**: a per-element multiplicative bias read from
    `obs_sys_err_multiplier_<k>`;
  - the **random observation error**: per-element noise deviations read from
    `obs_rand_err_std_<k>`, which scale a fresh standard-normal factor on every step.

Both observation wrappers clip the scaled observation to the observation space's bounds.

Modules:

- `Options`: the `Option` type.
- `Dimensions` (`dimensions.dfy`): the dimension, the configuration record, the box, the
  loading loop and lookup by name.
- `Randomization` (`randomization.dfy`): `randomize`, its error paths, and the wrapper's
  construction.
- `ActionDelay` (`action_delay.dfy`): the parameter scan, the sampled delay, the queue
  step and reset.
- `ObsNames` (`obs_names.dfy`): reading the index `k` out of a dimension name with the
  pattern `<prefix>(\d+)$`.
- `ObsError` (`obs_error.dfy`): the bias and noise vectors, their update, the clip, and
  both `step`s.

How the model represents the source:

- Objects mutated in place become values returned by pure functions.
- An exception in `randomize` is the outcome `Raised(dims, error)`. The dimensions it
  carries include every change made before the exception, and the environment update is
  not applied.
- Randomness becomes a parameter:
  - `draw` is a dimension's fresh random value;
  - `z` is the standard-normal sample of the delay;
  - `noise` holds the samples of the random error.
- `rescale` and the environment's own `update_randomized_params` are function parameters
  too, because their code (`randomizer/dimension.py` and the environments) is not part of
  this model.
- `LinearRescale` is the linear rescale `min + x * (max - min)`. It is used only by the
  round-trip lemma and the worked example.

Behaviour of the code worth noting:

- The default argument of `randomize` is `[-1]`. It redraws dimension 0 only, not every
  dimension (see `Randomization.DefaultArgumentRedrawsFirst`).
- `values` need not have one entry per dimension. A shorter list leaves the remaining
  dimensions untouched. A longer one raises `IndexError` at the first position past the
  dimension list.
- There, an invalid string or an out-of-range number raises `TypeError` or
  `AssertionError` first, because those checks come before the list is indexed.

## Model

| member | source | states |
|---|---|---|
| Dimensions.LoadRandomizationDimensions | randomizer/wrappers.py:32-43 | one dimension per configuration record, in record order, copying name, default and multiplier range and starting at the default; the box is [0, 1] with one coordinate per dimension |
| Randomization.NewRandomizedEnv | randomizer/wrappers.py:16-22 | construction loads one copy of each configured dimension, each with its current value at the default, applies them to the environment once, and keeps the all-"random" list of length N |
| Randomization.Classify | randomizer/wrappers.py:54-62 | "default" resets; "random" and -1 redraw; every other number is a fraction; every other string is rejected |
| Randomization.Walk | randomizer/wrappers.py:53-62 | the walk succeeds iff every entry is accepted and there is no entry past the dimension list; each accepted entry sets its own dimension's value by its branch; on failure it stops at the first bad position with the matching exception, keeping earlier changes and leaving the rest unchanged |
| Randomization.Randomize | randomizer/wrappers.py:45-64 | as for the walk; the environment update is applied to the final dimensions exactly when no exception is raised; dimensions beyond the list are never touched |
| Randomization.RandomizeIsAllowed | randomizer/wrappers.py:53-62 | every successful call's result is allowed by the per-entry rules: a reset gives the default, a fraction gives its rescaled value, a redraw gives any value |
| Randomization.EveryDrawIsReachable | randomizer/wrappers.py:53-64 | conversely, every allowed assignment of new values is produced by some random source |
| Randomization.DefaultArgumentRedrawsFirst | randomizer/wrappers.py:45-62 | the default argument raises IndexError on an empty dimension list; otherwise it redraws dimension 0 and leaves every other dimension unchanged |
| Randomization.AllDefaultResets | randomizer/wrappers.py:49-56 | a list of N "default" strings resets every dimension to its default |
| Randomization.RandomizedDefaultStaysInRange | randomizer/wrappers.py:50-62 | when the draw for each dimension stays within that dimension's multiplier range, the all-"random" list succeeds and keeps every dimension within its range |
| Randomization.FractionsRoundTrip | randomizer/wrappers.py:57-60 | with linear rescaling, passing each dimension's own fraction of its range (0 for a single-point range) succeeds and leaves every dimension as it was |
| Randomization.GravityWindScenario | randomizer/wrappers.py:53-62 | with gravity in [-20, -5] and wind in [-5, 5] (default 0), the entries (0.5, "default") succeed, give gravity -12.5 and wind 0.0, and apply those values |
| ActionDelay.UpdateDelayParams | randomizer/wrappers.py:89-98 | after the update each parameter is set iff some dimension carries its name, and then holds the value of such a dimension |
| ActionDelay.ScanSetsOnlyNamed | randomizer/wrappers.py:89-98 | the update sets the mean iff some dimension is called `action_delay_mean`, and then to the value of such a dimension; likewise for the deviation |
| ActionDelay.UpdateReadsNamedDimensions | randomizer/wrappers.py:89-98 | with at most one dimension of each name, the update reads exactly those dimensions' values, whatever their order, despite the early exit |
| ActionDelay.Delay | randomizer/wrappers.py:102-104 | the delay is zero iff the sample is below 1; otherwise it is the integer part of the sample |
| ActionDelay.Pad | randomizer/wrappers.py:105-106 | padding keeps the queue as a prefix, reaches length `delay`, and repeats the last action |
| ActionDelay.Step | randomizer/wrappers.py:101-111 | under delay 0 the action is executed at once and is the only one queued; under delay d > 0 the head of the queue is executed and the queue holds d actions: the old ones shifted forward (the last one repeated as needed), then the new action |
| ActionDelay.Reset | randomizer/wrappers.py:113-114 | reset leaves a queue of exactly the sample; the next step under delay zero executes the issued action and keeps only it, and under delay d > 0 executes the sample and leaves d - 1 copies of the sample ahead of the issued action |
| ActionDelay.FullQueueShifts | randomizer/wrappers.py:105-111 | on a queue of exactly d actions, a step under delay d pops the head and appends the action |
| ActionDelay.ConstantDelayIsDelayLine | randomizer/wrappers.py:101-111 | under a constant delay d on a full queue, the executed actions are the queued ones followed by the issued ones, each run exactly d steps after issue |
| ActionDelay.ZeroDelayHasNoLag | randomizer/wrappers.py:101-111 | under delay 0 every action is executed in the step it is issued |
| ActionDelay.SingleActionFirstStep | randomizer/wrappers.py:101-111 | a step on a one-action queue pads with that action: under delay zero it executes the issued action, under delay d > 0 it executes the queued action and leaves d - 1 copies of it ahead of the issued action |
| ActionDelay.ResetThenConstantDelay | randomizer/wrappers.py:101-115 | after reset, a constant delay d executes the sample for d steps, then the issued actions in order |
| ActionDelay.StepSampled | randomizer/wrappers.py:101-111 | a step raises iff either delay parameter is unset; otherwise it is the delay-line step under the delay drawn from the mean, deviation and normal sample; a sample below 1 executes the action at once, and otherwise the old head |
| ActionDelay.UnconfiguredMeanRaises | randomizer/wrappers.py:89-104 | with no `action_delay_mean` dimension, a step after the update raises |
| ActionDelay.ConfiguredDelaySteps | randomizer/wrappers.py:89-104 | with both delay dimensions present, a step after the update never raises |
| ObsNames.MatchIndexIsPattern | randomizer/wrappers.py:137-138 | for a prefix ending in a non-digit, the index read from a name is k exactly when the unanchored pattern `<prefix>(\d+)$` matches with digit group k |
| ObsNames.ConfiguredNameCarriesIndex | randomizer/wrappers.py:137-138 | any name ending in `<prefix><k>` (k in decimal) yields index k |
| ObsNames.DecimalRoundTrip | randomizer/wrappers.py:137-138 | reading back the decimal notation of k gives k |
| ObsNames.TrailingDigits | randomizer/wrappers.py:137-138 | the digit group is the longest run of digits ending the name |
| ObsError.SlotIsPattern | randomizer/wrappers.py:137-139 | a dimension writes slot k exactly when the pattern matches its name with digit group k and k is below the observation size |
| ObsError.Update | randomizer/wrappers.py:134-142 | the update keeps the vector's length, and every slot that changes takes the value of some dimension whose name carries that slot |
| ObsError.UpdateKeepsUnwrittenSlot | randomizer/wrappers.py:134-142 | a slot that no dimension names keeps its previous value |
| ObsError.UpdateTakesLastWriter | randomizer/wrappers.py:134-142 | a slot named by several dimensions ends with the value of the last one |
| ObsError.UnsetDimensionsKeepInitial | randomizer/wrappers.py:131-142 | without dimensions naming a slot in range, an update leaves the vector as it was |
| ObsError.ConfiguredBiasReachesElement | randomizer/wrappers.py:134-140 | `obs_sys_err_multiplier_<k>` sets the bias of element k when no later dimension overrides it |
| ObsError.ConfiguredNoiseReachesElement | randomizer/wrappers.py:173-179 | `obs_rand_err_std_<k>` sets the noise deviation of element k when no later dimension overrides it |
| ObsError.ClipAll | randomizer/wrappers.py:147-149 | each element is within its bounds when they are ordered, unchanged when already within them, the lower bound below them, and the upper bound above them or when the bounds are crossed |
| ObsError.Clip | randomizer/wrappers.py:147-149 | the clipped value is within the bounds when they are ordered, unchanged when already within them, and the upper bound when the bounds are crossed |
| ObsError.ScaleAndClip | randomizer/wrappers.py:147-149 | each element is the product of observation and factor when that lies within the bounds, the lower bound below them, the upper bound above them or when the bounds are crossed; this determines the element (`ClippedProductIsUnique`) |
| ObsError.SystematicStep | randomizer/wrappers.py:145-150 | reward, done and info pass through; each observed element is `obs * bias` clipped to its bounds, as for `ScaleAndClip`; an all-ones bias reduces to the clip alone |
| ObsError.NoiseFactor | randomizer/wrappers.py:186-187 | an element with zero deviation has factor exactly 1, whatever its sample |
| ObsError.RandomStep | randomizer/wrappers.py:184-191 | reward, done and info pass through; each observed element is `obs * (1 + std * noise)` clipped to its bounds, as for `ScaleAndClip`; all-zero deviations reduce to the clip alone |
| ObsError.UnsetBiasIsClip | randomizer/wrappers.py:131-150 | with no bias dimension configured, the systematic-error observation is the wrapped observation, clipped |
| ObsError.UnsetNoiseIsClip | randomizer/wrappers.py:170-191 | with no noise dimension configured, the random-error observation is the wrapped observation, clipped, whatever the samples |

## Left out

- Reading the configuration file (lines 29-30): the model starts from the parsed records. A missing field (`KeyError`) is not modelled.
- `randomizer/dimension.py` is not part of this model:
  - `rescale` and the random draw are parameters.
  - A new dimension is taken to start at its default value.
- Random sampling:
  - the delay's normal sample is the real `z`;
  - the noise samples are the sequence `noise`;
  - the action sampled at reset is a parameter.
  - No distribution is modelled.
- Floating point: values are exact reals, and `np.floor` is `Floor`. NaN, infinities and rounding are not modelled, nor is the float32 box dtype.
- Delegation to the wrapped environment:
  - `step` and `reset` of the driver (lines 66-70) and of the observation wrappers (lines 152-153, 193-194);
  - the chained `self.env.update_randomized_params()` calls (lines 99, 143, 182).
  The environment update is the function `update`, applied once per successful call. The observation wrappers take the wrapped `step`'s transition as input.
- numpy shapes: observation, bias, noise and bounds are flat sequences of equal length. Broadcasting and multi-dimensional `flat` indexing are not modelled.
- ObsNames.MatchIndexIsPattern: the regular expression is modelled for ASCII digits and names without a trailing newline. Python's `$` also matches before a final newline, and `\d` also matches other Unicode digits.
- ActionDelay.Step: the queue is assumed non-empty. The constructor and `reset` make it so, and every step keeps it so.
- ObsError.NoiseFactor: the factor is stated only for zero deviations, because the noise itself is an arbitrary parameter.
- The package's `__init__.py` and `setup.py` carry no behaviour and are not modelled.
