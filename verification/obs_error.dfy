/**
  The two observation-error effects: a systematic multiplicative bias, fixed
  between randomizations, and a random multiplicative noise redrawn every
  step. Each keeps one vector of the observation's size, refreshed from the
  dimensions whose names carry an observation index, and clips the scaled
  observation to the observation space's bounds.

  The standard-normal samples of the noise effect are the parameter `noise`.
 */
module ObsError {
  import opened Dimensions
  import opened Options
  import opened Sequences
  import opened ObsNames

  const BiasPrefix: string := "obs_sys_err_multiplier_"
  const NoisePrefix: string := "obs_rand_err_std_"

  /** The slot a dimension writes under `prefix` in a vector of size `n`:
      the pattern must match its name, and the index must be below `n`. */
  function Slot(prefix: string, d: Dimension, n: nat): (r: Option<nat>)
    ensures r.Some? ==> r.value < n
  {
    match MatchIndex(prefix, d.name)
    case Some(k) => if k < n then Some(k) else None
    case None => None
  }

  /** A dimension writes slot `k` exactly when the pattern matches its name
      with digit group `k` and `k` lies within the vector. */
  lemma SlotIsPattern(prefix: string, d: Dimension, n: nat, k: nat)
    requires EndsInNonDigit(prefix)
    ensures Slot(prefix, d, n) == Some(k) <==> PatternMatches(prefix, d.name, k) && k < n
  {
    MatchIndexIsPattern(prefix, d.name);
  }

  /** One iteration of `update_randomized_params`. */
  function Write(vec: seq<real>, d: Dimension, prefix: string): seq<real>
  {
    match Slot(prefix, d, |vec|)
    case Some(k) => vec[k := d.currentValue]
    case None => vec
  }

  /** `update_randomized_params`: every dimension, in order, may overwrite
      the slot its name carries. */
  function Update(vec: seq<real>, dims: seq<Dimension>, prefix: string): (r: seq<real>)
    decreases |dims|
    ensures |r| == |vec|
    ensures forall k :: 0 <= k < |vec| && r[k] != vec[k] ==>
      exists j :: 0 <= j < |dims| && Slot(prefix, dims[j], |vec|) == Some(k) && r[k] == dims[j].currentValue
  {
    if |dims| == 0 then vec
    else
      var next := Write(vec, dims[0], prefix);
      var r := Update(next, dims[1..], prefix);
      assert forall k :: 0 <= k < |vec| && r[k] != vec[k] ==>
        exists j :: 0 <= j < |dims| && Slot(prefix, dims[j], |vec|) == Some(k) && r[k] == dims[j].currentValue
      by {
        forall k | 0 <= k < |vec| && r[k] != vec[k]
          ensures exists j :: 0 <= j < |dims| && Slot(prefix, dims[j], |vec|) == Some(k) && r[k] == dims[j].currentValue
        {
          if r[k] != next[k] {
            var j :| 0 <= j < |dims[1..]| && Slot(prefix, dims[1..][j], |next|) == Some(k) && r[k] == dims[1..][j].currentValue;
            assert dims[j + 1] == dims[1..][j];
          } else {
            assert Slot(prefix, dims[0], |vec|) == Some(k);
          }
        }
      }
      r
  }

  /** An update first applies the first dimension, then the rest. */
  lemma UpdateUnfolds(vec: seq<real>, dims: seq<Dimension>, prefix: string)
    requires |dims| > 0
    ensures Update(vec, dims, prefix) == Update(Write(vec, dims[0], prefix), dims[1..], prefix)
  {
  }

  /** No dimension writes slot `k`. */
  ghost predicate Unwritten(dims: seq<Dimension>, prefix: string, n: nat, k: nat)
  {
    forall j :: 0 <= j < |dims| ==> Slot(prefix, dims[j], n) != Some(k)
  }

  /** A slot that no dimension names keeps its value. */
  lemma {:induction false} UpdateKeepsUnwrittenSlot(vec: seq<real>, dims: seq<Dimension>, prefix: string, k: nat)
    requires k < |vec| && Unwritten(dims, prefix, |vec|, k)
    decreases |dims|
    ensures Update(vec, dims, prefix)[k] == vec[k]
  {
    if |dims| > 0 {
      assert Slot(prefix, dims[0], |vec|) != Some(k);
      assert Unwritten(dims[1..], prefix, |vec|, k) by {
        forall j | 0 <= j < |dims[1..]| ensures Slot(prefix, dims[1..][j], |vec|) != Some(k) {
          assert dims[1..][j] == dims[j + 1];
        }
      }
      UpdateKeepsUnwrittenSlot(Write(vec, dims[0], prefix), dims[1..], prefix, k);
    }
  }

  /** A slot named by some dimension ends with the value of the last
      dimension that names it. */
  lemma {:induction false} UpdateTakesLastWriter(vec: seq<real>, dims: seq<Dimension>, prefix: string, j: nat, k: nat)
    requires j < |dims| && Slot(prefix, dims[j], |vec|) == Some(k)
    requires Unwritten(dims[j + 1..], prefix, |vec|, k)
    decreases |dims|
    ensures Update(vec, dims, prefix)[k] == dims[j].currentValue
  {
    var next := Write(vec, dims[0], prefix);
    UpdateUnfolds(vec, dims, prefix);
    assert |next| == |vec|;
    if j == 0 {
      assert next[k] == dims[0].currentValue;
      UpdateKeepsUnwrittenSlot(next, dims[1..], prefix, k);
    } else {
      var rest := dims[1..];
      assert rest[j - 1] == dims[j];
      assert rest[j - 1 + 1..] == dims[j + 1..];
      UpdateTakesLastWriter(next, rest, prefix, j - 1, k);
    }
  }

  /** `n` ones: the bias before any update. */
  function Ones(n: nat): seq<real>
  {
    Repeat(1.0, n)
  }

  /** `n` zeros: the noise deviations before any update. */
  function Zeros(n: nat): seq<real>
  {
    Repeat(0.0, n)
  }

  /** Without any dimension naming a slot below `n`, an update of the
      initial vector leaves it as it was. */
  lemma UnsetDimensionsKeepInitial(vec: seq<real>, dims: seq<Dimension>, prefix: string)
    requires forall j :: 0 <= j < |dims| ==> Slot(prefix, dims[j], |vec|).None?
    ensures Update(vec, dims, prefix) == vec
  {
    var r := Update(vec, dims, prefix);
    forall k | 0 <= k < |vec| ensures r[k] == vec[k] {
      UpdateKeepsUnwrittenSlot(vec, dims, prefix, k);
    }
  }

  /** `np.clip` of one element: raise to `low`, then cap at `high`. */
  function Clip(x: real, low: real, high: real): (r: real)
    ensures low <= high ==> low <= r <= high
    ensures low <= x <= high ==> r == x
    ensures low <= high && x < low ==> r == low
    ensures x > high ==> r == high
    ensures low > high ==> r == high
  {
    var raised := if x < low then low else x;
    if raised > high then high else raised
  }

  /** The element-wise product of two equally long vectors. */
  function Times(obs: seq<real>, factor: seq<real>): (r: seq<real>)
    requires |factor| == |obs|
    ensures |r| == |obs|
    ensures forall i :: 0 <= i < |obs| && factor[i] == 1.0 ==> r[i] == obs[i]
  {
    seq(|obs|, i requires 0 <= i < |obs| => obs[i] * factor[i])
  }

  /** `np.clip` of a vector against per-element bounds. */
  function ClipAll(obs: seq<real>, low: seq<real>, high: seq<real>): (r: seq<real>)
    requires |low| == |obs| && |high| == |obs|
    ensures |r| == |obs|
    ensures forall i :: 0 <= i < |obs| && low[i] <= high[i] ==> low[i] <= r[i] <= high[i]
    ensures forall i :: 0 <= i < |obs| && low[i] <= obs[i] <= high[i] ==> r[i] == obs[i]
    ensures forall i :: 0 <= i < |obs| && low[i] <= high[i] && obs[i] < low[i] ==> r[i] == low[i]
    ensures forall i :: 0 <= i < |obs| && obs[i] > high[i] ==> r[i] == high[i]
    ensures forall i :: 0 <= i < |obs| && low[i] > high[i] ==> r[i] == high[i]
  {
    seq(|obs|, i requires 0 <= i < |obs| => Clip(obs[i], low[i], high[i]))
  }

  /** `y` is `x` scaled by `f` and clipped to [`low`, `high`]:
      the product itself when within the bounds, otherwise the bound it
      crossed, and `high` when the bounds are crossed. */
  predicate ClippedProduct(y: real, x: real, f: real, low: real, high: real)
  {
    && (low <= high ==> low <= y <= high)
    && (low <= x * f <= high ==> y == x * f)
    && (low <= high && x * f < low ==> y == low)
    && (x * f > high ==> y == high)
    && (low > high ==> y == high)
  }

  /** `ClippedProduct` leaves no freedom: it determines the element. */
  lemma ClippedProductIsUnique(y: real, z: real, x: real, f: real, low: real, high: real)
    requires ClippedProduct(y, x, f, low, high) && ClippedProduct(z, x, f, low, high)
    ensures y == z
  {
  }

  /** Scales the observation element-wise by `factor` and clips each
      element to its bounds. */
  function ScaleAndClip(obs: seq<real>, factor: seq<real>, low: seq<real>, high: seq<real>): (r: seq<real>)
    requires |factor| == |obs| && |low| == |obs| && |high| == |obs|
    ensures |r| == |obs|
    ensures forall i :: 0 <= i < |obs| ==> ClippedProduct(r[i], obs[i], factor[i], low[i], high[i])
  {
    var r := ClipAll(Times(obs, factor), low, high);
    assert forall i :: 0 <= i < |obs| ==> ClippedProduct(r[i], obs[i], factor[i], low[i], high[i]) by {
      forall i | 0 <= i < |obs| ensures ClippedProduct(r[i], obs[i], factor[i], low[i], high[i]) {
        assert Times(obs, factor)[i] == obs[i] * factor[i];
      }
    }
    r
  }

  /** What the wrapped environment's `step` returns. */
  datatype Transition<R, I> = Transition(obs: seq<real>, reward: R, done: bool, info: I)

  /** The systematic-error `step`: multiply by the bias, clip, and pass the
      rest of the transition through. */
  function SystematicStep<R, I>(t: Transition<R, I>, bias: seq<real>, low: seq<real>, high: seq<real>): (r: Transition<R, I>)
    requires |bias| == |t.obs| && |low| == |t.obs| && |high| == |t.obs|
    ensures r.reward == t.reward && r.done == t.done && r.info == t.info
    ensures |r.obs| == |t.obs|
    ensures forall i :: 0 <= i < |t.obs| ==> ClippedProduct(r.obs[i], t.obs[i], bias[i], low[i], high[i])
    ensures bias == Ones(|t.obs|) ==> r.obs == ClipAll(t.obs, low, high)
  {
    Transition(ScaleAndClip(t.obs, bias, low, high), t.reward, t.done, t.info)
  }

  /** The multiplicative factors `1 + std * noise` of one step. */
  function NoiseFactor(std: seq<real>, noise: seq<real>): (f: seq<real>)
    requires |noise| == |std|
    ensures |f| == |std|
    ensures forall i :: 0 <= i < |std| && std[i] == 0.0 ==> f[i] == 1.0
  {
    seq(|std|, i requires 0 <= i < |std| => 1.0 + std[i] * noise[i])
  }

  /** The random-error `step`: multiply by `1 + std * noise`, clip, and pass
      the rest of the transition through. */
  function RandomStep<R, I>(t: Transition<R, I>, std: seq<real>, noise: seq<real>,
                            low: seq<real>, high: seq<real>): (r: Transition<R, I>)
    requires |std| == |t.obs| && |noise| == |t.obs| && |low| == |t.obs| && |high| == |t.obs|
    ensures r.reward == t.reward && r.done == t.done && r.info == t.info
    ensures |r.obs| == |t.obs|
    ensures forall i :: 0 <= i < |t.obs| ==> ClippedProduct(r.obs[i], t.obs[i], 1.0 + std[i] * noise[i], low[i], high[i])
    ensures std == Zeros(|t.obs|) ==> r.obs == ClipAll(t.obs, low, high)
  {
    var factor := NoiseFactor(std, noise);
    var obs := ScaleAndClip(t.obs, factor, low, high);
    assert forall i :: 0 <= i < |t.obs| ==> ClippedProduct(obs[i], t.obs[i], 1.0 + std[i] * noise[i], low[i], high[i]) by {
      forall i | 0 <= i < |t.obs| ensures ClippedProduct(obs[i], t.obs[i], 1.0 + std[i] * noise[i], low[i], high[i]) {
        assert factor[i] == 1.0 + std[i] * noise[i];
      }
    }
    Transition(obs, t.reward, t.done, t.info)
  }

  /** With no bias dimension configured, the systematic-error wrapper
      returns the clipped observation of the wrapped environment. */
  lemma UnsetBiasIsClip<R, I>(dims: seq<Dimension>, t: Transition<R, I>, low: seq<real>, high: seq<real>)
    requires |low| == |t.obs| && |high| == |t.obs|
    requires forall j :: 0 <= j < |dims| ==> Slot(BiasPrefix, dims[j], |t.obs|).None?
    ensures var bias := Update(Ones(|t.obs|), dims, BiasPrefix);
      SystematicStep(t, bias, low, high).obs == ClipAll(t.obs, low, high)
  {
    var bias := Update(Ones(|t.obs|), dims, BiasPrefix);
    UnsetDimensionsKeepInitial(Ones(|t.obs|), dims, BiasPrefix);
    assert bias == Ones(|t.obs|);
    var r := SystematicStep(t, bias, low, high);
  }

  /** With no noise dimension configured, the random-error wrapper returns
      the clipped observation whatever the noise samples. */
  lemma UnsetNoiseIsClip<R, I>(dims: seq<Dimension>, t: Transition<R, I>, noise: seq<real>,
                               low: seq<real>, high: seq<real>)
    requires |noise| == |t.obs| && |low| == |t.obs| && |high| == |t.obs|
    requires forall j :: 0 <= j < |dims| ==> Slot(NoisePrefix, dims[j], |t.obs|).None?
    ensures var std := Update(Zeros(|t.obs|), dims, NoisePrefix);
      RandomStep(t, std, noise, low, high).obs == ClipAll(t.obs, low, high)
  {
    var std := Update(Zeros(|t.obs|), dims, NoisePrefix);
    UnsetDimensionsKeepInitial(Zeros(|t.obs|), dims, NoisePrefix);
    assert std == Zeros(|t.obs|);
    var r := RandomStep(t, std, noise, low, high);
  }

  /** A configured dimension `<prefix><k>`, when it is the last to name
      slot `k`, sets the factor applied to element `k`. */
  lemma ConfiguredDimensionReachesElement(prefix: string, vec: seq<real>, dims: seq<Dimension>, j: nat, k: nat)
    requires EndsInNonDigit(prefix)
    requires k < |vec| && j < |dims| && dims[j].name == prefix + Decimal(k)
    requires Unwritten(dims[j + 1..], prefix, |vec|, k)
    ensures Update(vec, dims, prefix)[k] == dims[j].currentValue
  {
    ConfiguredDimensionHasSlot(prefix, dims[j], |vec|, k);
    UpdateTakesLastWriter(vec, dims, prefix, j, k);
  }

  /** A dimension named `<prefix><k>` writes slot `k` of a vector longer
      than `k`. */
  lemma ConfiguredDimensionHasSlot(prefix: string, d: Dimension, n: nat, k: nat)
    requires EndsInNonDigit(prefix) && k < n && d.name == prefix + Decimal(k)
    ensures Slot(prefix, d, n) == Some(k)
  {
    assert d.name == [] + prefix + Decimal(k);
    ConfiguredNameCarriesIndex(prefix, [], k);
  }

  /** `obs_sys_err_multiplier_<k>`, the last dimension to name slot `k`,
      is the bias of element `k`. */
  lemma ConfiguredBiasReachesElement(bias: seq<real>, dims: seq<Dimension>, j: nat, k: nat)
    requires k < |bias| && j < |dims| && dims[j].name == BiasPrefix + Decimal(k)
    requires Unwritten(dims[j + 1..], BiasPrefix, |bias|, k)
    ensures Update(bias, dims, BiasPrefix)[k] == dims[j].currentValue
  {
    assert BiasPrefix[|BiasPrefix| - 1] == '_';
    ConfiguredDimensionReachesElement(BiasPrefix, bias, dims, j, k);
  }

  /** `obs_rand_err_std_<k>`, the last dimension to name slot `k`, is the
      noise deviation of element `k`. */
  lemma ConfiguredNoiseReachesElement(std: seq<real>, dims: seq<Dimension>, j: nat, k: nat)
    requires k < |std| && j < |dims| && dims[j].name == NoisePrefix + Decimal(k)
    requires Unwritten(dims[j + 1..], NoisePrefix, |std|, k)
    ensures Update(std, dims, NoisePrefix)[k] == dims[j].currentValue
  {
    assert NoisePrefix[|NoisePrefix| - 1] == '_';
    ConfiguredDimensionReachesElement(NoisePrefix, std, dims, j, k);
  }
}
