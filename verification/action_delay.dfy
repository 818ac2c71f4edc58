/**
  The action-delay effect: a queue of pending actions, refilled and cut to
  the sampled delay on every step, whose head is the action the wrapped
  environment executes.

  The delay is a parameter of `Step` (or computed by `Delay` from the two
  delay dimensions and a standard-normal sample `z`); the action sampled at
  reset is a parameter of `Reset`.
 */
module ActionDelay {
  import opened Dimensions
  import opened Options
  import opened Sequences

  const MeanName: string := "action_delay_mean"
  const StdName: string := "action_delay_std"

  /** The two delay parameters; `None` until a dimension provides them. */
  datatype DelayParams = DelayParams(mean: Option<real>, std: Option<real>)

  /** The scan of `update_randomized_params`: each dimension may set one
      parameter, and the scan stops as soon as both are set. */
  function Scan(dims: seq<Dimension>, p: DelayParams): DelayParams
    decreases |dims|
  {
    if |dims| == 0 then p
    else
      var d := dims[0];
      var next :=
        if d.name == MeanName then p.(mean := Some(d.currentValue))
        else if d.name == StdName then p.(std := Some(d.currentValue))
        else p;
      if next.mean.Some? && next.std.Some? then next else Scan(dims[1..], next)
  }

  /** `update_randomized_params`: both parameters are cleared, then scanned.
      Each ends up set iff some dimension carries its name, and then holds
      the value of such a dimension. */
  function UpdateDelayParams(dims: seq<Dimension>): (r: DelayParams)
    ensures r.mean.Some? <==> exists j :: 0 <= j < |dims| && dims[j].name == MeanName
    ensures r.std.Some? <==> exists j :: 0 <= j < |dims| && dims[j].name == StdName
    ensures r.mean.Some? ==> exists j :: 0 <= j < |dims| && dims[j].name == MeanName && r.mean.value == dims[j].currentValue
    ensures r.std.Some? ==> exists j :: 0 <= j < |dims| && dims[j].name == StdName && r.std.value == dims[j].currentValue
  {
    ScanSetsOnlyNamed(dims, DelayParams(None, None));
    Scan(dims, DelayParams(None, None))
  }

  /** The scan sets the mean iff some dimension is named for it, and then to
      that dimension's value; likewise for the deviation. */
  lemma {:induction false} ScanSetsOnlyNamed(dims: seq<Dimension>, p: DelayParams)
    ensures var r := Scan(dims, p);
      && (r.mean.Some? <==> p.mean.Some? || IndexOfName(dims, MeanName).Some?)
      && (r.std.Some? <==> p.std.Some? || IndexOfName(dims, StdName).Some?)
      && (r.mean != p.mean ==> exists i :: 0 <= i < |dims| && dims[i].name == MeanName && r.mean == Some(dims[i].currentValue))
      && (r.std != p.std ==> exists i :: 0 <= i < |dims| && dims[i].name == StdName && r.std == Some(dims[i].currentValue))
  {
    if |dims| > 0 {
      var d := dims[0];
      var next :=
        if d.name == MeanName then p.(mean := Some(d.currentValue))
        else if d.name == StdName then p.(std := Some(d.currentValue))
        else p;
      if !(next.mean.Some? && next.std.Some?) {
        ScanSetsOnlyNamed(dims[1..], next);
        var r := Scan(dims[1..], next);
        if r.mean != p.mean {
          if r.mean != next.mean {
            var i :| 0 <= i < |dims[1..]| && dims[1..][i].name == MeanName && r.mean == Some(dims[1..][i].currentValue);
            assert dims[i + 1] == dims[1..][i];
          } else {
            assert dims[0].name == MeanName;
          }
        }
        if r.std != p.std {
          if r.std != next.std {
            var i :| 0 <= i < |dims[1..]| && dims[1..][i].name == StdName && r.std == Some(dims[1..][i].currentValue);
            assert dims[i + 1] == dims[1..][i];
          } else {
            assert dims[0].name == StdName;
          }
        }
        assert IndexOfName(dims, MeanName).Some? <==> d.name == MeanName || IndexOfName(dims[1..], MeanName).Some?;
        assert IndexOfName(dims, StdName).Some? <==> d.name == StdName || IndexOfName(dims[1..], StdName).Some?;
      } else if d.name == MeanName {
        assert dims[0].name == MeanName;
      } else if d.name == StdName {
        assert dims[0].name == StdName;
      }
    }
  }

  /** With at most one dimension of each name, an update reads exactly the
      named dimensions, in whatever order they appear. */
  lemma UpdateReadsNamedDimensions(dims: seq<Dimension>)
    requires AtMostOneNamed(dims, MeanName) && AtMostOneNamed(dims, StdName)
    ensures UpdateDelayParams(dims) == DelayParams(ValueNamed(dims, MeanName), ValueNamed(dims, StdName))
  {
    ScanUnique(dims, DelayParams(None, None));
  }

  lemma {:induction false} ScanUnique(dims: seq<Dimension>, p: DelayParams)
    requires AtMostOneNamed(dims, MeanName) && AtMostOneNamed(dims, StdName)
    requires p.mean.None? || IndexOfName(dims, MeanName).None?
    requires p.std.None? || IndexOfName(dims, StdName).None?
    ensures Scan(dims, p).mean == (if IndexOfName(dims, MeanName).Some? then ValueNamed(dims, MeanName) else p.mean)
    ensures Scan(dims, p).std == (if IndexOfName(dims, StdName).Some? then ValueNamed(dims, StdName) else p.std)
  {
    if |dims| > 0 {
      var d := dims[0];
      var rest := dims[1..];
      var next :=
        if d.name == MeanName then p.(mean := Some(d.currentValue))
        else if d.name == StdName then p.(std := Some(d.currentValue))
        else p;
      assert AtMostOneNamed(rest, MeanName) && AtMostOneNamed(rest, StdName) by {
        forall i, j | 0 <= i < |rest| && 0 <= j < |rest| && rest[i].name == MeanName && rest[j].name == MeanName
          ensures i == j
        {
          assert dims[i + 1] == rest[i] && dims[j + 1] == rest[j];
        }
        forall i, j | 0 <= i < |rest| && 0 <= j < |rest| && rest[i].name == StdName && rest[j].name == StdName
          ensures i == j
        {
          assert dims[i + 1] == rest[i] && dims[j + 1] == rest[j];
        }
      }
      if d.name == MeanName {
        assert IndexOfName(rest, MeanName).None? by {
          forall j | 0 <= j < |rest| ensures rest[j].name != MeanName {
            assert dims[j + 1] == rest[j];
          }
        }
      }
      if d.name == StdName {
        assert IndexOfName(rest, StdName).None? by {
          forall j | 0 <= j < |rest| ensures rest[j].name != StdName {
            assert dims[j + 1] == rest[j];
          }
        }
      }
      var iMean := IndexOfName(dims, MeanName);
      var iStd := IndexOfName(dims, StdName);
      if next.mean.Some? && next.std.Some? {
        // Both parameters are set: each came from `p` or from `d`, so the
        // other occurrence cannot lie further on.
        if d.name != MeanName {
          assert p.mean.Some?;
          assert iMean.None?;
        }
        if d.name != StdName {
          assert p.std.Some?;
          assert iStd.None?;
        }
      } else {
        ScanUnique(rest, next);
        if d.name != MeanName {
          assert iMean.Some? ==> iMean.value > 0 && IndexOfName(rest, MeanName) == Some(iMean.value - 1);
          assert iMean.None? ==> IndexOfName(rest, MeanName).None?;
        }
        if d.name != StdName {
          assert iStd.Some? ==> iStd.value > 0 && IndexOfName(rest, StdName) == Some(iStd.value - 1);
          assert iStd.None? ==> IndexOfName(rest, StdName).None?;
        }
      }
    }
  }

  /** `max(floor(mean + z * std), 0)`, with `z` the standard-normal sample. */
  function Delay(mean: real, std: real, z: real): (d: nat)
    ensures d == 0 <==> mean + z * std < 1.0
    ensures d > 0 ==> d as real <= mean + z * std < d as real + 1.0
  {
    var f := (mean + z * std).Floor;
    if f > 0 then f else 0
  }

  /** Appends copies of the last action until the queue holds `d` actions. */
  function Pad<A>(q: seq<A>, d: nat): (r: seq<A>)
    requires |q| > 0
    decreases d - |q|
    ensures |r| == if |q| < d then d else |q|
    ensures r[..|q|] == q
    ensures forall i :: |q| <= i < |r| ==> r[i] == q[|q| - 1]
  {
    if |q| < d then Pad(q + [q[|q| - 1]], d) else q
  }

  /** The queue after a step, and the action handed to the wrapped environment. */
  datatype Stepped<A> = Stepped(queue: seq<A>, executed: A)

  /** `step(action)` under delay `d`: pad to `d`, cut to `d`, append the
      action, then pop the head if anything else is queued. */
  function Step<A>(q: seq<A>, d: nat, action: A): (s: Stepped<A>)
    requires |q| > 0
    ensures |s.queue| == if d == 0 then 1 else d
    ensures 0 < |s.queue| <= d + 1
    ensures s.queue[|s.queue| - 1] == action
    ensures d == 0 ==> s.executed == action
    ensures d > 0 ==> s.executed == q[0]
    ensures d > 0 ==> forall i :: 1 <= i < d ==> s.queue[i - 1] == (if i < |q| then q[i] else q[|q| - 1])
  {
    var padded := Pad(q, d);
    assert padded[0] == padded[..|q|][0];
    var queued := padded[..d] + [action];
    if |queued| > 1 then Stepped(queued[1..], queued[0]) else Stepped(queued, queued[0])
  }

  /** On a queue holding the one action `a`, a step under delay zero runs
      the issued action at once; under delay `d > 0` it runs `a` and leaves
      `d - 1` copies of `a` ahead of the issued action. */
  lemma SingleActionFirstStep<A>(a: A, d: nat, action: A)
    ensures Step([a], d, action) ==
      if d == 0 then Stepped([action], action) else Stepped(Repeat(a, d - 1) + [action], a)
  {
    if d > 0 {
      var s := Step([a], d, action);
      forall i | 0 <= i < d - 1 ensures s.queue[i] == a {
        assert s.queue[(i + 1) - 1] == [a][0];
      }
      assert s.queue == Repeat(a, d - 1) + [action];
    }
  }

  /** `reset`: the queue holds the single sampled action, so the next step
      runs the sample under any positive delay, after which the sample
      fills the queue ahead of the issued action. */
  function Reset<A(!new)>(sample: A): (q: seq<A>)
    ensures |q| == 1
    ensures forall d: nat, action: A ::
      Step(q, d, action) == (if d == 0 then Stepped([action], action) else Stepped(Repeat(sample, d - 1) + [action], sample))
  {
    var q := [sample];
    assert forall d: nat, action: A ::
      Step(q, d, action) == (if d == 0 then Stepped([action], action) else Stepped(Repeat(sample, d - 1) + [action], sample))
    by {
      forall d: nat, action: A ensures Step(q, d, action) ==
        (if d == 0 then Stepped([action], action) else Stepped(Repeat(sample, d - 1) + [action], sample))
      {
        SingleActionFirstStep(sample, d, action);
      }
    }
    q
  }

  /** The executed actions and final queue of consecutive steps. */
  datatype Ran<A> = Ran(executed: seq<A>, queue: seq<A>)

  function Run<A>(q: seq<A>, delays: seq<nat>, actions: seq<A>): (r: Ran<A>)
    requires |q| > 0 && |delays| == |actions|
    decreases |actions|
    ensures |r.executed| == |actions|
  {
    if |actions| == 0 then Ran([], q)
    else
      var s := Step(q, delays[0], actions[0]);
      var rest := Run(s.queue, delays[1..], actions[1..]);
      Ran([s.executed] + rest.executed, rest.queue)
  }

  /** `n` steps' worth of the same delay. */
  function Constant(d: nat, n: nat): seq<nat>
  {
    Repeat(d, n)
  }

  /** On a queue already holding `d` actions, a step under delay `d` is a
      shift: the head is executed and the new action joins the tail. */
  lemma FullQueueShifts<A>(q: seq<A>, d: nat, action: A)
    requires d > 0 && |q| == d
    ensures Step(q, d, action) == Stepped(q[1..] + [action], q[0])
  {
    var s := Step(q, d, action);
    forall i | 0 <= i < d - 1 ensures s.queue[i] == q[1..][i] {
      assert s.queue[(i + 1) - 1] == q[i + 1];
    }
    assert s.queue == q[1..] + [action];
  }

  /** A constant delay `d` on a full queue of `d` actions is a delay line:
      every action is executed exactly `d` steps after it was issued. */
  lemma {:induction false} ConstantDelayIsDelayLine<A>(q: seq<A>, d: nat, actions: seq<A>)
    requires d > 0 && |q| == d
    decreases |actions|
    ensures Run(q, Constant(d, |actions|), actions) == Ran((q + actions)[..|actions|], (q + actions)[|actions|..])
  {
    var n := |actions|;
    if n > 0 {
      var q' := q[1..] + [actions[0]];
      FullQueueShifts(q, d, actions[0]);
      assert Constant(d, n)[0] == d;
      assert Constant(d, n)[1..] == Constant(d, n - 1);
      ConstantDelayIsDelayLine(q', d, actions[1..]);
      var rest := Run(q', Constant(d, n - 1), actions[1..]);
      assert Run(q, Constant(d, n), actions) == Ran([q[0]] + rest.executed, rest.queue);
      SlideWindow(q, actions);
    }
  }

  /** Sequence bookkeeping for one shift of the delay line. */
  lemma SlideWindow<A>(q: seq<A>, actions: seq<A>)
    requires |q| > 0 && |actions| > 0
    ensures var q' := q[1..] + [actions[0]];
      var n := |actions|;
      && [q[0]] + (q' + actions[1..])[..n - 1] == (q + actions)[..n]
      && (q' + actions[1..])[n - 1..] == (q + actions)[n..]
  {
    var q' := q[1..] + [actions[0]];
    assert q' + actions[1..] == (q + actions)[1..];
  }

  /** With no delay, every action is executed in the step it is issued. */
  lemma {:induction false} ZeroDelayHasNoLag<A>(q: seq<A>, actions: seq<A>)
    requires |q| > 0
    decreases |actions|
    ensures Run(q, Constant(0, |actions|), actions).executed == actions
  {
    if |actions| > 0 {
      var s := Step(q, 0, actions[0]);
      assert Constant(0, |actions|)[1..] == Constant(0, |actions| - 1);
      ZeroDelayHasNoLag(s.queue, actions[1..]);
      assert [actions[0]] + actions[1..] == actions;
    }
  }

  /** After `reset` with sample `a`, a constant delay `d > 0` first executes
      `a` for `d` steps, then the issued actions in order. */
  lemma {:induction false} ResetThenConstantDelay<A(!new)>(a: A, d: nat, actions: seq<A>)
    requires d > 0
    ensures Run(Reset(a), Constant(d, |actions|), actions).executed == (Repeat(a, d) + actions)[..|actions|]
  {
    var n := |actions|;
    if n > 0 {
      var q := Repeat(a, d - 1) + [actions[0]];
      assert Step(Reset(a), d, actions[0]) == Stepped(q, a);
      assert Constant(d, n)[0] == d;
      assert Constant(d, n)[1..] == Constant(d, n - 1);
      ConstantDelayIsDelayLine(q, d, actions[1..]);
      var rest := Run(q, Constant(d, n - 1), actions[1..]);
      assert Run(Reset(a), Constant(d, n), actions).executed == [a] + rest.executed;
      FillThenActions(a, d, actions);
    }
  }

  /** Sequence bookkeeping for the first step after a reset. */
  lemma FillThenActions<A>(a: A, d: nat, actions: seq<A>)
    requires d > 0 && |actions| > 0
    ensures var q := Repeat(a, d - 1) + [actions[0]];
      [a] + (q + actions[1..])[..|actions| - 1] == (Repeat(a, d) + actions)[..|actions|]
  {
    var q := Repeat(a, d - 1) + [actions[0]];
    assert q + actions[1..] == Repeat(a, d - 1) + actions;
    assert Repeat(a, d) + actions == [a] + (Repeat(a, d - 1) + actions);
  }

  /** `step(action)` with the delay sampled from the two parameters; `None`
      is the `TypeError` of arithmetic on a parameter never set. */
  function StepSampled<A>(p: DelayParams, z: real, q: seq<A>, action: A): (s: Option<Stepped<A>>)
    requires |q| > 0
    ensures s.None? <==> p.mean.None? || p.std.None?
    ensures s.Some? ==> s.value == Step(q, Delay(p.mean.value, p.std.value, z), action)
    ensures s.Some? ==> |s.value.queue| > 0 && s.value.queue[|s.value.queue| - 1] == action
    ensures s.Some? && p.mean.value + z * p.std.value < 1.0 ==> s.value == Stepped([action], action)
    ensures s.Some? && p.mean.value + z * p.std.value >= 1.0 ==> s.value.executed == q[0]
  {
    if p.mean.None? || p.std.None? then None
    else Some(Step(q, Delay(p.mean.value, p.std.value, z), action))
  }

  /** Stepping after an update that found no mean dimension raises. */
  lemma UnconfiguredMeanRaises<A>(dims: seq<Dimension>, z: real, q: seq<A>, action: A)
    requires |q| > 0 && forall j :: 0 <= j < |dims| ==> dims[j].name != MeanName
    ensures StepSampled(UpdateDelayParams(dims), z, q, action).None?
  {
    ScanSetsOnlyNamed(dims, DelayParams(None, None));
  }

  /** Stepping after an update that found both dimensions never raises. */
  lemma ConfiguredDelaySteps<A>(dims: seq<Dimension>, z: real, q: seq<A>, action: A)
    requires |q| > 0
    requires exists j :: 0 <= j < |dims| && dims[j].name == MeanName
    requires exists j :: 0 <= j < |dims| && dims[j].name == StdName
    ensures StepSampled(UpdateDelayParams(dims), z, q, action).Some?
  {
    ScanSetsOnlyNamed(dims, DelayParams(None, None));
  }
}
