/**
  The randomization driver: construction from configuration records and the
  positional `randomize` entry point.

  The two operations of a dimension that the driver calls are abstract here:
  `rescale` maps a fraction into a dimension's value, and `draw` is the value
  a fresh random draw gives the dimension at a position (any choice is
  allowed, see `EveryDrawIsReachable`). The environment's own translation of
  dimensions into live simulation parameters is the function `update`.
 */
module Randomization {
  import opened Dimensions
  import opened Options
  import opened Sequences

  /** An entry of the list passed to `randomize`: a string or a number. */
  datatype Value = Text(s: string) | Number(x: real)

  /** How the loop body treats an entry. */
  datatype Branch = ResetDefault | Fraction(x: real) | Redraw | Reject

  /** The exception that aborts `randomize`, with the position it stopped at. */
  datatype Error =
    | IndexError(position: nat)                  // no dimension at this position
    | AssertionError(position: nat, value: real) // a fraction outside [0, 1]
    | TypeError(position: nat)                   // an unknown string compared with 0.0

  /** Dimensions after the walk, and the exception that stopped it, if any. */
  datatype Walked = Walked(dims: seq<Dimension>, error: Option<Error>)

  /** A completed call has applied the live parameters exactly once;
      an aborted one leaves earlier positions changed and applies nothing. */
  datatype Outcome<L> = Done(dims: seq<Dimension>, live: L) | Raised(dims: seq<Dimension>, error: Error)

  type Rescale = (Dimension, real) -> real
  type Draw = (nat, Dimension) -> real

  /** The default argument of `randomize`. */
  const DefaultArgument: seq<Value> := [Number(-1.0)]

  /** The sentinel -1 and the string "random" both redraw; any other
      string is neither "default" nor a number. */
  function Classify(v: Value): (b: Branch)
    ensures b == ResetDefault <==> v == Text("default")
    ensures b == Redraw <==> v == Text("random") || v == Number(-1.0)
    ensures b.Fraction? <==> v.Number? && v.x != -1.0
    ensures b.Fraction? ==> b.x == v.x
  {
    match v
    case Text(s) =>
      if s == "default" then ResetDefault
      else if s == "random" then Redraw
      else Reject
    case Number(x) =>
      if x == -1.0 then Redraw else Fraction(x)
  }

  /** An entry that passes the checks of the loop body. */
  predicate Accepted(v: Value)
  {
    match Classify(v)
    case Reject => false
    case Fraction(x) => 0.0 <= x <= 1.0
    case _ => true
  }

  /** `e` is what an accepted entry `v` at position `i` makes of `d`. */
  ghost predicate Applied(d: Dimension, e: Dimension, i: nat, v: Value, rescale: Rescale, draw: Draw)
  {
    && SameDefinition(d, e)
    && match Classify(v)
       case ResetDefault => e.currentValue == d.defaultValue
       case Redraw => e.currentValue == draw(i, d)
       case Fraction(x) => e.currentValue == rescale(d, x)
       case Reject => false
  }

  /** The exception the entry at `i` raises, given that it raises one. */
  function Failure(i: nat, v: Value): Error
  {
    match Classify(v)
    case Reject => TypeError(i)
    case Fraction(x) => if 0.0 <= x <= 1.0 then IndexError(i) else AssertionError(i, x)
    case _ => IndexError(i)
  }

  /** The new value of the dimension at `i` for an accepted entry. */
  function NewValue(dims: seq<Dimension>, i: nat, v: Value, rescale: Rescale, draw: Draw): real
    requires i < |dims| && Accepted(v)
  {
    match Classify(v)
    case ResetDefault => dims[i].defaultValue
    case Redraw => draw(i, dims[i])
    case Fraction(x) => rescale(dims[i], x)
  }

  /** The loop over `values` from position `pos` on, stopping at the first
      entry that raises. */
  function Walk(dims: seq<Dimension>, values: seq<Value>, pos: nat, rescale: Rescale, draw: Draw): (w: Walked)
    requires pos <= |values| && pos <= |dims|
    decreases |values| - pos
    ensures |w.dims| == |dims|
    ensures forall i :: 0 <= i < |dims| && (i < pos || |values| <= i) ==> w.dims[i] == dims[i]
    ensures w.error.None? <==>
      |values| <= |dims| && forall i :: pos <= i < |values| ==> Accepted(values[i])
    ensures w.error.None? ==>
      forall i :: pos <= i < |values| ==> Applied(dims[i], w.dims[i], i, values[i], rescale, draw)
    ensures w.error.Some? ==>
      var p := w.error.value.position;
      && pos <= p < |values|
      && p <= |dims|
      && w.error.value == Failure(p, values[p])
      && (p == |dims| || !Accepted(values[p]))
      && (forall i :: pos <= i < p ==> Accepted(values[i]))
      && (forall i :: pos <= i < p ==> Applied(dims[i], w.dims[i], i, values[i], rescale, draw))
      && (forall i :: p <= i < |dims| ==> w.dims[i] == dims[i])
  {
    if pos == |values| then Walked(dims, None)
    else if !Accepted(values[pos]) || pos == |dims| then Walked(dims, Some(Failure(pos, values[pos])))
    else
      var next := dims[pos := dims[pos].(currentValue := NewValue(dims, pos, values[pos], rescale, draw))];
      var rest := Walk(next, values, pos + 1, rescale, draw);
      assert rest.dims[pos] == next[pos];
      assert forall i :: pos < i < |dims| ==> next[i] == dims[i];
      rest
  }

  /** `randomize(values)`: walk the entries by position, then apply the
      live parameters once. */
  function Randomize<L>(dims: seq<Dimension>, values: seq<Value>, rescale: Rescale, draw: Draw,
                        update: seq<Dimension> -> L): (o: Outcome<L>)
    ensures |o.dims| == |dims|
    ensures o.Done? <==> |values| <= |dims| && forall i :: 0 <= i < |values| ==> Accepted(values[i])
    ensures o.Done? ==> o.live == update(o.dims)
    ensures o.Done? ==>
      forall i :: 0 <= i < |values| ==> Applied(dims[i], o.dims[i], i, values[i], rescale, draw)
    ensures forall i :: |values| <= i < |dims| ==> o.dims[i] == dims[i]
    ensures o.Raised? ==>
      var p := o.error.position;
      && p < |values|
      && o.error == Failure(p, values[p])
      && p <= |dims|
      && (p == |dims| || !Accepted(values[p]))
      && (forall i :: 0 <= i < p ==> Accepted(values[i]))
      && (forall i :: 0 <= i < p ==> Applied(dims[i], o.dims[i], i, values[i], rescale, draw))
      && (forall i :: p <= i < |dims| ==> o.dims[i] == dims[i])
  {
    var w := Walk(dims, values, 0, rescale, draw);
    match w.error
    case None => Done(w.dims, update(w.dims))
    case Some(e) => Raised(w.dims, e)
  }

  /** What `randomize` may make of `d` for an accepted entry `v`, whatever
      a fresh random draw returns. */
  ghost predicate Allowed(d: Dimension, e: Dimension, v: Value, rescale: Rescale)
  {
    && SameDefinition(d, e)
    && match Classify(v)
       case ResetDefault => e.currentValue == d.defaultValue
       case Fraction(x) => 0.0 <= x <= 1.0 && e.currentValue == rescale(d, x)
       case Redraw => true
       case Reject => false
  }

  /** The random source that makes every redrawn dimension land on `target`. */
  function Replay(target: seq<Dimension>): Draw
  {
    (i: nat, d: Dimension) => if i < |target| then target[i].currentValue else d.currentValue
  }

  /** Whatever the draws, a completed call only makes allowed changes. */
  lemma RandomizeIsAllowed<L>(dims: seq<Dimension>, values: seq<Value>, rescale: Rescale, draw: Draw,
                              update: seq<Dimension> -> L)
    ensures var o := Randomize(dims, values, rescale, draw, update);
      o.Done? ==> forall i :: 0 <= i < |values| ==> Allowed(dims[i], o.dims[i], values[i], rescale)
  {
    var o := Randomize(dims, values, rescale, draw, update);
    if o.Done? {
      forall i | 0 <= i < |values|
        ensures Allowed(dims[i], o.dims[i], values[i], rescale)
      {
        assert Applied(dims[i], o.dims[i], i, values[i], rescale, draw);
      }
    }
  }

  /** Conversely, every allowed result is the outcome of some random draw. */
  lemma EveryDrawIsReachable<L>(dims: seq<Dimension>, values: seq<Value>, rescale: Rescale,
                                target: seq<Dimension>, update: seq<Dimension> -> L)
    requires |values| <= |dims| && |target| == |dims|
    requires forall i :: 0 <= i < |values| ==> Allowed(dims[i], target[i], values[i], rescale)
    requires forall i :: |values| <= i < |dims| ==> target[i] == dims[i]
    ensures Randomize(dims, values, rescale, Replay(target), update) == Done(target, update(target))
  {
    var draw := Replay(target);
    forall i | 0 <= i < |values| ensures Accepted(values[i]) {
      assert Allowed(dims[i], target[i], values[i], rescale);
    }
    var o := Randomize(dims, values, rescale, draw, update);
    forall i | 0 <= i < |dims| ensures o.dims[i] == target[i] {
      if i < |values| {
        assert Allowed(dims[i], target[i], values[i], rescale);
        assert Applied(dims[i], o.dims[i], i, values[i], rescale, draw);
      }
    }
    assert o.dims == target;
  }

  /** The default argument `[-1]` redraws dimension 0 and nothing else, and
      raises `IndexError` on an environment without dimensions. */
  lemma DefaultArgumentRedrawsFirst<L>(dims: seq<Dimension>, rescale: Rescale, draw: Draw,
                                       update: seq<Dimension> -> L)
    ensures var o := Randomize(dims, DefaultArgument, rescale, draw, update);
      && (|dims| == 0 <==> o == Raised([], IndexError(0)))
      && (|dims| > 0 ==>
            && o.Done?
            && o.dims[0] == dims[0].(currentValue := draw(0, dims[0]))
            && o.dims[1..] == dims[1..])
  {
    var o := Randomize(dims, DefaultArgument, rescale, draw, update);
    assert Classify(DefaultArgument[0]) == Redraw;
    if |dims| > 0 {
      assert Applied(dims[0], o.dims[0], 0, DefaultArgument[0], rescale, draw);
      assert o.dims[1..] == dims[1..];
    }
  }

  /** A list of "default" entries, one per dimension. */
  function AllDefault(n: nat): seq<Value>
  {
    Repeat(Text("default"), n)
  }

  /** The list stored at construction: "random" for every dimension. */
  function RandomizedDefault(n: nat): seq<Value>
  {
    Repeat(Text("random"), n)
  }

  /** `randomize(['default'] * N)` puts every dimension back to its default. */
  lemma AllDefaultResets<L>(dims: seq<Dimension>, rescale: Rescale, draw: Draw, update: seq<Dimension> -> L)
    ensures var o := Randomize(dims, AllDefault(|dims|), rescale, draw, update);
      && o.Done?
      && forall i :: 0 <= i < |dims| ==>
           SameDefinition(dims[i], o.dims[i]) && o.dims[i].currentValue == dims[i].defaultValue
  {
    var values := AllDefault(|dims|);
    var o := Randomize(dims, values, rescale, draw, update);
    assert forall i :: 0 <= i < |values| ==> Classify(values[i]) == ResetDefault;
    forall i | 0 <= i < |dims|
      ensures SameDefinition(dims[i], o.dims[i]) && o.dims[i].currentValue == dims[i].defaultValue
    {
      assert Applied(dims[i], o.dims[i], i, values[i], rescale, draw);
    }
  }

  /** A draw that keeps every dimension of `dims`, at its own position,
      within its multiplier range. */
  ghost predicate DrawsInRange(dims: seq<Dimension>, draw: Draw)
  {
    forall i :: 0 <= i < |dims| ==> dims[i].multiplierMin <= draw(i, dims[i]) <= dims[i].multiplierMax
  }

  /** With draws inside each range, `randomize(['random'] * N)` leaves every
      dimension inside its range. */
  lemma RandomizedDefaultStaysInRange<L>(dims: seq<Dimension>, rescale: Rescale, draw: Draw,
                                         update: seq<Dimension> -> L)
    requires DrawsInRange(dims, draw)
    ensures var o := Randomize(dims, RandomizedDefault(|dims|), rescale, draw, update);
      && o.Done?
      && forall i :: 0 <= i < |dims| ==>
           o.dims[i].multiplierMin <= o.dims[i].currentValue <= o.dims[i].multiplierMax
  {
    var values := RandomizedDefault(|dims|);
    var o := Randomize(dims, values, rescale, draw, update);
    assert forall i :: 0 <= i < |values| ==> Classify(values[i]) == Redraw;
    forall i | 0 <= i < |dims|
      ensures o.dims[i].multiplierMin <= o.dims[i].currentValue <= o.dims[i].multiplierMax
    {
      assert Applied(dims[i], o.dims[i], i, values[i], rescale, draw);
    }
  }

  /** Dimensions loaded from `config`, with the live parameters applied
      once, and "random" remembered for every dimension. */
  datatype Driver<L> = Driver(space: Space, live: L, randomizedDefault: seq<Value>)

  /** Construction: load the records, apply the live parameters once. */
  method NewRandomizedEnv<L>(config: seq<Record>, update: seq<Dimension> -> L) returns (env: Driver<L>)
    ensures |env.space.dimensions| == |config|
    ensures forall i :: 0 <= i < |config| ==> Copies(env.space.dimensions[i], config[i])
    ensures forall i :: 0 <= i < |config| ==> env.space.dimensions[i].currentValue == config[i].defaultValue
    ensures env.space.randomizationSpace == Box(0.0, 1.0, |config|)
    ensures env.live == update(env.space.dimensions)
    ensures env.randomizedDefault == RandomizedDefault(|config|)
  {
    var space := LoadRandomizationDimensions(config);
    var live := update(space.dimensions);
    env := Driver(space, live, RandomizedDefault(|space.dimensions|));
  }

  /** The linear rescale `min + x * (max - min)`: fraction 0 gives the
      minimum and 1 the maximum. */
  function LinearRescale(d: Dimension, x: real): real
  {
    d.multiplierMin + x * (d.multiplierMax - d.multiplierMin)
  }

  /** The normalized fraction of a dimension's current value. */
  function FractionOf(d: Dimension): real
  {
    if d.multiplierMin < d.multiplierMax
    then (d.currentValue - d.multiplierMin) / (d.multiplierMax - d.multiplierMin)
    else 0.0
  }

  /** The current fractions read back from every dimension. */
  function Fractions(dims: seq<Dimension>): seq<Value>
  {
    seq(|dims|, i requires 0 <= i < |dims| => Number(FractionOf(dims[i])))
  }

  lemma QuotientAtMostOne(a: real, b: real)
    requires 0.0 <= a <= b && 0.0 < b
    ensures 0.0 <= a / b <= 1.0
  {
  }

  lemma FractionOfRescales(d: Dimension)
    requires d.multiplierMin <= d.currentValue <= d.multiplierMax
    ensures 0.0 <= FractionOf(d) <= 1.0
    ensures LinearRescale(d, FractionOf(d)) == d.currentValue
  {
    if d.multiplierMin < d.multiplierMax {
      var span := d.multiplierMax - d.multiplierMin;
      var f := (d.currentValue - d.multiplierMin) / span;
      assert f * span == d.currentValue - d.multiplierMin;
      assert FractionOf(d) == f;
      QuotientAtMostOne(d.currentValue - d.multiplierMin, span);
    }
  }

  /** Randomizing with the fractions read back from each dimension
      reproduces the same current values and applies them once. */
  lemma FractionsRoundTrip<L>(dims: seq<Dimension>, draw: Draw, update: seq<Dimension> -> L)
    requires forall i :: 0 <= i < |dims| ==>
      dims[i].multiplierMin <= dims[i].currentValue <= dims[i].multiplierMax
    ensures Randomize(dims, Fractions(dims), LinearRescale, draw, update) == Done(dims, update(dims))
  {
    var values := Fractions(dims);
    forall i | 0 <= i < |dims|
      ensures Accepted(values[i]) && Classify(values[i]) == Fraction(FractionOf(dims[i]))
      ensures LinearRescale(dims[i], FractionOf(dims[i])) == dims[i].currentValue
    {
      FractionOfRescales(dims[i]);
    }
    var o := Randomize(dims, values, LinearRescale, draw, update);
    forall i | 0 <= i < |dims| ensures o.dims[i] == dims[i] {
      assert Applied(dims[i], o.dims[i], i, values[i], LinearRescale, draw);
    }
    assert o.dims == dims;
  }

  /** Two dimensions, gravity in [-20, -5] and wind in [-5, 5]:
      `randomize([0.5, 'default'])` gives gravity -12.5 and wind 0. */
  lemma GravityWindScenario<L>(gravity: real, wind: real, draw: Draw, update: seq<Dimension> -> L)
    ensures var dims := [Dimension("gravity", -10.0, -20.0, -5.0, gravity),
                         Dimension("wind", 0.0, -5.0, 5.0, wind)];
      var after := [Dimension("gravity", -10.0, -20.0, -5.0, -12.5),
                    Dimension("wind", 0.0, -5.0, 5.0, 0.0)];
      Randomize(dims, [Number(0.5), Text("default")], LinearRescale, draw, update) == Done(after, update(after))
  {
    var dims := [Dimension("gravity", -10.0, -20.0, -5.0, gravity),
                 Dimension("wind", 0.0, -5.0, 5.0, wind)];
    var values := [Number(0.5), Text("default")];
    var after := [Dimension("gravity", -10.0, -20.0, -5.0, -12.5),
                  Dimension("wind", 0.0, -5.0, 5.0, 0.0)];
    assert Classify(values[0]) == Fraction(0.5) && Accepted(values[0]);
    assert Classify(values[1]) == ResetDefault && Accepted(values[1]);
    var o := Randomize(dims, values, LinearRescale, draw, update);
    assert o.Done?;
    assert Applied(dims[0], o.dims[0], 0, values[0], LinearRescale, draw);
    assert Applied(dims[1], o.dims[1], 1, values[1], LinearRescale, draw);
    assert LinearRescale(dims[0], 0.5) == -12.5;
    assert o.dims[0] == after[0];
    assert o.dims[1] == after[1];
    assert o.dims == after;
  }
}
