/**
  The randomization space: named, bounded dimensions built from the
  configuration records of an environment, in record order, together with
  the normalized box descriptor [0,1]^N that exposes them.
 */
module Dimensions {
  import opened Options

  /** One randomizable scalar parameter of the environment. */
  datatype Dimension = Dimension(
    name: string,
    defaultValue: real,
    multiplierMin: real,
    multiplierMax: real,
    currentValue: real)

  /** One already-parsed entry of the configuration's `dimensions` list. */
  datatype Record = Record(name: string, defaultValue: real, multiplierMin: real, multiplierMax: real)

  /** A box of `shape` coordinates, each bounded by `low` and `high`. */
  datatype Box = Box(low: real, high: real, shape: nat)

  /** The environment-owned randomization state. */
  datatype Space = Space(dimensions: seq<Dimension>, randomizationSpace: Box)

  /** The dimension built from a record; it starts at its default value. */
  function FromRecord(r: Record): Dimension
  {
    Dimension(r.name, r.defaultValue, r.multiplierMin, r.multiplierMax, r.defaultValue)
  }

  /** `d` carries every configured field of `r`. */
  predicate Copies(d: Dimension, r: Record)
  {
    && d.name == r.name
    && d.defaultValue == r.defaultValue
    && d.multiplierMin == r.multiplierMin
    && d.multiplierMax == r.multiplierMax
  }

  /** Only `currentValue` may differ between `d` and `e`. */
  predicate SameDefinition(d: Dimension, e: Dimension)
  {
    && d.name == e.name
    && d.defaultValue == e.defaultValue
    && d.multiplierMin == e.multiplierMin
    && d.multiplierMax == e.multiplierMax
  }

  /** Builds the space from the configuration records, appending one
      dimension per record, then sizes the normalized box to match. */
  method LoadRandomizationDimensions(config: seq<Record>) returns (s: Space)
    ensures |s.dimensions| == |config|
    ensures forall i :: 0 <= i < |config| ==> Copies(s.dimensions[i], config[i])
    ensures forall i :: 0 <= i < |config| ==> s.dimensions[i].currentValue == config[i].defaultValue
    ensures s.randomizationSpace == Box(0.0, 1.0, |config|)
  {
    var dimensions: seq<Dimension> := [];
    var i := 0;
    while i < |config|
      invariant 0 <= i <= |config|
      invariant |dimensions| == i
      invariant forall j :: 0 <= j < i ==> dimensions[j] == FromRecord(config[j])
    {
      dimensions := dimensions + [FromRecord(config[i])];
      i := i + 1;
    }
    var nrand := |dimensions|;
    s := Space(dimensions, Box(0.0, 1.0, nrand));
  }

  /** Position of the first dimension named `name`, if any. */
  function IndexOfName(dims: seq<Dimension>, name: string): (r: Option<nat>)
    ensures r.Some? ==> r.value < |dims| && dims[r.value].name == name
    ensures r.Some? ==> forall j :: 0 <= j < r.value ==> dims[j].name != name
    ensures r.None? <==> forall j :: 0 <= j < |dims| ==> dims[j].name != name
  {
    if |dims| == 0 then None
    else if dims[0].name == name then Some(0)
    else match IndexOfName(dims[1..], name)
      case None => None
      case Some(k) => Some(k + 1)
  }

  /** The current value of the dimension named `name`, if there is one. */
  function ValueNamed(dims: seq<Dimension>, name: string): Option<real>
  {
    match IndexOfName(dims, name)
    case None => None
    case Some(k) => Some(dims[k].currentValue)
  }

  /** No two dimensions share the name `name`. */
  ghost predicate AtMostOneNamed(dims: seq<Dimension>, name: string)
  {
    forall i, j :: 0 <= i < |dims| && 0 <= j < |dims| && dims[i].name == name && dims[j].name == name ==> i == j
  }
}
