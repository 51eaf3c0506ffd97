/** The closed interval that guards the domain of a parametric curve or surface, and
    its membership test on a number, an array of numbers, or a graph node. */
module Intervals {
  import opened Outcomes
  import AutoDiff

  /** `Interval(start, end)`: the reals from `start` to `end`, both included. The
      bounds are plain numbers. */
  datatype Interval = Interval(start: real, end: real)

  /** The argument of `contains`: a number, a numpy array, a graph node (compared by its
      value), or a Python list. */
  datatype Probe =
    | Scalar(t: real)
    | Array(ts: seq<real>)
    | NodeOf(node: AutoDiff.Node)
    | List(items: seq<real>)

  /** The answer of `contains`: one truth value, or an elementwise mask. */
  datatype Answer = Bool(b: bool) | Mask(bits: seq<bool>)

  /** `contains(t)`. An array is compared elementwise; a node by its value; anything
      else by `start <= t` and `t <= end`, which for a list against number bounds
      raises before `np.all` is reached. */
  function Contains(iv: Interval, p: Probe): (r: Result<Answer>)
    ensures r.Err? <==> p.List?
    ensures r.Err? ==> r.error == TypeError
    ensures p.Array? ==> r.Ok? && r.value.Mask? && |r.value.bits| == |p.ts|
    ensures p.Scalar? || p.NodeOf? ==> r.Ok? && r.value.Bool?
  {
    match p
    case Array(ts) => Ok(Mask(seq(|ts|, i requires 0 <= i < |ts| => iv.start <= ts[i] && ts[i] <= iv.end)))
    case NodeOf(n) => Ok(Bool(iv.start <= n.value && n.value <= iv.end))
    case Scalar(t) => Ok(Bool(iv.start <= t && t <= iv.end))
    case List(_) => Err(TypeError)
  }

  /** Whether `contains` answers a plain yes for a number. */
  predicate Holds(iv: Interval, t: real) {
    Contains(iv, Scalar(t)) == Ok(Bool(true))
  }

  /** A number is contained exactly when it lies between the bounds, both included. */
  lemma ScalarMembership(iv: Interval, t: real)
    ensures Holds(iv, t) <==> iv.start <= t <= iv.end
    ensures Contains(iv, Scalar(t)) == Ok(Bool(Holds(iv, t)))
  {
  }

  /** An array is answered element by element as each number would be. */
  lemma ArrayIsElementwise(iv: Interval, ts: seq<real>, i: nat)
    requires i < |ts|
    ensures Contains(iv, Array(ts)).value.bits[i] <==> Holds(iv, ts[i])
  {
  }

  /** A node is answered as its value would be. */
  lemma NodeIsItsValue(iv: Interval, n: AutoDiff.Node)
    ensures Contains(iv, NodeOf(n)) == Contains(iv, Scalar(n.value))
  {
  }

  /** Both endpoints belong to a non-empty interval. */
  lemma EndpointsIncluded(iv: Interval)
    requires iv.start <= iv.end
    ensures Holds(iv, iv.start) && Holds(iv, iv.end)
  {
  }

  /** An interval whose start exceeds its end contains nothing: no number, no element
      of an array and no node. */
  lemma ReversedIsEmpty(iv: Interval, p: Probe)
    requires iv.start > iv.end && !p.List?
    ensures Contains(iv, p).value.Bool? ==> !Contains(iv, p).value.b
    ensures Contains(iv, p).value.Mask? ==> forall i :: 0 <= i < |Contains(iv, p).value.bits| ==> !Contains(iv, p).value.bits[i]
  {
  }

  /** Whatever lies between two contained numbers is contained. */
  lemma Convex(iv: Interval, a: real, b: real, t: real)
    requires Holds(iv, a) && Holds(iv, b) && a <= t <= b
    ensures Holds(iv, t)
  {
  }
}
