/** SI prefixes: a positive scale factor and, when the factor is one of the twenty
    tabulated multipliers, its symbol. */
module Prefixes {
  import opened Outcomes
  import opened Numbers

  /** Prefix factors are positive: every factor in the modelled code is a table entry,
      a unit conversion ratio, or a product, quotient or integer power of those. */
  type Factor = r: real | r > 0.0 witness 1.0

  /** The prefix table, in its declaration order. */
  const Table: seq<(string, real)> := [
    ("Y", 1000000000000000000000000.0),
    ("Z", 1000000000000000000000.0),
    ("E", 1000000000000000000.0),
    ("P", 1000000000000000.0),
    ("T", 1000000000000.0),
    ("G", 1000000000.0),
    ("M", 1000000.0),
    ("k", 1000.0),
    ("h", 100.0),
    ("da", 10.0),
    ("d", 0.1),
    ("c", 0.01),
    ("m", 0.001),
    ("u", 0.000001),
    ("n", 0.000000001),
    ("p", 0.000000000001),
    ("f", 0.000000000000001),
    ("a", 0.000000000000000001),
    ("z", 0.000000000000000000001),
    ("y", 0.000000000000000000000001)
  ]

  datatype Prefix = Prefix(factor: Factor, symbol: Option<string>)

  /** The first table symbol at position `i` or later whose multiplier is `f`. */
  function SymbolFrom(f: real, i: nat): Option<string>
    requires i <= |Table|
    decreases |Table| - i
  {
    if i == |Table| then None
    else if Table[i].1 == f then Some(Table[i].0)
    else SymbolFrom(f, i + 1)
  }

  /** The lookup finds a symbol exactly when some entry from `i` on has multiplier `f`,
      and the symbol it finds belongs to such an entry. */
  lemma {:induction false} SymbolFromFinds(f: real, i: nat)
    requires i <= |Table|
    ensures SymbolFrom(f, i).None? <==> forall k :: i <= k < |Table| ==> Table[k].1 != f
    ensures SymbolFrom(f, i).Some? ==>
      exists k :: i <= k < |Table| && Table[k] == (SymbolFrom(f, i).value, f)
    decreases |Table| - i
  {
    if i < |Table| && Table[i].1 != f {
      SymbolFromFinds(f, i + 1);
    }
  }

  /** The symbol the constructor looks up for factor `f`. */
  function SymbolFor(f: real): Option<string> {
    SymbolFrom(f, 0)
  }

  /** `Prefix(f)`: the factor together with its looked-up symbol. */
  function FromFactor(f: Factor): Prefix {
    Prefix(f, SymbolFor(f))
  }

  /** A prefix as the constructor builds it. */
  predicate Valid(p: Prefix) {
    p.symbol == SymbolFor(p.factor)
  }

  /** The constructor: scan the table for the first multiplier equal to `factor`;
      when the scan finds none the symbol is None. */
  method New(factor: Factor) returns (p: Prefix)
    ensures p.factor == factor
    ensures p.symbol.None? <==> forall k :: 0 <= k < |Table| ==> Table[k].1 != factor
    ensures p.symbol.Some? ==> exists k :: 0 <= k < |Table| && Table[k] == (p.symbol.value, factor)
    ensures p == FromFactor(factor)
  {
    var i := 0;
    while i < |Table|
      invariant 0 <= i <= |Table|
      invariant SymbolFrom(factor, i) == SymbolFor(factor)
    {
      if Table[i].1 == factor {
        SymbolFromFinds(factor, 0);
        return Prefix(factor, Some(Table[i].0));
      }
      i := i + 1;
    }
    SymbolFromFinds(factor, 0);
    return Prefix(factor, None);
  }

  /** The prefix without a symbol, `Prefix(1)`. */
  const One := FromFactor(1.0)

  function Mul(p: Prefix, q: Prefix): Prefix {
    FromFactor(p.factor * q.factor)
  }

  function Div(p: Prefix, q: Prefix): Prefix {
    FromFactor(p.factor / q.factor)
  }

  function Pow(p: Prefix, n: int): Prefix {
    FromFactor(IntPow(p.factor, n))
  }

  /** Equality compares factors and never symbols. */
  predicate Eq(p: Prefix, q: Prefix) {
    p.factor == q.factor
  }

  /** `repr`: the bracketed symbol; without a symbol `__repr__` returns None, which
      `repr` reports as a TypeError. */
  function Repr(p: Prefix): (r: Result<string>)
    ensures r.Ok? <==> p.symbol.Some?
    ensures r.Ok? ==> r.value == "[" + p.symbol.value + "]"
    ensures r.Err? ==> r.error == TypeError
  {
    match p.symbol
    case Some(s) => Ok("[" + s + "]")
    case None => Err(TypeError)
  }

  /** The twenty table multipliers are pairwise distinct. */
  lemma TableFactorsDistinct()
    ensures forall i, j :: 0 <= i < j < |Table| ==> Table[i].1 != Table[j].1
  {
  }

  /** Every table entry is found again from its own multiplier. */
  lemma SymbolOfEntry(k: nat)
    requires k < |Table|
    ensures SymbolFor(Table[k].1) == Some(Table[k].0)
  {
    TableFactorsDistinct();
    SymbolFromFinds(Table[k].1, 0);
    var r := SymbolFor(Table[k].1);
    var j :| 0 <= j < |Table| && Table[j] == (r.value, Table[k].1);
    assert j == k;
  }

  /** `Prefix(1)` has no symbol, since 1 is not a table multiplier. */
  lemma OneHasNoSymbol()
    ensures One.symbol == None
    ensures Repr(One) == Err(TypeError)
  {
    SymbolFromFinds(1.0, 0);
  }

  /** `k` is the thousandfold prefix, and its inverse is `m`. */
  lemma KiloAndMilli()
    ensures FromFactor(1000.0).symbol == Some("k")
    ensures Div(One, FromFactor(1000.0)) == FromFactor(0.001)
    ensures FromFactor(0.001).symbol == Some("m")
    ensures Mul(FromFactor(1000.0), FromFactor(0.001)) == One
    ensures Repr(FromFactor(1000.0)) == Ok("[k]")
  {
    SymbolOfEntry(7);
    SymbolOfEntry(12);
    assert "[" + "k" + "]" == "[k]";
  }

  /** For constructed prefixes, comparing factors is the same as full equality. */
  lemma EqIsEquality(p: Prefix, q: Prefix)
    requires Valid(p) && Valid(q)
    ensures Eq(p, q) <==> p == q
  {
  }

  /** `/` undoes `*`, and `Prefix(1)` is the identity of `*`. */
  lemma MulDivInverse(p: Prefix, q: Prefix)
    requires Valid(p)
    ensures Div(Mul(p, q), q) == p
    ensures Mul(p, One) == p
    ensures Mul(p, q) == Mul(q, p)
  {
  }

  /** Integer powers: `p ** 1 == p`, `p ** 2 == p * p` and `p ** -1 == Prefix(1) / p`. */
  lemma PowSmallExponents(p: Prefix)
    requires Valid(p)
    ensures Pow(p, 1) == p
    ensures Pow(p, 2) == Mul(p, p)
    ensures Pow(p, -1) == Div(One, p)
  {
    IntPowUnitExponents(p.factor);
  }
}
