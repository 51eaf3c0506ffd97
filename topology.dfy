/** The topological sort of a computation graph: a post-order depth-first traversal
    that walks from a node back along its inputs, so that a node is listed only after
    every node it depends on. */
module Topology {
  import opened AutoDiff

  /** The nodes `n` depends on, `n` included. */
  function Reach(g: seq<Node>, n: nat): set<nat>
    requires Acyclic(g) && n < |g|
    decreases n, 1
  {
    {n} + ReachFrom(g, n, |g[n].inputs|)
  }

  /** The nodes the first `j` inputs of `n` depend on. */
  function ReachFrom(g: seq<Node>, n: nat, j: nat): set<nat>
    requires Acyclic(g) && n < |g| && j <= |g[n].inputs|
    decreases n, 0, j
  {
    if j == 0 then {} else ReachFrom(g, n, j - 1) + Reach(g, g[n].inputs[j - 1])
  }

  /** The nodes any of `roots` depends on. */
  function ReachAll(g: seq<Node>, roots: seq<nat>): set<nat>
    requires Acyclic(g) && InGraph(g, roots)
  {
    if roots == [] then {}
    else ReachAll(g, roots[..|roots| - 1]) + Reach(g, roots[|roots| - 1])
  }

  function Elems(s: seq<nat>): set<nat> {
    set x | x in s
  }

  /** Every node of `order` is listed after all of its inputs. */
  predicate TopoOrdered(g: seq<Node>, order: seq<nat>) {
    forall k :: 0 <= k < |order| ==>
      order[k] < |g| && forall i :: 0 <= i < |g[order[k]].inputs| ==> g[order[k]].inputs[i] in order[..k]
  }

  predicate Distinct(order: seq<nat>) {
    forall k, l :: 0 <= k < l < |order| ==> order[k] != order[l]
  }

  /** `s` holds everything its members depend on. */
  ghost predicate Closed(g: seq<Node>, s: set<nat>)
    requires Acyclic(g)
  {
    forall x :: x in s ==> x < |g| && Reach(g, x) <= s
  }

  /** A node depends only on itself and on older nodes. */
  lemma {:induction false} ReachBound(g: seq<Node>, n: nat)
    requires Acyclic(g) && n < |g|
    ensures forall m :: m in Reach(g, n) ==> m <= n
    decreases n, 1
  {
    ReachFromBound(g, n, |g[n].inputs|);
  }

  lemma {:induction false} ReachFromBound(g: seq<Node>, n: nat, j: nat)
    requires Acyclic(g) && n < |g| && j <= |g[n].inputs|
    ensures forall m :: m in ReachFrom(g, n, j) ==> m < n
    decreases n, 0, j
  {
    if j > 0 {
      ReachFromBound(g, n, j - 1);
      ReachBound(g, g[n].inputs[j - 1]);
    }
  }

  /** What input `i < j` depends on is part of `ReachFrom(g, n, j)`. */
  lemma {:induction false} ReachFromContains(g: seq<Node>, n: nat, j: nat, i: nat)
    requires Acyclic(g) && n < |g| && i < j <= |g[n].inputs|
    ensures Reach(g, g[n].inputs[i]) <= ReachFrom(g, n, j)
    decreases j
  {
    if i < j - 1 {
      ReachFromContains(g, n, j - 1, i);
    }
  }

  /** Whatever is in `ReachFrom(g, n, j)` is reached from one of the first `j` inputs. */
  lemma {:induction false} ReachFromMember(g: seq<Node>, n: nat, j: nat, m: nat)
    requires Acyclic(g) && n < |g| && j <= |g[n].inputs| && m in ReachFrom(g, n, j)
    ensures exists i :: 0 <= i < j && m in Reach(g, g[n].inputs[i])
    decreases j
  {
    if m !in Reach(g, g[n].inputs[j - 1]) {
      ReachFromMember(g, n, j - 1, m);
    }
  }

  /** Every input of a node is among the nodes it depends on. */
  lemma InputsReached(g: seq<Node>, n: nat, i: nat)
    requires Acyclic(g) && n < |g| && i < |g[n].inputs|
    ensures g[n].inputs[i] in Reach(g, n)
  {
    ReachFromContains(g, n, |g[n].inputs|, i);
  }

  /** Dependence is transitive. */
  lemma {:induction false} ReachTransitive(g: seq<Node>, n: nat, m: nat)
    requires Acyclic(g) && n < |g| && m in Reach(g, n)
    ensures m < |g| && Reach(g, m) <= Reach(g, n)
    decreases n
  {
    ReachBound(g, n);
    if m != n {
      ReachFromMember(g, n, |g[n].inputs|, m);
      var i :| 0 <= i < |g[n].inputs| && m in Reach(g, g[n].inputs[i]);
      ReachTransitive(g, g[n].inputs[i], m);
      ReachFromContains(g, n, |g[n].inputs|, i);
    }
  }

  /** Everything `n` depends on, other than `n`, is an input of a node `n` depends on. */
  lemma {:induction false} ReachParent(g: seq<Node>, n: nat, x: nat)
    requires Acyclic(g) && n < |g| && x in Reach(g, n) && x != n
    ensures exists c, i :: c in Reach(g, n) && c < |g| && 0 <= i < |g[c].inputs| && g[c].inputs[i] == x
    decreases n
  {
    ReachFromMember(g, n, |g[n].inputs|, x);
    var i :| 0 <= i < |g[n].inputs| && x in Reach(g, g[n].inputs[i]);
    var m := g[n].inputs[i];
    if x == m {
      assert n in Reach(g, n);
    } else {
      ReachParent(g, m, x);
      var c, k :| c in Reach(g, m) && c < |g| && 0 <= k < |g[c].inputs| && g[c].inputs[k] == x;
      ReachFromContains(g, n, |g[n].inputs|, i);
      assert c in Reach(g, n);
    }
  }

  /** The sort of a single root lists the nodes it depends on. */
  lemma ReachAllOfOne(g: seq<Node>, n: nat)
    requires Acyclic(g) && n < |g|
    ensures ReachAll(g, [n]) == Reach(g, n)
  {
    assert [n][..0] == [];
  }

  /** Listing `n` after everything it depends on keeps a closed topological order. */
  lemma ListAfterInputs(g: seq<Node>, order: seq<nat>, n: nat)
    requires Acyclic(g) && n < |g| && n !in Elems(order)
    requires TopoOrdered(g, order) && Distinct(order) && Closed(g, Elems(order))
    requires forall i :: 0 <= i < |g[n].inputs| ==> g[n].inputs[i] in Elems(order)
    requires Reach(g, n) == {n} + ReachFrom(g, n, |g[n].inputs|)
    requires ReachFrom(g, n, |g[n].inputs|) <= Elems(order)
    ensures TopoOrdered(g, order + [n]) && Distinct(order + [n])
    ensures Elems(order + [n]) == Elems(order) + {n}
    ensures Closed(g, Elems(order + [n]))
  {
    var o := order + [n];
    assert o[..|order|] == order;
    forall k | 0 <= k < |order|
      ensures o[..k] == order[..k]
    {
    }
    assert Elems(o) == Elems(order) + {n};
    forall x | x in Reach(g, n)
      ensures x < |g| && Reach(g, x) <= Elems(o)
    {
      ReachTransitive(g, n, x);
    }
  }

  /** The state of `find_topo_sort` between calls of `topo_sort_dfs`: the order is a
      topological order of distinct visited nodes that holds everything its nodes
      depend on. */
  ghost predicate Consistent(g: seq<Node>, visited: set<nat>, order: seq<nat>) {
    Acyclic(g) && Elems(order) <= visited && (forall x :: x in visited ==> x < |g|)
    && TopoOrdered(g, order) && Distinct(order) && Closed(g, Elems(order))
  }

  /** `topo_sort_dfs(n, visited, topo_order)`, which adds to the set and the list it is
      given; here it returns them. The nodes visited but not yet listed are the ones
      whose traversal is under way, all of which depend on `n`. */
  method Visit(g: seq<Node>, n: nat, visited: set<nat>, order: seq<nat>)
    returns (visited': set<nat>, order': seq<nat>)
    requires Consistent(g, visited, order) && n < |g|
    requires forall p :: p in visited && p !in Elems(order) ==> p > n
    ensures Consistent(g, visited', order')
    ensures visited' == visited + Reach(g, n)
    ensures Elems(order') == Elems(order) + Reach(g, n)
    ensures order <= order'
    ensures n !in visited ==> |order'| > 0 && order'[|order'| - 1] == n
    decreases n, 1
  {
    if n in visited {
      assert n in Elems(order);
      return visited, order;
    }
    visited', order' := VisitInputs(g, n, visited + {n}, order);
    forall i | 0 <= i < |g[n].inputs|
      ensures g[n].inputs[i] in Elems(order')
    {
      ReachFromContains(g, n, |g[n].inputs|, i);
    }
    ListAfterInputs(g, order', n);
    order' := order' + [n];
  }

  /** The loop of `topo_sort_dfs` over the inputs of `n`, which is visited and not
      yet listed. */
  method VisitInputs(g: seq<Node>, n: nat, visited: set<nat>, order: seq<nat>)
    returns (visited': set<nat>, order': seq<nat>)
    requires Consistent(g, visited, order) && n < |g| && n in visited && n !in Elems(order)
    requires forall p :: p in visited && p !in Elems(order) ==> p >= n
    ensures Consistent(g, visited', order')
    ensures visited' == visited + ReachFrom(g, n, |g[n].inputs|)
    ensures Elems(order') == Elems(order) + ReachFrom(g, n, |g[n].inputs|)
    ensures order <= order' && n !in Elems(order')
    decreases n, 0
  {
    ReachFromBound(g, n, |g[n].inputs|);
    visited', order' := visited, order;
    var j := 0;
    while j < |g[n].inputs|
      invariant 0 <= j <= |g[n].inputs|
      invariant Consistent(g, visited', order')
      invariant visited' == visited + ReachFrom(g, n, j)
      invariant Elems(order') == Elems(order) + ReachFrom(g, n, j)
      invariant order <= order'
      invariant n !in Elems(order')
      invariant forall p :: p in visited' && p !in Elems(order') ==> p >= n
    {
      var m := g[n].inputs[j];
      ghost var v0, o0 := visited', order';
      visited', order' := Visit(g, m, visited', order');
      InputVisited(g, n, j, visited, Elems(order), v0, Elems(o0), visited', Elems(order'));
      j := j + 1;
    }
  }

  /** One turn of the loop over the inputs of `n`: visiting input `j` adds what it
      depends on to the visited and the listed nodes alike. */
  lemma InputVisited(g: seq<Node>, n: nat, j: nat, v: set<nat>, e: set<nat>,
                     v0: set<nat>, e0: set<nat>, v1: set<nat>, e1: set<nat>)
    requires Acyclic(g) && n < |g| && j < |g[n].inputs|
    requires v0 == v + ReachFrom(g, n, j) && e0 == e + ReachFrom(g, n, j)
    requires v1 == v0 + Reach(g, g[n].inputs[j]) && e1 == e0 + Reach(g, g[n].inputs[j])
    requires forall p :: p in v0 && p !in e0 ==> p >= n
    requires n !in e0
    ensures v1 == v + ReachFrom(g, n, j + 1) && e1 == e + ReachFrom(g, n, j + 1)
    ensures forall p :: p in v1 && p !in e1 ==> p >= n
    ensures n !in e1
  {
    ReachBound(g, g[n].inputs[j]);
  }

  /** `find_topo_sort(roots)`: every node the roots depend on, each listed once and
      after its inputs; a single root comes last. */
  method FindTopoSort(g: seq<Node>, roots: seq<nat>) returns (order: seq<nat>)
    requires Acyclic(g) && InGraph(g, roots)
    ensures TopoOrdered(g, order) && Distinct(order)
    ensures Elems(order) == ReachAll(g, roots)
    ensures |roots| == 1 ==> |order| > 0 && order[|order| - 1] == roots[0]
  {
    var visited: set<nat> := {};
    order := [];
    var i := 0;
    while i < |roots|
      invariant 0 <= i <= |roots|
      invariant Consistent(g, visited, order)
      invariant visited == Elems(order) == ReachAll(g, roots[..i])
      invariant i == 1 ==> |order| > 0 && order[|order| - 1] == roots[0]
    {
      visited, order := Visit(g, roots[i], visited, order);
      assert roots[..i + 1][..i] == roots[..i];
      i := i + 1;
    }
    assert roots[..|roots|] == roots;
  }
}
