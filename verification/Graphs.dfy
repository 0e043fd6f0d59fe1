/** Directed graphs as sets of edges: paths, cycles, and the nodes a cycle leads to. */
module Graphs {

  type Edges = set<(string, string)>

  ghost predicate IsPath(edges: Edges, p: seq<string>) {
    && |p| >= 1
    && forall i {:trigger p[i]} :: 0 <= i < |p| - 1 ==> (p[i], p[i + 1]) in edges
  }

  /** A closed walk with at least one edge; a self-loop is the shortest one. */
  ghost predicate IsCycle(edges: Edges, c: seq<string>) {
    IsPath(edges, c) && |c| >= 2 && c[0] == c[|c| - 1]
  }

  ghost predicate HasCycle(edges: Edges) {
    exists c :: IsCycle(edges, c)
  }

  ghost predicate Leads(edges: Edges, from: string, to: string) {
    exists p :: IsPath(edges, p) && p[0] == from && p[|p| - 1] == to
  }

  /** v lies on a cycle or downstream of one. */
  ghost predicate FedByCycle(edges: Edges, v: string) {
    exists c :: IsCycle(edges, c) && Leads(edges, c[0], v)
  }

  lemma HasCycleMonotone(small: Edges, big: Edges)
    requires small <= big && HasCycle(small)
    ensures HasCycle(big)
  {
    var c :| IsCycle(small, c);
    assert IsCycle(big, c);
  }

  /** A walk that visits some node twice ends downstream of a cycle. */
  lemma RepeatMakesCycle(edges: Edges, p: seq<string>, i: nat, j: nat)
    requires IsPath(edges, p) && i < j < |p| && p[i] == p[j]
    ensures FedByCycle(edges, p[|p| - 1])
  {
    var c, tail := p[i..j + 1], p[i..];
    assert IsCycle(edges, c);
    assert IsPath(edges, tail) && tail[0] == c[0] && tail[|tail| - 1] == p[|p| - 1];
    assert Leads(edges, c[0], p[|p| - 1]);
  }

  /** Some node is fed by a cycle exactly when there is one. */
  lemma CycleHasFedNode(edges: Edges)
    ensures HasCycle(edges) <==> exists v :: FedByCycle(edges, v)
  {
    if c :| IsCycle(edges, c) {
      assert IsPath(edges, [c[0]]) && [c[0]][0] == c[0];
      assert Leads(edges, c[0], c[0]);
      assert FedByCycle(edges, c[0]);
    }
  }

  // ----- Orders that list every predecessor first -----

  ghost predicate PredecessorsFirst(edges: Edges, order: seq<string>) {
    forall i, u :: 0 <= i < |order| && (u, order[i]) in edges ==> u in order[..i]
  }

  lemma PredecessorInOrder(edges: Edges, order: seq<string>, u: string, v: string)
    requires PredecessorsFirst(edges, order) && v in order && (u, v) in edges
    ensures u in order
  {
    var i :| 0 <= i < |order| && order[i] == v;
    assert u in order[..i];
  }

  lemma {:induction false} PathIntoOrder(edges: Edges, order: seq<string>, p: seq<string>, i: nat)
    requires PredecessorsFirst(edges, order)
    requires i < |order| && IsPath(edges, p) && p[|p| - 1] == order[i]
    ensures p[0] in order
    ensures |p| >= 2 ==> p[0] in order[..i]
    decreases |p|
  {
    if |p| >= 2 {
      var q := p[..|p| - 1];
      assert (p[|p| - 2], p[|p| - 1]) in edges;
      var j :| 0 <= j < i && order[j] == q[|q| - 1];
      PathIntoOrder(edges, order, q, j);
      assert |q| >= 2 ==> order[..j] <= order[..i];
    }
  }

  lemma {:induction false} CycleNotInOrder(edges: Edges, order: seq<string>, c: seq<string>, i: nat)
    requires PredecessorsFirst(edges, order)
    requires i < |order| && IsCycle(edges, c)
    ensures order[i] != c[0]
    decreases i
  {
    if order[i] == c[0] {
      PathIntoOrder(edges, order, c, i);
      var j :| 0 <= j < i && order[j] == c[0];
      CycleNotInOrder(edges, order, c, j);
    }
  }

  /** No node of such an order is downstream of a cycle. */
  lemma OrderedIsNotFed(edges: Edges, order: seq<string>, i: nat)
    requires PredecessorsFirst(edges, order) && i < |order|
    ensures !FedByCycle(edges, order[i])
  {
    if FedByCycle(edges, order[i]) {
      var c :| IsCycle(edges, c) && Leads(edges, c[0], order[i]);
      var p :| IsPath(edges, p) && p[0] == c[0] && p[|p| - 1] == order[i];
      PathIntoOrder(edges, order, p, i);
      var k :| 0 <= k < |order| && order[k] == c[0];
      CycleNotInOrder(edges, order, c, k);
    }
  }

  lemma LastEdge(edges: Edges, p: seq<string>)
    requires IsPath(edges, p) && |p| >= 2
    ensures (p[|p| - 2], p[|p| - 1]) in edges
  {
  }

  /** Whatever a cycle leads to has an incoming edge. */
  lemma FedHasPredecessor(edges: Edges, v: string)
    requires FedByCycle(edges, v)
    ensures exists u :: (u, v) in edges
  {
    var c :| IsCycle(edges, c) && Leads(edges, c[0], v);
    var p :| IsPath(edges, p) && p[0] == c[0] && p[|p| - 1] == v;
    hide IsPath;
    LastEdge(edges, if |p| >= 2 then p else c);
  }

  /** A sequence longer than the set it draws from repeats an element. */
  lemma {:induction false} Pigeonhole(p: seq<string>, pool: set<string>) returns (i: nat, j: nat)
    requires |p| > |pool| && forall x :: x in p ==> x in pool
    ensures i < j < |p| && p[i] == p[j]
  {
    if k :| 1 <= k < |p| && p[k] == p[0] {
      return 0, k;
    }
    assert forall x :: x in p[1..] ==> x in pool - {p[0]};
    var a, b := Pigeonhole(p[1..], pool - {p[0]});
    return a + 1, b + 1;
  }
}
