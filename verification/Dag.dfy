/**
  The cycle check run before an action is stored (pkg/utils/dag/dag.go): Kahn's algorithm
  over a map that is decremented and deleted from while it is being iterated.
 */
module Dag {
  import opened Graphs

  type Nodes = map<string, seq<string>>

  /** A missing key of a Go map reads as the zero value. */
  function Succ(nodes: Nodes, n: string): seq<string> {
    if n in nodes then nodes[n] else []
  }

  function Get(m: map<string, int>, k: string): int {
    if k in m then m[k] else 0
  }

  function EdgesOf(nodes: Nodes): Edges {
    set n, d | n in nodes && d in nodes[n] :: (n, d)
  }

  ghost predicate Pointed(nodes: Nodes, sources: set<string>, v: string) {
    exists s :: s in sources && v in Succ(nodes, s)
  }

  /** The nodes of the graph are its map keys and every destination. */
  ghost predicate IsNode(nodes: Nodes, v: string) {
    v in nodes || Pointed(nodes, nodes.Keys, v)
  }

  lemma EdgeMeansSucc(nodes: Nodes, u: string, v: string)
    ensures (u, v) in EdgesOf(nodes) <==> v in Succ(nodes, u)
  {
  }

  ghost function Pick(s: set<string>): (x: string)
    requires s != {}
    ensures x in s
  {
    var x :| x in s; x
  }

  /** Edges into v, counted with multiplicity, that leave one of the sources. */
  ghost function InDegree(nodes: Nodes, sources: set<string>, v: string): nat {
    if sources == {} then 0
    else var s := Pick(sources); multiset(Succ(nodes, s))[v] + InDegree(nodes, sources - {s}, v)
  }

  lemma {:induction false} InDegreeRemove(nodes: Nodes, sources: set<string>, s: string, v: string)
    requires s in sources
    ensures InDegree(nodes, sources, v) == multiset(Succ(nodes, s))[v] + InDegree(nodes, sources - {s}, v)
    decreases |sources|
  {
    var t := Pick(sources);
    if t != s {
      InDegreeRemove(nodes, sources - {t}, s, v);
      InDegreeRemove(nodes, sources - {s}, t, v);
      assert sources - {t} - {s} == sources - {s} - {t};
    }
  }

  /** A node without an entry has no outgoing edges, so it may join the sources. */
  lemma {:induction false} InDegreeOfKeys(nodes: Nodes, sources: set<string>, v: string)
    requires nodes.Keys <= sources
    ensures InDegree(nodes, sources, v) == InDegree(nodes, nodes.Keys, v)
    decreases |sources|
  {
    if s :| s in sources && s !in nodes {
      InDegreeRemove(nodes, sources, s, v);
      InDegreeOfKeys(nodes, sources - {s}, v);
    } else {
      assert sources == nodes.Keys;
    }
  }

  lemma {:induction false} InDegreePositive(nodes: Nodes, sources: set<string>, v: string)
    ensures InDegree(nodes, sources, v) > 0 <==> Pointed(nodes, sources, v)
    decreases |sources|
  {
    if sources != {} {
      var s := Pick(sources);
      InDegreePositive(nodes, sources - {s}, v);
      assert Pointed(nodes, sources, v) <==> v in Succ(nodes, s) || Pointed(nodes, sources - {s}, v);
    }
  }

  /** The surviving counters count exactly the edges that leave surviving nodes. */
  ghost predicate Counted(nodes: Nodes, indegrees: map<string, int>) {
    forall v :: v in indegrees ==> indegrees[v] == InDegree(nodes, indegrees.Keys, v)
  }

  /** `order` lists the deleted nodes; with the survivors they make up the graph. */
  ghost predicate Split(nodes: Nodes, indegrees: map<string, int>, order: seq<string>) {
    forall v :: IsNode(nodes, v) <==> (v in indegrees) != (v in order)
  }

  ghost predicate Peeled(nodes: Nodes, indegrees: map<string, int>, order: seq<string>) {
    && Counted(nodes, indegrees)
    && Split(nodes, indegrees, order)
    && (forall v :: v in order ==> v !in indegrees)
    && PredecessorsFirst(EdgesOf(nodes), order)
  }

  // ----- What an exhausted deletion says about cycles -----

  lemma {:induction false} BackWalk(nodes: Nodes, alive: set<string>, v: string, n: nat) returns (p: seq<string>)
    requires v in alive
    requires forall u :: u in alive ==> InDegree(nodes, alive, u) > 0
    ensures |p| == n + 1 && IsPath(EdgesOf(nodes), p) && p[n] == v
    ensures forall x :: x in p ==> x in alive
    decreases n
  {
    if n == 0 {
      return [v];
    }
    InDegreePositive(nodes, alive, v);
    var u :| u in alive && v in Succ(nodes, u);
    EdgeMeansSucc(nodes, u, v);
    var q := BackWalk(nodes, alive, u, n - 1);
    p := q + [v];
  }

  lemma AliveIsFedByCycle(nodes: Nodes, alive: set<string>, v: string)
    requires v in alive
    requires forall u :: u in alive ==> InDegree(nodes, alive, u) > 0
    ensures FedByCycle(EdgesOf(nodes), v)
  {
    var p := BackWalk(nodes, alive, v, |alive|);
    var i, j := Pigeonhole(p, alive);
    RepeatMakesCycle(EdgesOf(nodes), p, i, j);
  }

  lemma FedIsNode(nodes: Nodes, v: string)
    requires FedByCycle(EdgesOf(nodes), v)
    ensures IsNode(nodes, v)
  {
    FedHasPredecessor(EdgesOf(nodes), v);
    var u :| (u, v) in EdgesOf(nodes);
    EdgeMeansSucc(nodes, u, v);
  }

  /** The survivors of an exhausted deletion are exactly the nodes some cycle leads to. */
  lemma SurvivorsAreFedByCycle(nodes: Nodes, indegrees: map<string, int>, order: seq<string>, v: string)
    requires Peeled(nodes, indegrees, order)
    requires forall u :: u in indegrees ==> indegrees[u] != 0
    ensures v in indegrees <==> FedByCycle(EdgesOf(nodes), v)
  {
    if v in indegrees {
      AliveIsFedByCycle(nodes, indegrees.Keys, v);
    } else if v in order {
      var i :| 0 <= i < |order| && order[i] == v;
      OrderedIsNotFed(EdgesOf(nodes), order, i);
    } else if FedByCycle(EdgesOf(nodes), v) {
      FedIsNode(nodes, v);
    }
  }

  // ----- The algorithm -----

  /** Increments the counter of every destination; a missing counter starts at zero. */
  method AddEdges(before: map<string, int>, dsts: seq<string>) returns (after: map<string, int>)
    ensures forall v :: v in after <==> v in before || v in dsts
    ensures forall v :: v in after ==> after[v] == Get(before, v) + multiset(dsts)[v]
  {
    after := before;
    for k := 0 to |dsts|
      invariant forall v :: v in after <==> v in before || v in dsts[..k]
      invariant forall v :: v in after ==> after[v] == Get(before, v) + multiset(dsts[..k])[v]
    {
      assert dsts[..k + 1] == dsts[..k] + [dsts[k]];
      after := after[dsts[k] := Get(after, dsts[k]) + 1];
    }
    assert dsts[..|dsts|] == dsts;
  }

  /** Decrements the counter of every destination: none is missing, none goes below zero. */
  method SubEdges(before: map<string, int>, dsts: seq<string>) returns (after: map<string, int>)
    requires forall v :: v in dsts ==> v in before
    requires forall v :: v in before ==> before[v] >= multiset(dsts)[v]
    ensures after.Keys == before.Keys
    ensures forall v :: v in before ==> after[v] == before[v] - multiset(dsts)[v]
  {
    after := before;
    for k := 0 to |dsts|
      invariant after.Keys == before.Keys
      invariant forall v :: v in before ==> after[v] == before[v] - multiset(dsts)[v] + multiset(dsts[k..])[v]
    {
      assert dsts[k..] == [dsts[k]] + dsts[k + 1..];
      assert dsts[k] in after && after[dsts[k]] >= 1;
      after := after[dsts[k] := Get(after, dsts[k]) - 1];
    }
  }

  /** The counters when the edges of the nodes in `seen` are counted. */
  ghost predicate CountedFrom(nodes: Nodes, seen: set<string>, indegrees: map<string, int>) {
    && (forall v :: v in indegrees <==> v in nodes || InDegree(nodes, seen, v) > 0)
    && (forall v :: v in indegrees ==> indegrees[v] == InDegree(nodes, seen, v))
  }

  lemma CountOneMore(nodes: Nodes, seen: set<string>, node: string, before: map<string, int>, after: map<string, int>)
    requires CountedFrom(nodes, seen, before) && node in nodes && node !in seen
    requires forall v :: v in after <==> v in before || v in nodes[node]
    requires forall v :: v in after ==> after[v] == Get(before, v) + multiset(nodes[node])[v]
    ensures CountedFrom(nodes, seen + {node}, after)
  {
    forall v
      ensures InDegree(nodes, seen + {node}, v) == multiset(nodes[node])[v] + InDegree(nodes, seen, v)
    {
      InDegreeRemove(nodes, seen + {node}, node, v);
      assert seen + {node} - {node} == seen;
    }
    hide InDegree;
  }

  lemma CountedFromAll(nodes: Nodes, indegrees: map<string, int>)
    requires CountedFrom(nodes, nodes.Keys, indegrees)
    ensures Counted(nodes, indegrees)
    ensures forall v :: IsNode(nodes, v) <==> v in indegrees
  {
    forall v
      ensures IsNode(nodes, v) <==> v in indegrees
      ensures v in indegrees ==> indegrees[v] == InDegree(nodes, indegrees.Keys, v)
    {
      InDegreePositive(nodes, nodes.Keys, v);
      InDegreeOfKeys(nodes, indegrees.Keys, v);
    }
  }

  method CountIndegrees(nodes: Nodes) returns (indegrees: map<string, int>)
    ensures Counted(nodes, indegrees)
    ensures forall v :: IsNode(nodes, v) <==> v in indegrees
  {
    indegrees := map n | n in nodes :: 0;
    ghost var seen := {};
    var pending := nodes.Keys;
    assert CountedFrom(nodes, seen, indegrees);
    hide CountedFrom, Counted, IsNode;
    while pending != {}
      invariant seen !! pending && seen + pending == nodes.Keys
      invariant CountedFrom(nodes, seen, indegrees)
    {
      var node :| node in pending;
      pending := pending - {node};
      var before := indegrees;
      indegrees := AddEdges(before, nodes[node]);
      CountOneMore(nodes, seen, node, before, indegrees);
      seen := seen + {node};
    }
    assert seen == nodes.Keys;
    CountedFromAll(nodes, indegrees);
  }

  lemma PredecessorsAreDeleted(nodes: Nodes, indegrees: map<string, int>, order: seq<string>, node: string)
    requires Peeled(nodes, indegrees, order) && node in indegrees && indegrees[node] == 0
    ensures forall u :: (u, node) in EdgesOf(nodes) ==> u in order
    ensures PredecessorsFirst(EdgesOf(nodes), order + [node])
  {
    InDegreePositive(nodes, indegrees.Keys, node);
    forall u | (u, node) in EdgesOf(nodes)
      ensures u in order
    {
      EdgeMeansSucc(nodes, u, node);
      assert IsNode(nodes, u);
    }
    ghost var longer := order + [node];
    forall i, u | 0 <= i < |longer| && (u, longer[i]) in EdgesOf(nodes)
      ensures u in longer[..i]
    {
      assert longer[..i] == order[..i];
    }
  }

  lemma DestinationSurvives(nodes: Nodes, indegrees: map<string, int>, order: seq<string>, node: string, dst: string)
    requires Peeled(nodes, indegrees, order) && node in indegrees && dst in Succ(nodes, node)
    ensures dst in indegrees
  {
    EdgeMeansSucc(nodes, node, dst);
    assert IsNode(nodes, dst);
    if dst in order {
      PredecessorInOrder(EdgesOf(nodes), order, node, dst);
    }
  }

  /** Deletes one node of in-degree zero; no decrement revives a deleted key. */
  method DeleteNode(nodes: Nodes, before: map<string, int>, node: string, ghost order: seq<string>)
    returns (indegrees: map<string, int>)
    requires Peeled(nodes, before, order) && node in before && before[node] == 0
    ensures Peeled(nodes, indegrees, order + [node])
    ensures indegrees.Keys == before.Keys - {node}
  {
    ghost var rest := before.Keys - {node};
    var dsts := Succ(nodes, node);
    forall v | v in before
      ensures before[v] == multiset(dsts)[v] + InDegree(nodes, rest, v)
    {
      InDegreeRemove(nodes, before.Keys, node, v);
    }
    forall v | v in dsts
      ensures v in before
    {
      DestinationSurvives(nodes, before, order, node, v);
    }
    PredecessorsAreDeleted(nodes, before, order, node);
    indegrees := SubEdges(before, dsts);
    indegrees := indegrees - {node};
    assert indegrees.Keys == rest;
  }

  lemma {:induction false} SubsetSize(small: set<string>, big: set<string>)
    requires small <= big
    ensures |small| <= |big|
    ensures small != big ==> |small| < |big|
    decreases |small|
  {
    if x :| x in small {
      SubsetSize(small - {x}, big - {x});
      assert small == small - {x} + {x} && big == big - {x} + {x};
    }
  }

  /** One pass of the range loop: every key is visited once, in an arbitrary order. */
  method Sweep(nodes: Nodes, before: map<string, int>, ghost orderBefore: seq<string>)
    returns (indegrees: map<string, int>, found: bool, ghost order: seq<string>)
    requires Peeled(nodes, before, orderBefore)
    ensures Peeled(nodes, indegrees, order)
    ensures found ==> |indegrees.Keys| < |before.Keys|
    ensures !found ==> indegrees == before && forall v :: v in indegrees ==> indegrees[v] != 0
  {
    indegrees, found, order := before, false, orderBefore;
    var pending := before.Keys;
    while pending != {}
      invariant Peeled(nodes, indegrees, order)
      invariant pending <= indegrees.Keys <= before.Keys
      invariant found ==> indegrees.Keys != before.Keys
      invariant !found ==> indegrees == before && forall v :: v in before.Keys - pending ==> before[v] != 0
    {
      var node :| node in pending;
      pending := pending - {node};
      if indegrees[node] == 0 {
        indegrees := DeleteNode(nodes, indegrees, node, order);
        order := order + [node];
        found := true;
      }
    }
    SubsetSize(indegrees.Keys, before.Keys);
  }

  /** The keys of a map, in an arbitrary order. */
  method Keys(m: map<string, int>) returns (keys: seq<string>)
    ensures forall v :: v in keys <==> v in m
    ensures forall i, j :: 0 <= i < j < |keys| ==> keys[i] != keys[j]
  {
    keys := [];
    var pending := m.Keys;
    while pending != {}
      invariant pending <= m.Keys
      invariant forall v :: v in keys <==> v in m.Keys - pending
      invariant forall i, j :: 0 <= i < j < |keys| ==> keys[i] != keys[j]
    {
      var node :| node in pending;
      assert node !in keys;
      ghost var before := keys;
      pending := pending - {node};
      keys := keys + [node];
      assert forall i :: 0 <= i < |before| ==> keys[i] == before[i] && before[i] in before;
    }
  }

  /** Reports a loop exactly when there is a cycle, and returns exactly the nodes cycles lead to. */
  method CheckLoop(nodes: Nodes) returns (looped: bool, loop: seq<string>)
    ensures looped <==> HasCycle(EdgesOf(nodes))
    ensures forall v :: v in loop <==> FedByCycle(EdgesOf(nodes), v)
    ensures forall i, j :: 0 <= i < j < |loop| ==> loop[i] != loop[j]
  {
    var indegrees := CountIndegrees(nodes);
    ghost var order := [];
    var found := true;
    while found
      invariant Peeled(nodes, indegrees, order)
      invariant !found ==> forall v :: v in indegrees ==> indegrees[v] != 0
      decreases |indegrees.Keys|, found
    {
      indegrees, found, order := Sweep(nodes, indegrees, order);
    }
    forall v
      ensures v in indegrees <==> FedByCycle(EdgesOf(nodes), v)
    {
      SurvivorsAreFedByCycle(nodes, indegrees, order, v);
    }
    CycleHasFedNode(EdgesOf(nodes));
    loop := Keys(indegrees);
    looped := |loop| > 0;
    assert looped ==> loop[0] in loop;
  }
}
