/**
  The action store of the API server (cmd/apiserver/httpserver/restful/action.go). Actions invoke
  each other by name; a write is refused when the invocation graph would get a cycle.
 */
module Actions {
  import opened Graphs
  import Dag

  datatype Status = NoStatus | Status(desired: int, actors: seq<string>)

  datatype Action = Action(uid: string, name: string, invokes: seq<string>, script: string, status: Status)

  /** Stored objects under the action prefix, by UID. */
  type Store = map<string, Action>

  datatype Response =
    | Stored(action: Action)
    | Deleted
    | BadRequest
    | NotFound
    | ServerError
    | Cycle(nodes: seq<string>)

  /** The invocation graph: an edge from an action's name to each name it invokes. */
  function StoreEdges(store: Store): Edges {
    set k, d | k in store && d in store[k].invokes :: (store[k].name, d)
  }

  ghost predicate Keyed(store: Store) {
    forall k :: k in store ==> store[k].uid == k
  }

  ghost predicate UniqueNames(store: Store) {
    forall j, k :: j in store && k in store && store[j].name == store[k].name ==> j == k
  }

  ghost predicate Valid(store: Store) {
    Keyed(store) && UniqueNames(store) && !HasCycle(StoreEdges(store))
  }

  /** The name belongs to an action other than the one stored under uid. */
  ghost predicate NameTaken(store: Store, uid: string, name: string) {
    exists k :: k in store && k != uid && store[k].name == name
  }

  // ----- What the handlers hand to the cycle check -----

  ghost predicate Source(store: Store, kept: set<string>, k: string, name: string) {
    k in kept && k in store && store[k].name == name
  }

  /** `nodes` is the graph read from the kept actions; of two actions with one name, either may win. */
  ghost predicate Reads(nodes: Dag.Nodes, store: Store, kept: set<string>) {
    && (forall n :: n in nodes ==> exists k :: Source(store, kept, k, n) && nodes[n] == store[k].invokes)
    && (forall k :: k in kept && k in store ==> store[k].name in nodes)
  }

  ghost predicate Passes(nodes: Dag.Nodes, store: Store, kept: set<string>, a: Action) {
    Reads(nodes, store, kept) && !HasCycle(Dag.EdgesOf(nodes[a.name := a.invokes]))
  }

  /** For some reading of the kept actions the check lets the new action through. */
  ghost predicate Accepted(store: Store, kept: set<string>, a: Action) {
    exists nodes :: Passes(nodes, store, kept, a)
  }

  function OtherNames(store: Store, name: string): set<string> {
    set k | k in store && store[k].name != name
  }

  function OtherUids(store: Store, uid: string): set<string> {
    set k | k in store && store[k].uid != uid
  }

  /**
    What the scan has made of a posted action: the last action of that name among those seen lends
    its UID and status; without one the action has its new UID.
   */
  ghost predicate Targets(store: Store, seen: set<string>, a: Action, newUid: string, t: Action) {
    || (exists k :: Source(store, seen, k, a.name) && t == a.(uid := store[k].uid, status := store[k].status))
    || ((forall k :: !Source(store, seen, k, a.name)) && t == a.(uid := newUid))
  }

  datatype Op =
    | Post(action: Action, newUid: string)
    | Put(uid: string, action: Action)
    | Del(uid: string)

  ghost predicate PostWrites(store: Store, a: Action, newUid: string, after: Store) {
    && a.name != "" && newUid !in store
    && Accepted(store, OtherNames(store, a.name), a)
    && exists t :: Targets(store, store.Keys, a, newUid, t) && after == store[t.uid := t]
  }

  ghost predicate PutWrites(store: Store, uid: string, a: Action, after: Store) {
    && a.uid == uid && OtherUids(store, uid) != store.Keys
    && Accepted(store, OtherUids(store, uid), a)
    && after == store[uid := a]
  }

  /** One request: it leaves the store alone, or does its one write. */
  ghost predicate Next(store: Store, op: Op, after: Store) {
    || after == store
    || (op.Post? && PostWrites(store, op.action, op.newUid, after))
    || (op.Put? && PutWrites(store, op.uid, op.action, after))
    || (op.Del? && after == store - {op.uid})
  }

  // ----- One write -----

  /** The answer once the store was read: the cyclic part of the new graph if it has one, else stored if that works. */
  ghost predicate Answers(store: Store, a: Action, writable: bool, r: Response) {
    if HasCycle(StoreEdges(store[a.uid := a]))
    then r.Cycle? && forall v :: v in r.nodes <==> FedByCycle(StoreEdges(store[a.uid := a]), v)
    else r == if writable then Stored(a) else ServerError
  }

  lemma ReadOne(nodes: Dag.Nodes, store: Store, kept: set<string>, k: string)
    requires Reads(nodes, store, kept) && k in store
    ensures Reads(nodes[store[k].name := store[k].invokes], store, kept + {k})
  {
    var after := nodes[store[k].name := store[k].invokes];
    forall n | n in after
      ensures exists j :: Source(store, kept + {k}, j, n) && after[n] == store[j].invokes
    {
      if n == store[k].name {
        assert Source(store, kept + {k}, k, n);
      } else {
        var j :| Source(store, kept, j, n) && nodes[n] == store[j].invokes;
        assert Source(store, kept + {k}, j, n);
      }
    }
  }

  lemma AnotherName(store: Store, seen: set<string>, k: string, a: Action, newUid: string, t: Action)
    requires Targets(store, seen, a, newUid, t) && k in store && store[k].name != a.name
    ensures Targets(store, seen + {k}, a, newUid, t)
  {
    if j :| Source(store, seen, j, a.name) && t == a.(uid := store[j].uid, status := store[j].status) {
      assert Source(store, seen + {k}, j, a.name);
    } else {
      assert forall j :: Source(store, seen + {k}, j, a.name) ==> Source(store, seen, j, a.name);
    }
  }

  /** With unique names, what is checked is what will be stored, unless a name is taken. */
  lemma CheckedIsStored(store: Store, nodes: Dag.Nodes, kept: set<string>, uid: string, a: Action)
    requires Keyed(store) && UniqueNames(store) && !NameTaken(store, uid, a.name)
    requires kept == store.Keys - {uid} && Reads(nodes, store, kept)
    ensures Dag.EdgesOf(nodes[a.name := a.invokes]) == StoreEdges(store[uid := a])
  {
    var checked, after := nodes[a.name := a.invokes], store[uid := a];
    forall e | e in Dag.EdgesOf(checked)
      ensures e in StoreEdges(after)
    {
      if e.0 != a.name {
        var k :| Source(store, kept, k, e.0) && nodes[e.0] == store[k].invokes;
        assert after[k] == store[k];
      } else {
        assert after[uid] == a;
      }
    }
    forall e | e in StoreEdges(after)
      ensures e in Dag.EdgesOf(checked)
    {
      var k :| k in after && e.1 in after[k].invokes && e.0 == after[k].name;
      if k != uid {
        assert k in kept && store[k].name in nodes;
        var j :| Source(store, kept, j, e.0) && nodes[e.0] == store[j].invokes;
        assert j == k;
      }
    }
  }

  /** A write that takes no other action's name keeps the store valid. */
  lemma WriteKeepsValid(store: Store, kept: set<string>, uid: string, a: Action)
    requires Valid(store) && a.uid == uid && !NameTaken(store, uid, a.name)
    requires kept == store.Keys - {uid} && Accepted(store, kept, a)
    ensures Valid(store[uid := a])
  {
    var nodes :| Passes(nodes, store, kept, a);
    CheckedIsStored(store, nodes, kept, uid, a);
  }

  lemma TargetKeepsNames(store: Store, a: Action, newUid: string, t: Action)
    requires Keyed(store) && UniqueNames(store) && newUid !in store && Targets(store, store.Keys, a, newUid, t)
    ensures OtherNames(store, a.name) == store.Keys - {t.uid} && !NameTaken(store, t.uid, t.name)
    ensures t.name == a.name && t.invokes == a.invokes
  {
    if k :| Source(store, store.Keys, k, a.name) && t == a.(uid := store[k].uid, status := store[k].status) {
      assert t.uid == k;
      forall j | j in store ensures store[j].name != a.name <==> j != k {
        assert Source(store, store.Keys, k, a.name);
      }
    } else {
      forall j | j in store ensures store[j].name != a.name && j != newUid {
        assert !Source(store, store.Keys, j, a.name);
      }
    }
    assert OtherNames(store, a.name) == store.Keys - {t.uid};
  }

  lemma DeleteKeepsValid(store: Store, uid: string)
    requires Valid(store)
    ensures Valid(store - {uid})
  {
    var after := store - {uid};
    assert StoreEdges(after) <= StoreEdges(store);
    if HasCycle(StoreEdges(after)) {
      HasCycleMonotone(StoreEdges(after), StoreEdges(store));
    }
  }

  ghost predicate PostAnswers(store: Store, a: Action, newUid: string, writable: bool, r: Response) {
    exists t :: Targets(store, store.Keys, a, newUid, t) && Answers(store, t, writable, r)
  }

  lemma PostIsAnswered(store: Store, a: Action, newUid: string, t: Action, nodes: Dag.Nodes)
    requires Valid(store) && newUid !in store && Targets(store, store.Keys, a, newUid, t)
    requires Reads(nodes, store, OtherNames(store, a.name))
    ensures Dag.EdgesOf(nodes[a.name := a.invokes]) == StoreEdges(store[t.uid := t])
  {
    TargetKeepsNames(store, a, newUid, t);
    CheckedIsStored(store, nodes, OtherNames(store, a.name), t.uid, t);
  }

  ghost predicate TakesNoName(store: Store, op: Op) {
    op.Put? ==> !NameTaken(store, op.uid, op.action.name)
  }

  /** An accepted Put keeps a valid store valid exactly when it takes no other action's name. */
  lemma PutKeepsValidIff(store: Store, uid: string, a: Action, after: Store)
    requires Valid(store) && PutWrites(store, uid, a, after)
    ensures Valid(after) <==> !NameTaken(store, uid, a.name)
  {
    if k :| k in store && k != uid && store[k].name == a.name {
      assert after[k].name == after[uid].name;
    } else {
      assert OtherUids(store, uid) == store.Keys - {uid};
      WriteKeepsValid(store, OtherUids(store, uid), uid, a);
    }
  }

  lemma NextKeepsValid(store: Store, op: Op, after: Store)
    requires Valid(store) && Next(store, op, after) && TakesNoName(store, op)
    ensures Valid(after)
  {
    if after != store {
      match op
      case Post(a, newUid) =>
        var t :| Targets(store, store.Keys, a, newUid, t) && after == store[t.uid := t];
        TargetKeepsNames(store, a, newUid, t);
        var nodes :| Passes(nodes, store, OtherNames(store, a.name), a);
        assert Passes(nodes, store, OtherNames(store, a.name), t);
        WriteKeepsValid(store, OtherNames(store, a.name), t.uid, t);
      case Put(uid, a) =>
        assert OtherUids(store, uid) == store.Keys - {uid};
        WriteKeepsValid(store, OtherUids(store, uid), uid, a);
      case Del(uid) =>
        DeleteKeepsValid(store, uid);
    }
  }

  // ----- Whole runs -----

  ghost predicate Run(states: seq<Store>, ops: seq<Op>) {
    && |states| == |ops| + 1
    && states[0] == map[]
    && forall i :: 0 <= i < |ops| ==> Next(states[i], ops[i], states[i + 1])
  }

  /** Every reachable store has unique names and an acyclic graph, as long as no Put takes a name. */
  lemma {:induction false} RunKeepsValid(states: seq<Store>, ops: seq<Op>, n: nat)
    requires Run(states, ops) && n <= |ops|
    requires forall i :: 0 <= i < n ==> TakesNoName(states[i], ops[i])
    ensures Valid(states[n])
  {
    if n == 0 {
      NoCycleFromLeaf(StoreEdges(map[]), "");
    } else {
      RunKeepsValid(states, ops, n - 1);
      NextKeepsValid(states[n - 1], ops[n - 1], states[n]);
    }
  }

  /** A graph in which every edge enters one node without outgoing edges has no cycle. */
  lemma NoCycleFromLeaf(edges: Edges, leaf: string)
    requires forall e :: e in edges ==> e.1 == leaf && e.0 != leaf
    ensures !HasCycle(edges)
  {
    forall c: seq<string>
      ensures !IsCycle(edges, c)
    {
    }
  }

  const INVOKER := Action("1", "a", ["b"], "", NoStatus)
  const THIEF := Action("2", "a", [], "", NoStatus)
  const CLOSER := Action("3", "b", ["a"], "", NoStatus)

  /** A Put that renames action 2 from "c" to the taken name "a" is accepted. */
  lemma TakingANameIsAccepted()
    ensures Valid(map["1" := INVOKER, "2" := THIEF.(name := "c")])
    ensures PutWrites(map["1" := INVOKER, "2" := THIEF.(name := "c")], "2", THIEF, map["1" := INVOKER, "2" := THIEF])
  {
    var before := map["1" := INVOKER, "2" := THIEF.(name := "c")];
    NoCycleFromLeaf(StoreEdges(before), "b");
    assert OtherUids(before, "2") == {"1"} && "2" in before.Keys;
    var nodes := map["a" := ["b"]];
    assert Source(before, {"1"}, "1", "a") && Reads(nodes, before, {"1"});
    assert Dag.EdgesOf(nodes["a" := []]) == {};
    NoCycleFromLeaf(Dag.EdgesOf(nodes["a" := []]), "a");
    assert Passes(nodes, before, {"1"}, THIEF);
    assert before["2" := THIEF] == map["1" := INVOKER, "2" := THIEF];
  }

  /** Then a Post of "b", invoking "a", is accepted too: only one of the two "a" was read. */
  lemma ClosingTheCycleIsAccepted()
    ensures PostWrites(map["1" := INVOKER, "2" := THIEF], CLOSER, "3", map["1" := INVOKER, "2" := THIEF, "3" := CLOSER])
  {
    var middle := map["1" := INVOKER, "2" := THIEF];
    assert OtherNames(middle, "b") == {"1", "2"};
    var nodes := map["a" := []];
    assert Source(middle, {"1", "2"}, "2", "a") && Reads(nodes, middle, {"1", "2"});
    assert Dag.EdgesOf(nodes["b" := ["a"]]) == {("b", "a")};
    NoCycleFromLeaf(Dag.EdgesOf(nodes["b" := ["a"]]), "a");
    assert Passes(nodes, middle, {"1", "2"}, CLOSER);
    assert Targets(middle, middle.Keys, CLOSER, "3", CLOSER);
    assert middle["3" := CLOSER] == map["1" := INVOKER, "2" := THIEF, "3" := CLOSER];
  }

  /** Once a Put has taken a name, a later Post can be let through although it closes a cycle. */
  lemma TakenNameHidesCycle() returns (before: Store, put: Op, middle: Store, post: Op, after: Store)
    ensures Valid(before) && put.Put? && NameTaken(before, put.uid, put.action.name)
    ensures Next(before, put, middle) && post.Post? && Next(middle, post, after)
    ensures HasCycle(StoreEdges(after))
  {
    TakingANameIsAccepted();
    ClosingTheCycleIsAccepted();
    before, put := map["1" := INVOKER, "2" := THIEF.(name := "c")], Put("2", THIEF);
    middle, post := map["1" := INVOKER, "2" := THIEF], Post(CLOSER, "3");
    after := map["1" := INVOKER, "2" := THIEF, "3" := CLOSER];
    assert before["1"].name == "a";
    assert after["1"].invokes[0] == "b" && after["3"].invokes[0] == "a";
    assert ("a", "b") in StoreEdges(after) && ("b", "a") in StoreEdges(after);
    assert IsCycle(StoreEdges(after), ["a", "b", "a"]);
  }

  // ----- The handlers -----

  class ActionServer {
    var store: Store

    constructor ()
      ensures store == map[]
    {
      store := map[];
    }

    /** The scan of PostAction: every stored action once, in any order. */
    method ScanForPost(newAction: Action, newUid: string) returns (t: Action, nodes: Dag.Nodes)
      ensures Targets(store, store.Keys, newAction, newUid, t)
      ensures Reads(nodes, store, OtherNames(store, newAction.name))
    {
      t := newAction.(uid := newUid);
      nodes := map[];
      ghost var kept := {};
      var pending := store.Keys;
      while pending != {}
        invariant pending <= store.Keys
        invariant kept == OtherNames(store, newAction.name) - pending
        invariant Targets(store, store.Keys - pending, newAction, newUid, t)
        invariant Reads(nodes, store, kept)
      {
        var k :| k in pending;
        ghost var seen := store.Keys - pending;
        pending := pending - {k};
        assert store.Keys - pending == seen + {k};
        if store[k].name == newAction.name {
          t := newAction.(uid := store[k].uid, status := store[k].status);
          assert Source(store, store.Keys - pending, k, newAction.name);
        } else {
          ReadOne(nodes, store, kept, k);
          AnotherName(store, seen, k, newAction, newUid, t);
          nodes := nodes[store[k].name := store[k].invokes];
          kept := kept + {k};
        }
      }
      assert store.Keys - pending == store.Keys && kept == OtherNames(store, newAction.name);
    }

    /** Creates an action, or replaces the one with the same name. */
    method PostAction(newAction: Action, newUid: string, readable: bool, writable: bool) returns (r: Response)
      requires newUid !in store
      modifies this
      ensures Next(old(store), Post(newAction, newUid), store)
      ensures !r.Stored? ==> store == old(store)
      ensures r.Stored? ==> store == old(store)[r.action.uid := r.action]
      ensures r.Stored? ==> Targets(old(store), old(store).Keys, newAction, newUid, r.action)
      ensures newAction.name == "" ==> r == BadRequest
      ensures newAction.name != "" && !readable ==> r == ServerError
      ensures r.Stored? ==> writable
      ensures Valid(old(store)) && newAction.name != "" && readable ==> PostAnswers(old(store), newAction, newUid, writable, r)
    {
      if newAction.name == "" {
        return BadRequest;
      }
      if !readable {
        return ServerError;
      }
      var t, nodes := ScanForPost(newAction, newUid);
      var looped, loop := Dag.CheckLoop(nodes[newAction.name := newAction.invokes]);
      if Valid(store) {
        PostIsAnswered(store, newAction, newUid, t, nodes);
      }
      if looped {
        return Cycle(loop);
      }
      if !writable {
        return ServerError;
      }
      assert Passes(nodes, store, OtherNames(store, newAction.name), newAction);
      store := store[t.uid := t];
      return Stored(t);
    }

    /** The scan of PutAction. */
    method ScanForPut(uid: string) returns (existed: bool, nodes: Dag.Nodes)
      ensures existed <==> OtherUids(store, uid) != store.Keys
      ensures Reads(nodes, store, OtherUids(store, uid))
    {
      existed, nodes := false, map[];
      ghost var kept := {};
      var pending := store.Keys;
      while pending != {}
        invariant pending <= store.Keys
        invariant kept == OtherUids(store, uid) - pending
        invariant existed <==> exists k :: k in store && k !in pending && store[k].uid == uid
        invariant Reads(nodes, store, kept)
      {
        var k :| k in pending;
        pending := pending - {k};
        if store[k].uid == uid {
          existed := true;
        } else {
          ReadOne(nodes, store, kept, k);
          nodes := nodes[store[k].name := store[k].invokes];
          kept := kept + {k};
        }
      }
      assert kept == OtherUids(store, uid);
    }

    /** Replaces the action with the given UID. */
    method PutAction(uid: string, newAction: Action, readable: bool, writable: bool) returns (r: Response)
      modifies this
      ensures Next(old(store), Put(uid, newAction), store)
      ensures !r.Stored? ==> store == old(store)
      ensures r.Stored? ==> r.action == newAction && store == old(store)[uid := newAction]
      ensures newAction.uid != uid ==> r == BadRequest
      ensures newAction.uid == uid && !readable ==> r == ServerError
      ensures newAction.uid == uid && readable && OtherUids(old(store), uid) == old(store).Keys ==> r == NotFound
      ensures r.Stored? ==> writable
      ensures Valid(old(store)) && newAction.uid == uid && uid in old(store) && !NameTaken(old(store), uid, newAction.name) ==>
                (readable ==> Answers(old(store), newAction, writable, r))
    {
      if newAction.uid != uid {
        return BadRequest;
      }
      if !readable {
        return ServerError;
      }
      var existed, nodes := ScanForPut(uid);
      if !existed {
        return NotFound;
      }
      var looped, loop := Dag.CheckLoop(nodes[newAction.name := newAction.invokes]);
      if Valid(store) && !NameTaken(store, uid, newAction.name) {
        assert OtherUids(store, uid) == store.Keys - {uid};
        CheckedIsStored(store, nodes, OtherUids(store, uid), uid, newAction);
      }
      if looped {
        return Cycle(loop);
      }
      if !writable {
        return ServerError;
      }
      assert Passes(nodes, store, OtherUids(store, uid), newAction);
      store := store[uid := newAction];
      return Stored(newAction);
    }

    /** Removes an action; what other actions invoke is left alone. */
    method DelAction(uid: string, readable: bool, writable: bool) returns (r: Response)
      modifies this
      ensures Next(old(store), Del(uid), store)
      ensures r == if !readable then ServerError else if uid !in old(store) then NotFound
                   else if !writable then ServerError else Deleted
      ensures store == if r == Deleted then old(store) - {uid} else old(store)
    {
      if !readable {
        return ServerError;
      }
      if uid !in store {
        return NotFound;
      }
      if !writable {
        return ServerError;
      }
      store := store - {uid};
      return Deleted;
    }
  }
}
