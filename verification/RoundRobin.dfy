/** The round-robin scheduler (pkg/scheduler/RR/RRScheduler.go) and the node watch that feeds it. */
module RoundRobin {
  import opened GoIntegers
  import opened Quotients
  import opened Slices

  // ----- Membership -----

  function Added(names: seq<string>, u: string): seq<string> {
    if u in names then names else names + [u]
  }

  lemma AddedMembers(names: seq<string>, u: string)
    requires NoRepeats(names)
    ensures NoRepeats(Added(names, u))
    ensures forall x :: x in Added(names, u) <==> x in names || x == u
    ensures |Added(names, u)| == |names| + if u in names then 0 else 1
  {
  }

  lemma RemovedMembers(names: seq<string>, u: string)
    requires NoRepeats(names)
    ensures NoRepeats(RemoveFirst(names, u))
    ensures forall x :: x in RemoveFirst(names, u) <==> x in names && x != u
    ensures |RemoveFirst(names, u)| == |names| - if u in names then 1 else 0
  {
    RemoveFirstOfDistinct(names, u);
    SizeOfDistinct(names);
    SizeOfDistinct(RemoveFirst(names, u));
    assert Elements(RemoveFirst(names, u)) == Elements(names) - {u};
  }

  datatype Event = Put(uid: string, ready: Verdict) | Delete(uid: string)

  /** The readiness a status carries, or no status at all. */
  datatype Verdict = Ready | NotReady | NoStatus

  function Follow(names: seq<string>, e: Event): seq<string> {
    match e
    case Delete(u) => RemoveFirst(names, u)
    case Put(u, NotReady) => RemoveFirst(names, u)
    case Put(u, Ready) => Added(names, u)
    case Put(_, NoStatus) => names
  }

  function FollowAll(names: seq<string>, es: seq<Event>): seq<string> {
    if es == [] then names else Follow(FollowAll(names, es[..|es| - 1]), es[|es| - 1])
  }

  function AddAll(names: seq<string>, us: seq<string>): seq<string> {
    if us == [] then names else Added(AddAll(names, us[..|us| - 1]), us[|us| - 1])
  }

  predicate Speaks(e: Event, u: string) {
    e.uid == u && !(e.Put? && e.ready == NoStatus)
  }

  /** Whether u takes part once the events are over: the last event that says something about u decides. */
  ghost predicate LastWins(before: bool, es: seq<Event>, u: string) {
    if exists i :: IsLast(es, u, i)
    then exists i :: IsLast(es, u, i) && es[i].Put? && es[i].ready == Ready
    else before
  }

  ghost predicate IsLast(es: seq<Event>, u: string, i: int) {
    0 <= i < |es| && Speaks(es[i], u) && forall j :: i < j < |es| ==> !Speaks(es[j], u)
  }

  lemma LastWinsStep(before: bool, es: seq<Event>, e: Event, u: string)
    ensures LastWins(before, es + [e], u) <==>
            if Speaks(e, u) then e.Put? && e.ready == Ready else LastWins(before, es, u)
  {
    var more := es + [e];
    if Speaks(e, u) {
      assert IsLast(more, u, |es|);
    } else {
      forall i ensures IsLast(more, u, i) <==> IsLast(es, u, i) {
        if IsLast(more, u, i) {
          forall j | i < j < |es| ensures !Speaks(es[j], u) { assert more[j] == es[j]; }
        }
      }
      assert forall i :: IsLast(es, u, i) ==> more[i] == es[i];
    }
  }

  /** Membership after a watch session is a last-event-wins reading of the stream. */
  lemma {:induction false} MembershipIsLastWins(names: seq<string>, es: seq<Event>, u: string)
    requires NoRepeats(names)
    ensures NoRepeats(FollowAll(names, es))
    ensures u in FollowAll(names, es) <==> LastWins(u in names, es, u)
  {
    if es == [] {
      assert forall i :: !IsLast(es, u, i);
    } else {
      var front, e := es[..|es| - 1], es[|es| - 1];
      MembershipIsLastWins(names, front, u);
      LastWinsStep(u in names, front, e, u);
      assert front + [e] == es;
      AddedMembers(FollowAll(names, front), e.uid);
      RemovedMembers(FollowAll(names, front), e.uid);
    }
  }

  lemma {:induction false} AddAllMembers(names: seq<string>, us: seq<string>)
    requires NoRepeats(names)
    ensures NoRepeats(AddAll(names, us))
    ensures forall x :: x in AddAll(names, us) <==> x in names || x in us
  {
    if us != [] {
      var front, u := us[..|us| - 1], us[|us| - 1];
      AddAllMembers(names, front);
      AddedMembers(AddAll(names, front), u);
      assert us == front + [u];
    }
  }

  // ----- Picking -----

  datatype Choice = Node(uid: string) | NoNodes | IndexPanic

  function Pick(names: seq<string>, next: Int32): Choice {
    if names == [] then NoNodes else
    var i := Rem(next, |names|);
    if i < 0 then IndexPanic else Node(names[i])
  }

  /** The counter after k calls that found nodes. */
  function Counter(k: nat): Int32 {
    Wrap32(k)
  }

  lemma NextCounter(k: nat)
    ensures Wrap32(Counter(k) + 1) == Counter(k + 1)
  {
  }

  lemma WrapBack(next: Int32)
    ensures Wrap32(Wrap32(next + 1) - 1) == next
  {
  }

  /** Whose turn call number k is, among n nodes. */
  function Turn(k: nat, n: nat): (i: nat)
    requires n > 0
    ensures i < n
  {
    k % n
  }

  lemma EarlyPick(names: seq<string>, k: nat)
    requires names != [] && k < 0x8000_0000
    ensures Pick(names, Counter(k)) == Node(names[Turn(k, |names|)])
  {
  }

  /** The counter has turned negative, and is no multiple of n. */
  predicate NegativeIndex(k: nat, n: nat)
    requires n > 0
  {
    k % 0x1_0000_0000 >= 0x8000_0000 && (0x1_0000_0000 - k % 0x1_0000_0000) % n != 0
  }

  /** Call number k panics exactly when the counter has turned negative and is no multiple of the node count. */
  lemma PanicIff(names: seq<string>, k: nat)
    requires names != []
    ensures Pick(names, Counter(k)) == IndexPanic <==> NegativeIndex(k, |names|)
  {
  }

  lemma EarlyIsNode(names: seq<string>, k: nat)
    requires names != []
    ensures k < 0x8000_0000 ==> Pick(names, Counter(k)).Node?
  {
    if k < 0x8000_0000 { EarlyPick(names, k); }
  }

  /** The nodes picked by the m calls from number k on, with the membership fixed. */
  function Picks(names: seq<string>, k: nat, m: nat): seq<Choice> {
    if m == 0 then [] else Picks(names, k, m - 1) + [Pick(names, Counter(k + m - 1))]
  }

  /** How many of the first t calls have remainder i. */
  function Before(t: nat, i: nat, n: nat): nat
    requires n > 0
  {
    t / n + if i < t % n then 1 else 0
  }

  lemma BeforeNext(t: nat, i: nat, n: nat)
    requires i < n
    ensures Before(t + 1, i, n) == Before(t, i, n) + if Turn(t, n) == i then 1 else 0
  {
    var q, r := t / n, t % n;
    assert t == n * q + r;
    if r + 1 < n {
      QuotientIs(t + 1, n, q, r + 1);
    } else {
      assert t + 1 == n * (q + 1) by { assert n * (q + 1) == n * q + n; }
      QuotientIs(t + 1, n, q + 1, 0);
    }
  }

  lemma {:induction false} PicksCount(names: seq<string>, k: nat, m: nat, i: nat)
    requires NoRepeats(names) && i < |names| && k + m <= 0x8000_0000
    ensures multiset(Picks(names, k, m))[Node(names[i])] == Before(k + m, i, |names|) - Before(k, i, |names|)
  {
    hide Before, Pick, Counter, Turn;
    if m > 0 {
      var t := k + m - 1;
      PicksCount(names, k, m - 1, i);
      BeforeNext(t, i, |names|);
      EarlyPick(names, t);
      assert names[Turn(t, |names|)] == names[i] <==> Turn(t, |names|) == i;
    }
  }

  lemma QuotientOfSum(k: nat, m: nat, n: nat)
    requires n > 0
    ensures
      var carry := if k % n + m % n < n then 0 else 1;
      (k + m) / n == k / n + m / n + carry && (k + m) % n == k % n + m % n - carry * n
  {
    var a, b := k / n, m / n;
    var carry := if k % n + m % n < n then 0 else 1;
    assert k == n * a + k % n && m == n * b + m % n;
    assert n * (a + b + carry) == n * a + n * b + n * carry;
    QuotientIs(k + m, n, a + b + carry, k % n + m % n - carry * n);
  }

  lemma WindowShare(k: nat, m: nat, i: nat, n: nat)
    requires i < n
    ensures m / n <= Before(k + m, i, n) - Before(k, i, n) <= m / n + 1
    ensures m % n == 0 ==> Before(k + m, i, n) - Before(k, i, n) == m / n
  {
    QuotientOfSum(k, m, n);
  }

  /** Any m calls in a row among the first 2^31 give each of n nodes m/n turns, rounded up or down. */
  lemma FairWindow(names: seq<string>, k: nat, m: nat, u: string)
    requires NoRepeats(names) && u in names && k + m <= 0x8000_0000
    ensures m / |names| <= multiset(Picks(names, k, m))[Node(u)] <= m / |names| + 1
    ensures m % |names| == 0 ==> multiset(Picks(names, k, m))[Node(u)] == m / |names|
  {
    var i :| 0 <= i < |names| && names[i] == u;
    PicksCount(names, k, m, i);
    WindowShare(k, m, i, |names|);
  }

  // ----- Runs of calls and membership changes -----

  datatype State = State(num: Int32, names: seq<string>, next: Int32)

  datatype Op = AddOp(uid: string) | RemoveOp(uid: string) | Call

  /** What the scheduler keeps between operations; both counters wrap around. */
  predicate Good(s: State, calls: nat) {
    NoRepeats(s.names) && s.num == Wrap32(|s.names|) && s.next == Counter(calls)
  }

  function Apply(s: State, op: Op): State {
    match op
    case AddOp(u) =>
      if u in s.names then s else State(Wrap32(s.num + 1), s.names + [u], s.next)
    case RemoveOp(u) =>
      if s.num == 0 || u !in s.names then s else State(Wrap32(s.num - 1), RemoveFirst(s.names, u), s.next)
    case Call =>
      if s.num == 0 then s else s.(next := Wrap32(s.next + 1))
  }

  function Run(s: State, ops: seq<Op>): State {
    if ops == [] then s else Apply(Run(s, ops[..|ops| - 1]), ops[|ops| - 1])
  }

  /** The calls in ops that find a node. */
  function Calls(s: State, ops: seq<Op>): nat {
    if ops == [] then 0 else
    var front := ops[..|ops| - 1];
    Calls(s, front) + if ops[|ops| - 1].Call? && Run(s, front).num != 0 then 1 else 0
  }

  lemma WrapTwice(n: int, d: int)
    ensures Wrap32(Wrap32(n) + d) == Wrap32(n + d)
  {
  }

  lemma OpKeepsGood(s: State, op: Op, calls: nat)
    requires Good(s, calls)
    ensures Good(Apply(s, op), calls + if op.Call? && s.num != 0 then 1 else 0)
  {
    NextCounter(calls);
    WrapTwice(|s.names|, 1);
    WrapTwice(|s.names|, -1);
    hide Counter, Wrap32;
    match op
    case AddOp(u) => AddedMembers(s.names, u);
    case RemoveOp(u) => RemovedMembers(s.names, u);
    case Call =>
  }

  lemma {:induction false} RunIsGood(s: State, ops: seq<Op>)
    requires Good(s, 0)
    ensures Good(Run(s, ops), Calls(s, ops))
  {
    if ops != [] {
      var front := ops[..|ops| - 1];
      hide Good, Apply;
      RunIsGood(s, front);
      OpKeepsGood(Run(s, front), ops[|ops| - 1], Calls(s, front));
    }
  }

  lemma SmallWrap(n: nat)
    ensures n < 0x8000_0000 ==> Wrap32(n) == n
  {
  }

  /** With fewer than 2^31 nodes: the node count is right, and when the next call panics. */
  ghost predicate Promises(s: State, calls: nat) {
    && NoRepeats(s.names) && s.num == |s.names|
    && (s.names != [] ==> (Pick(s.names, s.next) == IndexPanic <==> NegativeIndex(calls, |s.names|)))
    && (s.names != [] && calls < 0x8000_0000 ==> Pick(s.names, s.next).Node?)
  }

  lemma GoodPromises(s: State, calls: nat)
    requires Good(s, calls) && |s.names| < 0x8000_0000
    ensures Promises(s, calls)
  {
    SmallWrap(|s.names|);
    hide Pick, Counter, Wrap32, NegativeIndex;
    if s.names != [] {
      PanicIff(s.names, calls);
      EarlyIsNode(s.names, calls);
    }
  }

  /**
    In runs of any length, whenever there are fewer than 2^31 nodes: the list has no repeats and its
    length is the node count, and the next call panics exactly when the counter has turned negative
    and is no multiple of that count; the first 2^31 calls find a node.
   */
  lemma RunKeepsGood(s: State, ops: seq<Op>)
    requires Good(s, 0) && |Run(s, ops).names| < 0x8000_0000
    ensures Promises(Run(s, ops), Calls(s, ops))
  {
    hide Good, Run, Calls, Promises;
    RunIsGood(s, ops);
    GoodPromises(Run(s, ops), Calls(s, ops));
  }

  // ----- The scheduler object -----

  class SchedulerRR {
    var numOfNodes: Int32
    var nameOfNodes: seq<string>
    var next: Int32

    ghost predicate Valid()
      reads this
    {
      NoRepeats(nameOfNodes) && numOfNodes == |nameOfNodes|
    }

    ghost function Abs(): State
      reads this
    {
      State(numOfNodes, nameOfNodes, next)
    }

    /** The nodes that are ready. */
    constructor (nodes: seq<(string, bool)>)
      requires |nodes| < 0x8000_0000
      requires forall i, j :: 0 <= i < j < |nodes| ==> nodes[i].0 != nodes[j].0
      ensures Valid() && next == 0
      ensures forall u :: u in nameOfNodes <==> (u, true) in nodes
    {
      numOfNodes, nameOfNodes, next := 0, [], 0;
      new;
      for k := 0 to |nodes|
        invariant Valid() && next == 0 && |nameOfNodes| <= k
        invariant forall u :: u in nameOfNodes <==> (u, true) in nodes[..k]
      {
        assert nodes[..k + 1] == nodes[..k] + [nodes[k]];
        if nodes[k].1 {
          assert nodes[k].0 !in nameOfNodes;
          nameOfNodes := nameOfNodes + [nodes[k].0];
          numOfNodes := Wrap32(numOfNodes + 1);
        }
      }
      assert nodes[..|nodes|] == nodes;
    }

    method AddNode(u: string)
      requires Valid() && |nameOfNodes| < 0x7fff_ffff
      modifies this`numOfNodes, this`nameOfNodes
      ensures Valid() && nameOfNodes == Added(old(nameOfNodes), u)
      ensures Abs() == Apply(old(Abs()), AddOp(u))
    {
      for k := 0 to |nameOfNodes|
        invariant u !in nameOfNodes[..k]
      {
        if nameOfNodes[k] == u {
          return;
        }
      }
      assert nameOfNodes[..|nameOfNodes|] == nameOfNodes;
      numOfNodes := Wrap32(numOfNodes + 1);
      nameOfNodes := nameOfNodes + [u];
    }

    method RemoveNode(u: string)
      requires Valid()
      modifies this`numOfNodes, this`nameOfNodes
      ensures Valid() && nameOfNodes == RemoveFirst(old(nameOfNodes), u)
      ensures Abs() == Apply(old(Abs()), RemoveOp(u))
    {
      RemovedMembers(nameOfNodes, u);
      if numOfNodes == 0 {
        return;
      }
      for k := 0 to |nameOfNodes|
        invariant nameOfNodes == old(nameOfNodes) && numOfNodes == old(numOfNodes)
        invariant u !in nameOfNodes[..k]
      {
        if nameOfNodes[k] == u {
          SpliceIsRemoveFirst(nameOfNodes, k);
          nameOfNodes := nameOfNodes[..k] + nameOfNodes[k + 1..];
          numOfNodes := Wrap32(numOfNodes - 1);
          return;
        }
      }
      assert nameOfNodes[..|nameOfNodes|] == nameOfNodes;
      AbsentIsNotRemoved(nameOfNodes, u);
    }

    method Schedule() returns (c: Choice)
      requires Valid()
      modifies this`next
      ensures Abs() == Apply(old(Abs()), Call)
      ensures c == Pick(nameOfNodes, old(next))
    {
      if numOfNodes == 0 {
        return NoNodes;
      }
      next := Wrap32(next + 1);
      var n: int := next;
      WrapBack(old(next));
      var i := Rem(Wrap32(n - 1), numOfNodes);
      c := if i < 0 then IndexPanic else Node(nameOfNodes[i]);
    }

    /** One watch session: every listed node is added, ready or not, then the events are followed. */
    method TryWatchNode(listed: seq<string>, events: seq<Event>)
      requires Valid() && |nameOfNodes| + |listed| + |events| < 0x7fff_ffff
      modifies this`numOfNodes, this`nameOfNodes
      ensures Valid() && nameOfNodes == FollowAll(AddAll(old(nameOfNodes), listed), events)
      ensures forall u :: u in nameOfNodes <==> LastWins(u in old(nameOfNodes) || u in listed, events, u)
    {
      for k := 0 to |listed|
        invariant Valid() && |nameOfNodes| <= |old(nameOfNodes)| + k
        invariant nameOfNodes == AddAll(old(nameOfNodes), listed[..k])
      {
        assert listed[..k + 1][..k] == listed[..k];
        AddNode(listed[k]);
      }
      assert listed[..|listed|] == listed;
      ghost var base := nameOfNodes;
      AddAllMembers(old(nameOfNodes), listed);
      for k := 0 to |events|
        invariant Valid() && |nameOfNodes| <= |base| + k
        invariant nameOfNodes == FollowAll(base, events[..k])
      {
        assert events[..k + 1][..k] == events[..k];
        RemovedMembers(nameOfNodes, events[k].uid);
        match events[k] {
          case Put(u, NoStatus) =>
          case Put(u, NotReady) => RemoveNode(u);
          case Put(u, Ready) => AddNode(u);
          case Delete(u) => RemoveNode(u);
        }
      }
      assert events[..|events|] == events;
      forall u ensures u in nameOfNodes <==> LastWins(u in old(nameOfNodes) || u in listed, events, u) {
        MembershipIsLastWins(base, events, u);
      }
    }
  }
}
