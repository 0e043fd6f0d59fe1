/**
  The allocator of service addresses (pkg/cubenetwork/servicenetwork). The search loop of
  AllocateClusterIP may never end, so its outcome is given for every number of rounds watched.
 */
module ClusterIP {
  import opened Addresses

  type Marks = map<Word, bool>

  datatype Allocator = Allocator(mp: Marks, next: Word, net: Net)

  datatype Outcome =
    | Kept(ip: IP)          // the requested address
    | Assigned(ip: IP)
    | OutOfRange            // log.Fatal
    | StillLooping

  /** What ParseIP returns: nil, or an address in one of its forms. */
  predicate IsParsed(ip: IP) {
    |ip| == 0 || |ip| == 4 || |ip| == 16
  }

  predicate Taken(mp: Marks, n: int) {
    0 <= n < WORD && n in mp && mp[n]
  }

  predicate Usable(a: Allocator, ip: IP)
    requires IsNet(a.net)
  {
    Contains(a.net, ip) && !Taken(a.mp, Ip2int(ip))
  }

  function Succ(n: Word): Word {
    (n + 1) % 0x1_0000_0000
  }

  function Advance(n: Word, steps: nat): Word {
    (n + steps) % 0x1_0000_0000
  }

  /** The allocator and the outcome after `steps` rounds of the search loop as written. */
  function Allocate(a: Allocator, ip: IP, steps: nat): (Allocator, Outcome)
    requires IsNet(a.net)
  {
    if Usable(a, ip) then
      (a.(mp := a.mp[Ip2int(ip) := true]), Kept(ip))
    else if steps == 0 then
      (a, StillLooping)
    else if !Contains(a.net, Int2ip(a.next)) then
      (a.(next := Succ(a.next)), OutOfRange)
    else if !Taken(a.mp, a.next) then
      (a.(mp := a.mp[a.next := true], next := Succ(a.next)), Assigned(Int2ip(a.next)))
    else
      (a.(next := Advance(a.next, steps)), StillLooping)
  }

  predicate Served(o: Outcome) {
    o.Kept? || o.Assigned?
  }

  /** As written, a call returns exactly when the request is usable or the address at nextIP is free and in range. */
  lemma ReturnsIff(a: Allocator, ip: IP)
    requires IsNet(a.net)
    ensures (exists steps: nat :: Served(Allocate(a, ip, steps).1)) <==>
            Usable(a, ip) || (InRange(a.net, a.next) && !Taken(a.mp, a.next))
  {
    ContainsNumber(a.net, a.next);
    if Usable(a, ip) || (InRange(a.net, a.next) && !Taken(a.mp, a.next)) {
      assert Served(Allocate(a, ip, 1).1);
    }
  }

  /** It runs forever exactly when the address at nextIP is in range and taken. */
  lemma SpinsIff(a: Allocator, ip: IP)
    requires IsNet(a.net)
    ensures (forall steps: nat :: Allocate(a, ip, steps).1 == StillLooping) <==>
            !Usable(a, ip) && InRange(a.net, a.next) && Taken(a.mp, a.next)
  {
    ContainsNumber(a.net, a.next);
    if forall steps: nat :: Allocate(a, ip, steps).1 == StillLooping {
      assert Allocate(a, ip, 1).1 == StillLooping;
    }
  }

  lemma SameAddress(ip: IP, n: Word)
    requires To4(ip) != []
    ensures Ip2int(ip) == n <==> To4(ip) == Int2ip(n)
    ensures Ip2int(To4(ip)) == Ip2int(ip)
  {
    NumberRoundTrip(n);
    FormsAgree(ip, Int2ip(n));
    FormsAgree(ip, To4(ip));
  }

  /** A requested address is given exactly if it lies in the range and is free; only an address given is marked. */
  lemma RequestIsHonoured(a: Allocator, ip: IP, steps: nat)
    requires IsNet(a.net)
    ensures
      var (b, o) := Allocate(a, ip, steps);
      && (o.Kept? <==> To4(ip) != [] && InRange(a.net, Ip2int(To4(ip))) && !Taken(a.mp, Ip2int(To4(ip))))
      && (o.Kept? ==> o.ip == ip)
      && (o.Assigned? ==> o.ip == Int2ip(a.next))
      && forall n: Word :: Taken(b.mp, n) <==> Taken(a.mp, n) || (Served(o) && To4(o.ip) == Int2ip(n))
  {
    ContainsIsRange(a.net, ip);
    forall n: Word
      ensures To4(ip) != [] ==> (Ip2int(ip) == n <==> To4(ip) == Int2ip(n)) && Ip2int(To4(ip)) == Ip2int(ip)
      ensures n == a.next <==> To4(Int2ip(a.next)) == Int2ip(n)
    {
      NumberRoundTrip(n);
      NumberRoundTrip(a.next);
      if To4(ip) != [] { SameAddress(ip, n); }
    }
    assert To4(ip) != [] ==> Ip2int(To4(ip)) == Ip2int(ip) by {
      if To4(ip) != [] { SameAddress(ip, 0); }
    }
    hide Contains, Ip2int, Int2ip, To4, InRange;
  }

  // ----- Automatic allocations in a row -----

  /** The allocator after k calls without a request, or none if some call does not return. */
  datatype Attempt = Went(a: Allocator, given: seq<Word>) | Stuck

  function AutoAllocate(a: Allocator, k: nat): (r: Attempt)
    requires IsNet(a.net)
    ensures r.Went? ==> r.a.net == a.net
  {
    if k == 0 then Went(a, []) else
    match AutoAllocate(a, k - 1)
    case Stuck => Stuck
    case Went(b, given) =>
      var (c, o) := Allocate(b, [], 1);
      if o.Assigned? then Went(c, given + [Ip2int(o.ip)]) else Stuck
  }

  predicate Free(a: Allocator, n: Word)
    requires IsNet(a.net)
  {
    InRange(a.net, n) && !Taken(a.mp, n)
  }

  /** The k addresses from nextIP on, which go on with 0 after the last 32-bit number. */
  predicate AllFree(a: Allocator, k: nat)
    requires IsNet(a.net)
  {
    k <= WORD && forall j: nat :: j < k ==> Free(a, Advance(a.next, j))
  }

  predicate Ahead(a: Allocator, n: Word, k: nat) {
    exists j: nat :: j < k && n == Advance(a.next, j)
  }

  /** k calls took exactly the k addresses from nextIP on, in order. */
  predicate TookNext(a: Allocator, k: nat, r: Attempt)
    requires r.Went?
  {
    && |r.given| == k && (forall j: nat :: j < k ==> r.given[j] == Advance(a.next, j))
    && r.a.next == Advance(a.next, k) && r.a.net == a.net
    && forall n: Word :: Taken(r.a.mp, n) <==> Taken(a.mp, n) || Ahead(a, n, k)
  }

  function TakeNext(a: Allocator): Allocator {
    a.(mp := a.mp[a.next := true], next := Succ(a.next))
  }

  lemma AutoOne(a: Allocator)
    requires IsNet(a.net)
    ensures
      var (b, o) := Allocate(a, [], 1);
      (o.Assigned? <==> InRange(a.net, a.next) && !Taken(a.mp, a.next))
      && (o.Assigned? ==> b == TakeNext(a) && |o.ip| == 4 && Ip2int(o.ip) == a.next)
  {
    hide Contains, Ip2int, Int2ip, InRange;
    ContainsNumber(a.net, a.next);
    NumberRoundTrip(a.next);
  }

  lemma AdvanceOnce(n: Word, k: nat)
    ensures Advance(n, k) == (n + k) % WORD
    ensures Succ(Advance(n, k)) == Advance(n, k + 1)
  {
  }

  /** Addresses ahead differ until the numbers have gone around once. */
  lemma AheadOnce(a: Allocator, k: nat)
    requires k <= WORD
    ensures Ahead(a, Advance(a.next, k), k) <==> k == WORD
  {
    if k == WORD {
      assert Advance(a.next, 0) == Advance(a.next, k);
    }
  }

  lemma AheadStep(a: Allocator, n: Word, k: nat)
    ensures Ahead(a, n, k + 1) <==> Ahead(a, n, k) || n == Advance(a.next, k)
  {
    hide Advance;
  }

  lemma AutoStep(a: Allocator, k: nat, r: Attempt)
    requires IsNet(a.net) && AllFree(a, k) && r.Went? && TookNext(a, k, r) && r == AutoAllocate(a, k)
    ensures AutoAllocate(a, k + 1).Went? <==> AllFree(a, k + 1)
    ensures AllFree(a, k + 1) ==> TookNext(a, k + 1, AutoAllocate(a, k + 1))
  {
    hide Contains, Ip2int, Int2ip, InRange, Allocate;
    var n := Advance(a.next, k);
    AutoOne(r.a);
    AdvanceOnce(a.next, k);
    AheadOnce(a, k);
    hide Advance, Succ, Ahead;
    assert AllFree(a, k + 1) <==> Free(a, n) && k < WORD;
    if AllFree(a, k + 1) {
      var q := AutoAllocate(a, k + 1);
      assert q == Went(TakeNext(r.a), r.given + [n]);
      forall m: Word ensures Taken(q.a.mp, m) <==> Taken(a.mp, m) || Ahead(a, m, k + 1) {
        AheadStep(a, m, k);
      }
      assert forall j: nat :: j < k + 1 ==> q.given[j] == (if j < k then r.given[j] else n);
      assert q.a.next == Succ(r.a.next);
    }
  }

  /** They all return exactly when the k addresses from nextIP on are free and different, and then hand out those. */
  lemma {:induction false} InARow(a: Allocator, k: nat)
    requires IsNet(a.net)
    ensures AutoAllocate(a, k).Went? <==> AllFree(a, k)
    ensures AllFree(a, k) ==> TookNext(a, k, AutoAllocate(a, k))
  {
    hide Contains, Ip2int, Int2ip, InRange, Advance;
    if k == 0 {
      AdvanceNone(a.next);
    } else {
      InARow(a, k - 1);
      if AllFree(a, k - 1) {
        AutoStep(a, k - 1, AutoAllocate(a, k - 1));
      }
    }
  }

  lemma AdvanceNone(n: Word)
    ensures Advance(n, 0) == n
  {
  }

  // ----- Runs: services come with fresh identifiers and give back their own address -----

  type Holders = map<string, IP>

  datatype World = World(a: Allocator, live: Holders)

  datatype Op = Create(uid: string, ip: IP) | Release(uid: string)

  ghost predicate Held(live: Holders, n: int) {
    exists u :: u in live && IsParsed(live[u]) && live[u] != [] && Ip2int(live[u]) == n
  }

  ghost predicate Good(w: World) {
    && IsNet(w.a.net)
    && (forall u :: u in w.live ==> IsParsed(w.live[u]) && Contains(w.a.net, w.live[u]))
    && (forall u, v :: u in w.live && v in w.live && u != v ==> To4(w.live[u]) != To4(w.live[v]))
    && (forall n: Word :: Taken(w.a.mp, n) <==> Held(w.live, n))
  }

  predicate Allowed(w: World, op: Op) {
    match op
    case Create(u, ip) => u !in w.live && IsParsed(ip)
    case Release(u) => u in w.live && IsParsed(w.live[u]) && w.live[u] != []
  }

  /** A step that returns. */
  ghost predicate Next(w: World, op: Op, w': World) {
    IsNet(w.a.net) && Allowed(w, op) &&
    match op
    case Create(u, ip) =>
      (exists steps: nat ::
         var (b, o) := Allocate(w.a, ip, steps);
         Served(o) && w' == World(b, w.live[u := o.ip]))
    case Release(u) =>
      w' == World(w.a.(mp := w.a.mp[Ip2int(w.live[u]) := false]), w.live - {u})
  }

  ghost predicate Run(states: seq<World>, ops: seq<Op>) {
    && |states| == |ops| + 1 && Good(states[0])
    && forall i :: 0 <= i < |ops| ==> Next(states[i], ops[i], states[i + 1])
  }

  lemma HeldAdd(live: Holders, u: string, ip: IP, n: int)
    requires u !in live && IsParsed(ip) && ip != []
    ensures Held(live[u := ip], n) <==> Held(live, n) || Ip2int(ip) == n
  {
    var more := live[u := ip];
    assert more[u] == ip;
    if Held(live, n) {
      var v :| v in live && IsParsed(live[v]) && live[v] != [] && Ip2int(live[v]) == n;
      assert v in more && more[v] == live[v];
    }
  }

  lemma HeldBy(w: World, u: string, n: int)
    requires Good(w) && u in w.live
    ensures Held(w.live, n) && n != Ip2int(w.live[u]) <==> Held(w.live - {u}, n)
  {
    var rest := w.live - {u};
    if Held(w.live, n) && n != Ip2int(w.live[u]) {
      var v :| v in w.live && IsParsed(w.live[v]) && w.live[v] != [] && Ip2int(w.live[v]) == n;
      assert v in rest && rest[v] == w.live[v];
    }
    if Held(rest, n) {
      var v :| v in rest && IsParsed(rest[v]) && rest[v] != [] && Ip2int(rest[v]) == n;
      FormsAgree(w.live[u], w.live[v]);
    }
  }

  lemma TakeKeepsGood(w: World, u: string, ip: IP, next: Word)
    requires Good(w) && u !in w.live && IsParsed(ip) && Contains(w.a.net, ip)
    requires !Taken(w.a.mp, Ip2int(ip))
    ensures Good(World(w.a.(mp := w.a.mp[Ip2int(ip) := true], next := next), w.live[u := ip]))
  {
    hide Contains, To4, Ip2int;
    ContainsIsRange(w.a.net, ip);
    forall v | v in w.live ensures To4(w.live[v]) != To4(ip) {
      assert Held(w.live, Ip2int(w.live[v]));
      ContainsIsRange(w.a.net, w.live[v]);
      FormsAgree(w.live[v], ip);
    }
    hide InRange;
    var mp := w.a.mp[Ip2int(ip) := true];
    forall n: Word ensures Taken(mp, n) <==> Held(w.live[u := ip], n) {
      HeldAdd(w.live, u, ip, n);
    }
  }

  lemma NextKeepsGood(w: World, op: Op, w': World)
    requires Good(w) && Next(w, op, w')
    ensures Good(w')
  {
    match op
    case Create(u, ip) =>
      var steps: nat :| var (b, o) := Allocate(w.a, ip, steps); Served(o) && w' == World(b, w.live[u := o.ip]);
      if Usable(w.a, ip) {
        TakeKeepsGood(w, u, ip, w.a.next);
      } else {
        NumberRoundTrip(w.a.next);
        TakeKeepsGood(w, u, Int2ip(w.a.next), Succ(w.a.next));
      }
    case Release(u) =>
      ReleaseIff(w, u, w.live[u]);
  }

  /** Giving back an address for a removed service is safe exactly when it has the number of its own. */
  lemma ReleaseIff(w: World, u: string, ip: IP)
    requires Good(w) && u in w.live && IsParsed(ip) && ip != []
    ensures Good(World(w.a.(mp := w.a.mp[Ip2int(ip) := false]), w.live - {u})) <==> Ip2int(ip) == Ip2int(w.live[u])
  {
    var after := World(w.a.(mp := w.a.mp[Ip2int(ip) := false]), w.live - {u});
    var own := Ip2int(w.live[u]);
    assert Held(w.live, own);
    hide Contains, Ip2int, To4;
    HeldBy(w, u, own);
    if Ip2int(ip) == own {
      forall n: Word ensures Taken(after.a.mp, n) <==> Held(after.live, n) {
        HeldBy(w, u, n);
      }
    } else {
      assert Taken(after.a.mp, own);
    }
  }

  lemma NextKeepsNet(w: World, op: Op, w': World)
    requires Next(w, op, w')
    ensures w'.a.net == w.a.net
  {
    hide Contains, To4, Ip2int, Int2ip;
  }

  lemma GoodIsSafe(w: World)
    requires Good(w)
    ensures forall u :: u in w.live ==> To4(w.live[u]) != [] && InRange(w.a.net, Ip2int(To4(w.live[u])))
    ensures forall u, v :: u in w.live && v in w.live && u != v ==> Ip2int(w.live[u]) != Ip2int(w.live[v])
  {
    forall u | u in w.live ensures To4(w.live[u]) != [] && InRange(w.a.net, Ip2int(To4(w.live[u]))) {
      ContainsIsRange(w.a.net, w.live[u]);
    }
    forall u, v | u in w.live && v in w.live && u != v ensures Ip2int(w.live[u]) != Ip2int(w.live[v]) {
      FormsAgree(w.live[u], w.live[v]);
    }
  }

  lemma {:induction false} RunIsGood(states: seq<World>, ops: seq<Op>, n: nat)
    requires Run(states, ops) && n <= |ops|
    ensures Good(states[n]) && states[n].a.net == states[0].a.net
  {
    if n > 0 {
      RunIsGood(states, ops, n - 1);
      hide Good;
      NextKeepsNet(states[n - 1], ops[n - 1], states[n]);
      NextKeepsGood(states[n - 1], ops[n - 1], states[n]);
    }
  }

  /** In every run, live services hold different addresses, all of them in the range. */
  lemma RunIsSafe(states: seq<World>, ops: seq<Op>, n: nat)
    requires Run(states, ops) && n <= |ops|
    ensures
      var w := states[n];
      && IsNet(w.a.net) && w.a.net == states[0].a.net
      && (forall u :: u in w.live ==> To4(w.live[u]) != [] && InRange(w.a.net, Ip2int(To4(w.live[u]))))
      && (forall u, v :: u in w.live && v in w.live && u != v ==> To4(w.live[u]) != To4(w.live[v]))
      && (forall k: Word :: Taken(w.a.mp, k) <==> Held(w.live, k))
  {
    RunIsGood(states, ops, n);
    GoodIsSafe(states[n]);
  }

  /** The address at nextIP is requested; the next call without a request never returns. */
  lemma RequestingNextSpins(a: Allocator, steps: nat)
    requires IsNet(a.net) && InRange(a.net, a.next) && !Taken(a.mp, a.next)
    ensures
      var (b, o) := Allocate(a, To16(Int2ip(a.next)), 0);
      o == Kept(To16(Int2ip(a.next))) && Allocate(b, [], steps).1 == StillLooping
  {
    var ip := To16(Int2ip(a.next));
    NumberRoundTrip(a.next);
    assert To4(ip) == Int2ip(a.next);
    ContainsIsRange(a.net, ip);
    ContainsNumber(a.net, a.next);
  }

  // ----- Start-up -----

  function Marked(stored: seq<IP>): Marks
    requires forall i :: 0 <= i < |stored| ==> IsParsed(stored[i])
  {
    if stored == [] then map[] else
    var last := stored[|stored| - 1];
    assert IsParsed(last);
    var m := Marked(stored[..|stored| - 1]);
    if |last| == 0 then m else m[Ip2int(last) := true]
  }

  lemma {:induction false} MarkedAreStored(stored: seq<IP>, n: Word)
    requires forall i :: 0 <= i < |stored| ==> IsParsed(stored[i])
    ensures Taken(Marked(stored), n) <==> exists i :: 0 <= i < |stored| && stored[i] != [] && Ip2int(stored[i]) == n
  {
    if stored != [] {
      var k := |stored| - 1;
      MarkedAreStored(stored[..k], n);
      assert forall i :: 0 <= i < k ==> stored[..k][i] == stored[i];
    }
  }

  /** Start-up from stored services with different addresses in the range. */
  lemma StartIsGood(net: Net, next: Word, stored: seq<IP>, live: Holders)
    requires IsNet(net) && forall i :: 0 <= i < |stored| ==> IsParsed(stored[i])
    requires forall u :: u in live ==> live[u] in stored && Contains(net, live[u])
    requires forall i :: 0 <= i < |stored| && stored[i] != [] ==> exists u :: u in live && live[u] == stored[i]
    requires forall u, v :: u in live && v in live && u != v ==> To4(live[u]) != To4(live[v])
    ensures Good(World(Allocator(Marked(stored), next, net), live))
  {
    forall n: Word ensures Taken(Marked(stored), n) <==> Held(live, n) {
      MarkedAreStored(stored, n);
      if Held(live, n) {
        var u :| u in live && IsParsed(live[u]) && live[u] != [] && Ip2int(live[u]) == n;
        var i :| 0 <= i < |stored| && stored[i] == live[u];
        assert Taken(Marked(stored), n);
      }
    }
  }

  // ----- The search, repaired -----

  predicate Blocked(a: Allocator, n: Word)
    requires IsNet(a.net)
  {
    InRange(a.net, n) && Taken(a.mp, n)
  }

  /** The j-th address from nextIP on is the first that is free or out of range. */
  ghost predicate Stops(a: Allocator, j: nat)
    requires IsNet(a.net)
  {
    !Blocked(a, Advance(a.next, j)) && forall i: nat :: i < j ==> Blocked(a, Advance(a.next, i))
  }

  /** n is the lowest free address at or above nextIP; or there is none there, and n is the lowest of all. */
  ghost predicate IsFirstFree(a: Allocator, n: Word)
    requires IsNet(a.net)
  {
    Free(a, n) &&
    if a.next <= n then forall m: Word :: a.next <= m < n ==> Taken(a.mp, m)
    else forall m: Word :: a.next <= m || m < n ==> Taken(a.mp, m)
  }

  /** nextIP is past the range, or from there on every address of the range is taken. */
  ghost predicate NoneFree(a: Allocator)
    requires IsNet(a.net)
  {
    InRange(a.net, a.next) ==> forall m: Word :: a.next <= m && InRange(a.net, m) ==> Taken(a.mp, m)
  }

  lemma Distance(from: Word, to: Word) returns (j: nat)
    ensures j < WORD && Advance(from, j) == to
    ensures j == if from <= to then to - from else to + WORD - from
  {
    j := if from <= to then to - from else to + WORD - from;
  }

  /** Where the search stops, as an address. */
  lemma StopMeans(a: Allocator, j: nat)
    requires IsNet(a.net) && Stops(a, j)
    ensures
      var n := Advance(a.next, j);
      if InRange(a.net, n) then IsFirstFree(a, n) else NoneFree(a)
  {
    var n := Advance(a.next, j);
    var d := Distance(a.next, n);
    StopsEarly(a, j, d);
    forall m: Word | (if a.next <= n then a.next <= m < n else a.next <= m || m < n)
      ensures InRange(a.net, m) && Taken(a.mp, m)
    {
      var i := Distance(a.next, m);
      assert i < j && Blocked(a, Advance(a.next, i));
    }
  }

  lemma AdvanceApart(n: Word, i: nat, j: nat)
    ensures i < j < WORD ==> Advance(n, i) != Advance(n, j)
  {
  }

  /** Going around once more meets the same addresses. */
  lemma StopsEarly(a: Allocator, j: nat, d: nat)
    requires IsNet(a.net) && Stops(a, j) && d < WORD && Advance(a.next, d) == Advance(a.next, j)
    ensures d == j
  {
    AdvanceApart(a.next, j, d);
    hide Advance, Blocked;
  }

  /** The first j addresses from nextIP on are in range and taken. */
  ghost predicate Passed(a: Allocator, j: nat)
    requires IsNet(a.net)
  {
    forall i: nat :: i < j ==> Blocked(a, Advance(a.next, i))
  }

  lemma PassedNext(a: Allocator, j: nat, stop: nat)
    requires IsNet(a.net) && Passed(a, j) && j <= stop && !Blocked(a, Advance(a.next, stop))
    ensures if Blocked(a, Advance(a.next, j)) then Passed(a, j + 1) && j < stop else Stops(a, j)
  {
    hide Blocked, Advance;
  }

  /** The search ends if the range is not the whole address space, or some address is free. */
  lemma SomeStop(a: Allocator) returns (stop: nat)
    requires IsNet(a.net) && (a.net.prefix > 0 || exists n: Word :: !Taken(a.mp, n))
    ensures !Blocked(a, Advance(a.next, stop))
  {
    var goal: Word;
    if a.net.prefix > 0 {
      goal := SomeOutside(a.net);
    } else {
      goal :| !Taken(a.mp, goal);
    }
    stop := Distance(a.next, goal);
  }

  /** A range that is not the whole address space has an address outside. */
  lemma SomeOutside(net: Net) returns (n: Word)
    requires IsNet(net) && net.prefix > 0
    ensures !InRange(net, n)
  {
    RangeFits(net);
    WordIsPow2();
    assert Pow2(32) == 2 * Pow2(31);
    Pow2AtMost(32 - net.prefix, 31);
    n := if Lowest(net) > 0 then 0 else Size(net);
  }

  // ----- The search as written -----

  /** The search loop of a call that began at a has gone through `rounds` rounds without leaving the range. */
  ghost predicate Searched(a: Allocator, rounds: nat, done: bool, b: Allocator)
    requires IsNet(a.net)
  {
    if done then rounds == 1 && Contains(a.net, Int2ip(a.next)) && !Taken(a.mp, a.next) && b == TakeNext(a)
    else b == a.(next := Advance(a.next, rounds)) && (rounds > 0 ==> Contains(a.net, Int2ip(a.next)) && Taken(a.mp, a.next))
  }

  lemma SearchBegins(a: Allocator)
    requires IsNet(a.net)
    ensures Searched(a, 0, false, a)
  {
    hide Contains, Int2ip;
  }

  lemma SearchGoesOn(a: Allocator, rounds: nat, b: Allocator)
    requires IsNet(a.net) && Searched(a, rounds, false, b)
    ensures b.mp == a.mp && b.net == a.net
    ensures Contains(a.net, Int2ip(a.next)) && Taken(a.mp, a.next) ==> Searched(a, rounds + 1, false, b.(next := Succ(b.next)))
    ensures
      Contains(a.net, Int2ip(a.next)) && !Taken(a.mp, a.next) ==>
      rounds == 0 && Searched(a, 1, true, Allocator(a.mp[a.next := true], Succ(b.next), a.net))
    ensures !Contains(a.net, Int2ip(a.next)) ==> b == a
  {
    hide Contains, Int2ip, Taken;
    AdvanceOnce(a.next, rounds);
    AdvanceNone(a.next);
  }

  lemma SearchLeaves(a: Allocator, ip: IP, steps: nat)
    requires IsNet(a.net) && !Usable(a, ip) && steps > 0 && !Contains(a.net, Int2ip(a.next))
    ensures Allocate(a, ip, steps) == (a.(next := Succ(a.next)), OutOfRange)
  {
    hide Contains, Int2ip, Ip2int, Taken;
  }

  lemma SearchEnds(a: Allocator, ip: IP, steps: nat, done: bool, b: Allocator)
    requires IsNet(a.net) && !Usable(a, ip) && (if done then steps > 0 && Searched(a, 1, true, b) else Searched(a, steps, false, b))
    ensures Allocate(a, ip, steps) == (b, if done then Assigned(Int2ip(a.next)) else StillLooping)
  {
    hide Contains, Int2ip, Ip2int, Taken;
    AdvanceNone(a.next);
  }

  // ----- The allocator object -----

  class ClusterIPAllocator {
    var mp: Marks
    var nextIP: Word
    var ipNet: Net

    ghost predicate Valid()
      reads this
    {
      IsNet(ipNet)
    }

    ghost function Abs(): Allocator
      reads this
    {
      Allocator(mp, nextIP, ipNet)
    }

    constructor (address: IP, prefix: nat)
      requires |address| == 4 && prefix <= 32
      ensures Valid() && Abs() == Allocator(map[], BigEndian(address), Net(address, prefix))
    {
      mp := map[];
      nextIP := Ip2int(address);
      ipNet := Net(address, prefix);
    }

    /** Marks the addresses of stored services; false is log.Fatal. */
    method Init(stored: seq<IP>) returns (ok: bool)
      requires Valid() && mp == map[]
      requires forall i :: 0 <= i < |stored| ==> IsParsed(stored[i])
      modifies this`mp
      ensures ok <==> forall i :: 0 <= i < |stored| && stored[i] != [] ==> Contains(ipNet, stored[i])
      ensures ok ==> mp == Marked(stored)
    {
      hide Contains, Ip2int;
      for k := 0 to |stored|
        invariant forall i :: 0 <= i < k && stored[i] != [] ==> Contains(ipNet, stored[i])
        invariant mp == Marked(stored[..k])
      {
        assert stored[..k + 1][..k] == stored[..k];
        var ip := stored[k];
        if ip != [] {
          if !Contains(ipNet, ip) {
            return false;
          }
          mp := mp[Ip2int(ip) := true];
        }
      }
      assert stored[..|stored|] == stored;
      ok := true;
    }

    method AllocateClusterIP(ip: IP, steps: nat) returns (o: Outcome)
      requires Valid()
      modifies this`mp, this`nextIP
      ensures Valid() && (Abs(), o) == Allocate(old(Abs()), ip, steps)
    {
      hide Contains, Ip2int, Int2ip, Searched;
      if ip != [] && Contains(ipNet, ip) {
        var n := Ip2int(ip);
        if n !in mp || !mp[n] {
          mp := mp[n := true];
          return Kept(ip);
        }
      }
      ghost var a := Abs();
      var hasAllocated := false;
      var toAllocate := nextIP;
      var round := 0;
      SearchBegins(a);
      hide Allocate, Taken, Advance, Succ;
      while !hasAllocated && round < steps
        invariant ipNet == a.net && toAllocate == a.next && round <= steps && (hasAllocated ==> round == 1)
        invariant Searched(a, round, hasAllocated, Abs())
      {
        SearchGoesOn(a, round, Abs());
        nextIP := Succ(nextIP);
        if !Contains(ipNet, Int2ip(toAllocate)) {
          SearchLeaves(a, ip, steps);
          return OutOfRange;
        }
        if toAllocate !in mp || !mp[toAllocate] {
          NotTaken(mp, toAllocate);
          mp := mp[toAllocate := true];
          hasAllocated := true;
        } else {
          IsTaken(mp, toAllocate);
        }
        round := round + 1;
      }
      SearchEnds(a, ip, steps, hasAllocated, Abs());
      o := if hasAllocated then Assigned(Int2ip(toAllocate)) else StillLooping;
    }

    /** False is the panic on a nil address. */
    method DeAllocateClusterIP(ip: IP) returns (ok: bool)
      requires IsParsed(ip)
      modifies this`mp
      ensures ok <==> ip != []
      ensures mp == if ok then old(mp)[Ip2int(ip) := false] else old(mp)
    {
      if ip == [] {
        return false;
      }
      mp := mp[Ip2int(ip) := false];
      ok := true;
    }

    /**
      NOT the code: the search repaired to read nextIP again in every round. It ends, with the lowest
      free address from nextIP on if there is one. Only if the range is the whole address space does
      it go on from 0, and only if that is full would it not end.
     */
    method RepairedSearch() returns (o: Outcome)
      requires Valid() && (ipNet.prefix > 0 || exists n: Word :: !Taken(mp, n))
      modifies this`mp, this`nextIP
      ensures o.Assigned? || o.OutOfRange?
      ensures
        o.Assigned? ==>
        exists n: Word ::
          && IsFirstFree(old(Abs()), n) && o.ip == Int2ip(n)
          && Abs() == old(Abs()).(mp := old(mp)[n := true], next := Succ(n))
      ensures o.OutOfRange? ==> mp == old(mp) && ipNet == old(ipNet) && NoneFree(old(Abs()))
    {
      ghost var a := Abs();
      ghost var stop := SomeStop(a);
      ghost var j: nat := 0;
      AdvanceNone(nextIP);
      hide Contains, InRange, Int2ip, NoneFree, IsFirstFree, Taken, Stops, Advance, Succ;
      while true
        invariant Abs() == a.(next := Advance(a.next, j)) && j <= stop && Passed(a, j)
        decreases stop - j
      {
        var toAllocate := nextIP;
        AdvanceOnce(a.next, j);
        PassedNext(a, j, stop);
        nextIP := Succ(nextIP);
        ContainsNumber(ipNet, toAllocate);
        if !Contains(ipNet, Int2ip(toAllocate)) {
          StopMeans(a, j);
          return OutOfRange;
        }
        if toAllocate !in mp || !mp[toAllocate] {
          NotTaken(mp, toAllocate);
          StopMeans(a, j);
          mp := mp[toAllocate := true];
          return Assigned(Int2ip(toAllocate));
        }
        IsTaken(mp, toAllocate);
        j := j + 1;
      }
    }
  }

  lemma NotTaken(mp: Marks, n: Word)
    requires n !in mp || !mp[n]
    ensures !Taken(mp, n)
  {
  }

  lemma IsTaken(mp: Marks, n: Word)
    requires n in mp && mp[n]
    ensures Taken(mp, n)
  {
  }
}
