/**
  What one service port compiles to, how it is put into and taken out of the nat table, and the
  agreement between the table and the ports on record.
 */
module ServiceChains {
  import opened NatTable
  import opened Options
  import opened Slices
  import Balance

  /** The chains and rules made for one port of a service with |pods| endpoints. */
  datatype PortInst = PortInst(svc: Chain, pods: seq<Chain>, jump: Rule, dnats: seq<Rule>)

  /** The j-th rule of a service chain with n pods: all but the last are taken at random. */
  function PodRule(pod: Chain, n: nat, j: nat): Rule {
    PodJump(pod, if j + 1 < n then Some(Balance.Hundredths(n - j)) else None)
  }

  function PodRules(pods: seq<Chain>, n: nat): seq<Rule> {
    seq(|pods|, j requires 0 <= j < |pods| => PodRule(pods[j], n, j))
  }

  function PodTable(pods: seq<Chain>, dnats: seq<Rule>): Table
    requires |pods| == |dnats|
  {
    if pods == [] then map[]
    else
      var k := |pods| - 1;
      PodTable(pods[..k], dnats[..k])[pods[k] := [dnats[k]]]
  }

  ghost function Elems(ps: seq<PortInst>): set<PortInst> {
    if ps == [] then {} else Elems(ps[..|ps| - 1]) + {ps[|ps| - 1]}
  }

  predicate Sound(p: PortInst) {
    && p.svc.Svc? && p.jump.ServiceJump? && p.jump.to == p.svc
    && |p.pods| == |p.dnats| >= 1 && NoRepeats(p.pods)
    && (forall c :: c in p.pods ==> c.SvcPod?)
    && (forall d :: d in p.dnats ==> d.Dnat?)
  }

  predicate AllSound(ps: seq<PortInst>) {
    forall p :: p in ps ==> Sound(p)
  }

  function Owned(p: PortInst): set<Chain> {
    {p.svc} + PodSet(p)
  }

  function PodSet(p: PortInst): set<Chain> {
    set c | c in p.pods
  }

  ghost function Svcs(ps: seq<PortInst>): set<Chain> {
    if ps == [] then {} else Svcs(ps[..|ps| - 1]) + {ps[|ps| - 1].svc}
  }

  ghost function PodsOf(ps: seq<PortInst>): set<Chain> {
    if ps == [] then {} else PodsOf(ps[..|ps| - 1]) + PodSet(ps[|ps| - 1])
  }

  // ----- Putting ports in -----

  /** The table after a port has been mapped to the first |pods| of its n pods. */
  function Mapped(t: Table, svc: Chain, pods: seq<Chain>, n: nat, jump: Rule, dnats: seq<Rule>): Table
    requires SERVICE in t && |pods| == |dnats|
  {
    (t + PodTable(pods, dnats))[svc := PodRules(pods, n)][SERVICE := [jump] + t[SERVICE]]
  }

  function InstallPort(t: Table, p: PortInst): (u: Table)
    requires SERVICE in t && |p.pods| == |p.dnats|
    ensures SERVICE in u
  {
    Mapped(t, p.svc, p.pods, |p.pods|, p.jump, p.dnats)
  }

  function Install(t: Table, ps: seq<PortInst>): (u: Table)
    requires SERVICE in t && AllSound(ps)
    ensures SERVICE in u
  {
    if ps == [] then t else
      assert ps[|ps| - 1] in ps;
      InstallPort(Install(t, ps[..|ps| - 1]), ps[|ps| - 1])
  }

  // ----- Taking ports out -----

  function DropJump(t: Table, p: PortInst): Table
    requires SERVICE in t
  {
    t[SERVICE := RemoveFirst(t[SERVICE], p.jump)] - {p.svc}
  }

  /** First pass of a teardown: SERVICE rules and service chains, port by port. */
  function DropJumps(t: Table, ps: seq<PortInst>): (u: Table)
    requires SERVICE in t && AllSound(ps)
    ensures SERVICE in u
  {
    if ps == [] then t else
      assert ps[|ps| - 1] in ps;
      DropJump(DropJumps(t, ps[..|ps| - 1]), ps[|ps| - 1])
  }

  ghost function Removed(t: Table, ps: seq<PortInst>): Table
    requires SERVICE in t && AllSound(ps)
  {
    DropJumps(t, ps) - PodsOf(ps)
  }

  // ----- Agreement of the table with the recorded ports -----

  ghost predicate Holds(t: Table, p: PortInst)
    requires SERVICE in t
  {
    && Sound(p)
    && p.svc in t && t[p.svc] == PodRules(p.pods, |p.pods|)
    && multiset(t[SERVICE])[p.jump] == 1
    && forall j :: 0 <= j < |p.pods| ==> p.pods[j] in t && t[p.pods[j]] == [p.dnats[j]]
  }

  /** Rule r of chain c is one of the jumps made for p. */
  ghost predicate MadeFor(p: PortInst, c: Chain, r: Rule) {
    || (c == SERVICE && r == p.jump)
    || (c == p.svc && r.PodJump? && r.to in p.pods)
  }

  ghost predicate Accounted(t: Table, ports: set<PortInst>) {
    forall c, r :: c in t && r in t[c] && Target(r).Some? && !Target(r).value.Builtin? ==>
      exists p :: p in ports && MadeFor(p, c, r)
  }

  ghost predicate Closed(t: Table) {
    forall c, r :: c in t && r in t[c] ==> Known(t, r)
  }

  ghost predicate OwnersOnly(t: Table, ports: set<PortInst>, orphans: set<Chain>) {
    forall c :: c in t && !c.Builtin? && c !in orphans ==> exists p :: p in ports && c in Owned(p)
  }

  ghost predicate Apart(ports: set<PortInst>, orphans: set<Chain>) {
    && (forall p, q :: p in ports && q in ports && p != q ==> Owned(p) !! Owned(q))
    && (forall p :: p in ports ==> Owned(p) !! orphans)
  }

  /**
    The table holds exactly the recorded ports: their chains with their rules, one SERVICE rule
    each, no other cube-proxy chain except pod chains awaiting deletion, no dangling jump.
   */
  ghost predicate Consistent(t: Table, ports: set<PortInst>, orphans: set<Chain>) {
    && SERVICE in t
    && (forall p :: p in ports ==> Holds(t, p))
    && Apart(ports, orphans)
    && OwnersOnly(t, ports, orphans)
    && Accounted(t, ports)
    && Closed(t)
    && (forall c :: c in orphans ==> c.SvcPod?)
  }

  // ----- Lemmas about putting in -----

  lemma {:induction false} PodTableKeys(pods: seq<Chain>, dnats: seq<Rule>)
    requires |pods| == |dnats|
    ensures PodTable(pods, dnats).Keys == set c | c in pods
  {
    if pods != [] {
      var k := |pods| - 1;
      PodTableKeys(pods[..k], dnats[..k]);
      assert pods == pods[..k] + [pods[k]];
    }
  }

  lemma {:induction false} PodTableAt(pods: seq<Chain>, dnats: seq<Rule>, j: nat)
    requires |pods| == |dnats| && NoRepeats(pods) && j < |pods|
    ensures pods[j] in PodTable(pods, dnats) && PodTable(pods, dnats)[pods[j]] == [dnats[j]]
  {
    var k := |pods| - 1;
    if j < k {
      PodTableAt(pods[..k], dnats[..k], j);
    }
  }

  lemma MappedNone(t: Table, svc: Chain, n: nat, jump: Rule)
    requires SERVICE in t && svc.Svc?
    ensures t[svc := []][SERVICE := [jump] + t[SERVICE]] == Mapped(t, svc, [], n, jump, [])
  {
  }

  /** One more pod: its chain, then its rule at the end of the service chain. */
  lemma MapOnePod(t: Table, svc: Chain, pods: seq<Chain>, n: nat, jump: Rule, dnats: seq<Rule>, pod: Chain, dnat: Rule)
    requires SERVICE in t && |pods| == |dnats| && svc.Svc? && pod.SvcPod?
    ensures var u := Mapped(t, svc, pods, n, jump, dnats);
      u[pod := [dnat]][svc := u[svc] + [PodRule(pod, n, |pods|)]]
      == Mapped(t, svc, pods + [pod], n, jump, dnats + [dnat])
  {
    assert (pods + [pod])[..|pods|] == pods && (dnats + [dnat])[..|pods|] == dnats;
    assert PodRules(pods + [pod], n) == PodRules(pods, n) + [PodRule(pod, n, |pods|)];
  }

  lemma MappedKeys(t: Table, svc: Chain, pods: seq<Chain>, n: nat, jump: Rule, dnats: seq<Rule>)
    requires SERVICE in t && |pods| == |dnats|
    ensures Mapped(t, svc, pods, n, jump, dnats).Keys == t.Keys + {svc} + set c | c in pods
  {
    PodTableKeys(pods, dnats);
  }

  /** What InstallPort does to each chain. */
  lemma InstallPortAt(t: Table, p: PortInst)
    requires SERVICE in t && Sound(p) && Owned(p) !! t.Keys
    ensures var u := InstallPort(t, p);
      && u.Keys == t.Keys + Owned(p)
      && (forall c :: c in t && c != SERVICE ==> u[c] == t[c])
      && u[SERVICE] == [p.jump] + t[SERVICE]
      && u[p.svc] == PodRules(p.pods, |p.pods|)
      && forall j :: 0 <= j < |p.pods| ==> p.pods[j] in u && u[p.pods[j]] == [p.dnats[j]]
  {
    PodTableKeys(p.pods, p.dnats);
    forall j | 0 <= j < |p.pods|
      ensures p.pods[j] in PodTable(p.pods, p.dnats) && PodTable(p.pods, p.dnats)[p.pods[j]] == [p.dnats[j]]
    {
      PodTableAt(p.pods, p.dnats, j);
    }
  }

  lemma InstallKeepsOld(t: Table, ports: set<PortInst>, p: PortInst, q: PortInst)
    requires Consistent(t, ports, {}) && q in ports
    requires Sound(p) && Owned(p) !! t.Keys
    ensures Holds(InstallPort(t, p), q) && Owned(p) !! Owned(q)
  {
    InstallPortAt(t, p);
    assert Holds(t, q);
    assert p.svc != q.svc;
    forall c | c in Owned(q)
      ensures c in t && c != SERVICE
    {
    }
    forall j | 0 <= j < |q.pods|
      ensures q.pods[j] in t && t[q.pods[j]] == InstallPort(t, p)[q.pods[j]]
    {
      assert q.pods[j] in q.pods;
    }
  }

  lemma InstallAccounts(t: Table, ports: set<PortInst>, p: PortInst)
    requires Consistent(t, ports, {}) && Sound(p) && Owned(p) !! t.Keys
    ensures Accounted(InstallPort(t, p), ports + {p}) && Closed(InstallPort(t, p))
  {
    InstallPortAt(t, p);
    var u := InstallPort(t, p);
    forall c, r | c in u && r in u[c]
      ensures Known(u, r)
      ensures Target(r).Some? && !Target(r).value.Builtin? ==> exists q :: q in ports + {p} && MadeFor(q, c, r)
    {
      if c in t && r in t[c] {
        if Target(r).Some? && !Target(r).value.Builtin? {
          var q :| q in ports && MadeFor(q, c, r);
          assert q in ports + {p};
        }
        assert Known(t, r);
      } else if c == SERVICE {
        assert r == p.jump && MadeFor(p, c, r);
      } else if c == p.svc {
        assert r.to in p.pods && MadeFor(p, c, r);
      } else {
        assert r in p.dnats;
      }
    }
  }

  lemma FreshIsUnknown(t: Table, ports: set<PortInst>, p: PortInst)
    requires Consistent(t, ports, {}) && Sound(p) && Owned(p) !! t.Keys
    ensures p !in ports && p.jump !in t[SERVICE]
  {
    assert p.svc in Owned(p);
    assert forall r :: r in t[SERVICE] ==> Known(t, r);
    assert forall q :: q in ports ==> Holds(t, q) && q.svc in t;
  }

  /** Installing a port under fresh names keeps table and record in agreement. */
  lemma InstallKeepsConsistent(t: Table, ports: set<PortInst>, p: PortInst)
    requires Consistent(t, ports, {}) && Sound(p) && Owned(p) !! t.Keys
    ensures Consistent(InstallPort(t, p), ports + {p}, {}) && p !in ports
  {
    InstallPortAt(t, p);
    InstallAccounts(t, ports, p);
    var u := InstallPort(t, p);
    forall q | q in ports
      ensures Holds(u, q) && Owned(p) !! Owned(q)
    {
      InstallKeepsOld(t, ports, p, q);
    }
    FreshIsUnknown(t, ports, p);
    assert Holds(u, p);
  }

  // ----- Lemmas about taking out -----

  /** Of all rules that jump to a recorded service chain only the recorded one is in the table. */
  lemma OnlyItsJump(t: Table, ports: set<PortInst>, orphans: set<Chain>, p: PortInst, c: Chain, r: Rule)
    requires Consistent(t, ports, orphans) && p in ports && c in t && r in t[c] && Target(r) == Some(p.svc)
    ensures c == SERVICE && r == p.jump
  {
    assert Holds(t, p);
    var q :| q in ports && MadeFor(q, c, r);
    assert Holds(t, q);
    assert p.svc in Owned(p) && q.svc in Owned(q);
    assert forall d :: d in q.pods ==> d.SvcPod?;
  }

  /** After its SERVICE rule is gone, nothing jumps to the service chain. */
  lemma ServiceChainFree(t: Table, ports: set<PortInst>, orphans: set<Chain>, p: PortInst)
    requires Consistent(t, ports, orphans) && p in ports
    ensures var u := t[SERVICE := RemoveFirst(t[SERVICE], p.jump)];
      !Referenced(u[p.svc := []], p.svc)
  {
    var u := t[SERVICE := RemoveFirst(t[SERVICE], p.jump)];
    RemoveFirstLeaves(t[SERVICE], p.jump);
    assert Holds(t, p);
    var v := u[p.svc := []];
    forall c, r | c in v && r in v[c]
      ensures Target(r) != Some(p.svc)
    {
      if Target(r) == Some(p.svc) {
        assert c == SERVICE ==> r in multiset(t[SERVICE]) && r in multiset(v[SERVICE]);
        OnlyItsJump(t, ports, orphans, p, c, r);
      }
    }
  }

  lemma DropJumpKeepsOther(t: Table, ports: set<PortInst>, orphans: set<Chain>, p: PortInst, q: PortInst)
    requires Consistent(t, ports, orphans) && p in ports && q in ports && p != q
    ensures Holds(DropJump(t, p), q)
  {
    assert Holds(t, p) && Holds(t, q);
    RemoveFirstLeaves(t[SERVICE], p.jump);
    assert p.svc in Owned(p) && q.svc in Owned(q);
    assert p.jump != q.jump;
    forall j | 0 <= j < |q.pods|
      ensures q.pods[j] != p.svc
    {
    }
  }

  /** Every rule left by DropJump was there before and does not jump to the dropped chain. */
  lemma LeftByDropJump(t: Table, ports: set<PortInst>, orphans: set<Chain>, p: PortInst, c: Chain, r: Rule)
    requires Consistent(t, ports, orphans) && p in ports
    requires c in DropJump(t, p) && r in DropJump(t, p)[c]
    ensures c in t && c != p.svc && r in t[c] && Target(r) != Some(p.svc)
  {
    assert Holds(t, p);
    RemoveFirstLeaves(t[SERVICE], p.jump);
    assert r in t[c];
    if Target(r) == Some(p.svc) {
      OnlyItsJump(t, ports, orphans, p, c, r);
    }
  }

  lemma DropJumpAccounts(t: Table, ports: set<PortInst>, orphans: set<Chain>, p: PortInst)
    requires Consistent(t, ports, orphans) && p in ports
    ensures Accounted(DropJump(t, p), ports - {p}) && Closed(DropJump(t, p))
  {
    var u := DropJump(t, p);
    assert Holds(t, p);
    forall c, r | c in u && r in u[c]
      ensures Known(u, r)
    {
      LeftByDropJump(t, ports, orphans, p, c, r);
      assert Known(t, r);
    }
    forall c, r | c in u && r in u[c] && Target(r).Some? && !Target(r).value.Builtin?
      ensures exists q :: q in ports - {p} && MadeFor(q, c, r)
    {
      LeftByDropJump(t, ports, orphans, p, c, r);
      var q :| q in ports && MadeFor(q, c, r);
      assert q in ports - {p};
    }
  }

  /** Taking out one port's SERVICE rule and service chain leaves its pod chains behind. */
  lemma DropJumpKeepsConsistent(t: Table, ports: set<PortInst>, orphans: set<Chain>, p: PortInst)
    requires Consistent(t, ports, orphans) && p in ports
    ensures Consistent(DropJump(t, p), ports - {p}, orphans + PodSet(p))
  {
    var u := DropJump(t, p);
    DropJumpAccounts(t, ports, orphans, p);
    forall q | q in ports - {p}
      ensures Holds(u, q)
    {
      DropJumpKeepsOther(t, ports, orphans, p, q);
    }
    assert Holds(t, p);
    forall c | c in u && !c.Builtin? && c !in orphans + PodSet(p)
      ensures exists q :: q in ports - {p} && c in Owned(q)
    {
      var q :| q in ports && c in Owned(q);
      assert q != p;
    }
  }

  /** A service chain still led to by its SERVICE rule cannot be deleted. */
  lemma ServiceChainHeld(t: Table, ports: set<PortInst>, orphans: set<Chain>, p: PortInst)
    requires Consistent(t, ports, orphans) && p in ports
    ensures Referenced(t[p.svc := []], p.svc)
  {
    assert Holds(t, p);
    assert p.jump in t[SERVICE] && Target(p.jump) == Some(p.svc);
    assert RefersTo(t[p.svc := []][SERVICE], p.svc);
  }

  /** After -D of a SERVICE rule for p's chain, the chain can be deleted just if it was p's own rule. */
  lemma OnlyOwnRuleFreesChain(t: Table, ports: set<PortInst>, orphans: set<Chain>, p: PortInst, jump: Rule)
    requires Consistent(t, ports, orphans) && p in ports && Target(jump) == Some(p.svc)
    ensures var u := t[SERVICE := RemoveFirst(t[SERVICE], jump)];
      (Referenced(u[p.svc := []], p.svc) <==> jump != p.jump) && (jump != p.jump ==> u == t)
  {
    assert Holds(t, p);
    if jump == p.jump {
      ServiceChainFree(t, ports, orphans, p);
    } else {
      if jump in t[SERVICE] {
        OnlyItsJump(t, ports, orphans, p, SERVICE, jump);
      }
      AbsentIsNotRemoved(t[SERVICE], jump);
      assert t[SERVICE := t[SERVICE]] == t;
      ServiceChainHeld(t, ports, orphans, p);
    }
  }

  /** A pod chain still led to by its service chain cannot be deleted. */
  lemma PodChainHeld(t: Table, ports: set<PortInst>, orphans: set<Chain>, p: PortInst)
    requires Consistent(t, ports, orphans) && p in ports
    ensures |p.pods| > 0 && Referenced(t[p.pods[0] := []], p.pods[0])
  {
    assert Holds(t, p);
    var r := t[p.svc][0];
    assert r in t[p.svc] && Target(r) == Some(p.pods[0]) && p.pods[0] in p.pods;
    assert RefersTo(t[p.pods[0] := []][p.svc], p.pods[0]);
  }

  /** Nothing jumps to a pod chain that awaits deletion, so it goes without a trace. */
  lemma DropOrphanKeepsConsistent(t: Table, ports: set<PortInst>, orphans: set<Chain>, c: Chain)
    requires Consistent(t, ports, orphans) && c in orphans
    ensures !Referenced(t[c := []], c)
    ensures Consistent(t - {c}, ports, orphans - {c})
  {
    forall k, r | k in t && r in t[k]
      ensures Target(r) != Some(c)
    {
      if Target(r).Some? && !Target(r).value.Builtin? {
        var q :| q in ports && MadeFor(q, k, r);
        assert Holds(t, q) && Target(r).value in Owned(q);
      }
    }
    var u := t - {c};
    forall p | p in ports
      ensures Holds(u, p)
    {
      assert Holds(t, p);
      assert forall d :: d in Owned(p) ==> d != c;
    }
    forall k, r | k in u && r in u[k]
      ensures Known(u, r)
    {
      assert Known(t, r);
    }
  }

  // ----- Whole services -----

  /** Names neither in use nor repeated: what a fresh-name oracle gives an added service. */
  ghost predicate Fresh(t: Table, ps: seq<PortInst>) {
    AllSound(ps) && Unused(t, ps)
  }

  ghost predicate Unused(t: Table, ps: seq<PortInst>) {
    ps == [] ||
    var qs, p := ps[..|ps| - 1], ps[|ps| - 1];
    Unused(t, qs) && Owned(p) !! t.Keys + Svcs(qs) + PodsOf(qs)
  }

  ghost function Jumps(ps: seq<PortInst>): seq<Rule> {
    if ps == [] then [] else [ps[|ps| - 1].jump] + Jumps(ps[..|ps| - 1])
  }

  ghost function RemoveEach(rules: seq<Rule>, ps: seq<PortInst>): seq<Rule> {
    if ps == [] then rules else RemoveFirst(RemoveEach(rules, ps[..|ps| - 1]), ps[|ps| - 1].jump)
  }

  lemma {:induction false} ListedService(ps: seq<PortInst>, i: nat)
    requires i < |ps|
    ensures ps[i].svc in Svcs(ps) && PodSet(ps[i]) <= PodsOf(ps) && ps[i] in Elems(ps)
  {
    if i < |ps| - 1 {
      ListedService(ps[..|ps| - 1], i);
    }
  }

  lemma {:induction false} FreshIsDistinct(t: Table, ps: seq<PortInst>, i: nat, j: nat)
    requires Fresh(t, ps) && i < j < |ps|
    ensures Owned(ps[i]) !! Owned(ps[j])
  {
    if j < |ps| - 1 {
      FreshIsDistinct(t, ps[..|ps| - 1], i, j);
    } else {
      ListedService(ps[..|ps| - 1], i);
    }
  }

  lemma {:induction false} FreshIsApart(t: Table, ps: seq<PortInst>)
    requires Fresh(t, ps)
    ensures (Svcs(ps) + PodsOf(ps)) !! t.Keys
  {
    if ps != [] {
      FreshIsApart(t, ps[..|ps| - 1]);
    }
  }

  /** What Install does to each chain, SERVICE rules of later ports first. */
  lemma {:induction false} InstallAt(t: Table, ps: seq<PortInst>)
    requires SERVICE in t && Fresh(t, ps)
    ensures Install(t, ps).Keys == t.Keys + Svcs(ps) + PodsOf(ps)
    ensures forall c :: c in t && c != SERVICE ==> Install(t, ps)[c] == t[c]
    ensures Install(t, ps)[SERVICE] == Jumps(ps) + t[SERVICE]
  {
    hide InstallPort, Mapped;
    if ps == [] {
      assert Jumps(ps) + t[SERVICE] == t[SERVICE];
    } else {
      var qs, p := ps[..|ps| - 1], ps[|ps| - 1];
      InstallAt(t, qs);
      InstallPortAt(Install(t, qs), p);
      assert [p.jump] + (Jumps(qs) + t[SERVICE]) == Jumps(ps) + t[SERVICE];
    }
  }

  lemma {:induction false} DropJumpsAt(t: Table, ps: seq<PortInst>)
    requires SERVICE in t && AllSound(ps)
    ensures DropJumps(t, ps).Keys == t.Keys - Svcs(ps)
    ensures forall c :: c in DropJumps(t, ps) && c != SERVICE ==> DropJumps(t, ps)[c] == t[c]
    ensures DropJumps(t, ps)[SERVICE] == RemoveEach(t[SERVICE], ps)
  {
    if ps != [] {
      DropJumpsAt(t, ps[..|ps| - 1]);
    }
  }

  lemma {:induction false} RemoveEachSkips(r: Rule, rules: seq<Rule>, ps: seq<PortInst>)
    requires forall p :: p in ps ==> p.jump != r
    ensures RemoveEach([r] + rules, ps) == [r] + RemoveEach(rules, ps)
  {
    if ps != [] {
      RemoveEachSkips(r, rules, ps[..|ps| - 1]);
      var rest := RemoveEach(rules, ps[..|ps| - 1]);
      assert ([r] + rest)[1..] == rest;
    }
  }

  lemma {:induction false} RemoveEachUndoesJumps(t: Table, ps: seq<PortInst>, rules: seq<Rule>)
    requires Fresh(t, ps)
    ensures RemoveEach(Jumps(ps) + rules, ps) == rules
  {
    if ps == [] {
      assert Jumps(ps) + rules == rules;
    } else {
      var qs, p := ps[..|ps| - 1], ps[|ps| - 1];
      forall q | q in qs
        ensures q.jump != p.jump
      {
        var i :| 0 <= i < |qs| && qs[i] == q;
        FreshIsDistinct(t, ps, i, |qs|);
        assert ps[i] in ps && ps[|qs|] in ps;
        assert p.svc in Owned(p) && q.svc in Owned(q);
      }
      assert Jumps(ps) + rules == [p.jump] + (Jumps(qs) + rules);
      RemoveEachSkips(p.jump, Jumps(qs) + rules, qs);
      RemoveEachUndoesJumps(t, qs, rules);
      assert ([p.jump] + rules)[1..] == rules;
    }
  }

  /** Deleting a service under the spec it was added with restores the table exactly. */
  lemma RemovedUndoesInstall(t: Table, ps: seq<PortInst>)
    requires SERVICE in t && Fresh(t, ps)
    ensures Removed(Install(t, ps), ps) == t
  {
    FreshIsApart(t, ps);
    InstallAt(t, ps);
    DropJumpsAt(Install(t, ps), ps);
    RemoveEachUndoesJumps(t, ps, t[SERVICE]);
    assert Removed(Install(t, ps), ps).Keys == t.Keys;
  }

  lemma InstallSplit(t: Table, ports: set<PortInst>, ps: seq<PortInst>)
    requires SERVICE in t && Fresh(t, ps) && ps != []
    ensures var qs, p := ps[..|ps| - 1], ps[|ps| - 1];
      && Fresh(t, qs) && Sound(p) && Owned(p) !! t.Keys + Svcs(qs) + PodsOf(qs)
      && Install(t, ps) == InstallPort(Install(t, qs), p)
      && ports + Elems(ps) == ports + Elems(qs) + {p}
  {
    assert ps[|ps| - 1] in ps;
  }

  lemma InstallOneMore(t: Table, ports: set<PortInst>, qs: seq<PortInst>, p: PortInst, u: Table, all: set<PortInst>)
    requires SERVICE in t && Fresh(t, qs) && Sound(p) && Owned(p) !! t.Keys + Svcs(qs) + PodsOf(qs)
    requires Consistent(Install(t, qs), ports, {})
    requires u == InstallPort(Install(t, qs), p) && all == ports + {p}
    ensures Consistent(u, all, {}) && p !in ports
  {
    InstallAt(t, qs);
    InstallKeepsConsistent(Install(t, qs), ports, p);
  }

  /** Installing a service under fresh names keeps table and record in agreement. */
  lemma {:induction false} InstallAllKeepsConsistent(t: Table, ports: set<PortInst>, ps: seq<PortInst>)
    requires Consistent(t, ports, {}) && Fresh(t, ps)
    ensures Consistent(Install(t, ps), ports + Elems(ps), {})
    ensures Elems(ps) !! ports
  {
    if ps == [] {
      assert ports + Elems(ps) == ports;
    } else {
      var qs, p := ps[..|ps| - 1], ps[|ps| - 1];
      InstallSplit(t, ports, ps);
      InstallAllKeepsConsistent(t, ports, qs);
      InstallOneMore(t, ports + Elems(qs), qs, p, Install(t, ps), ports + Elems(ps));
    }
  }
}
