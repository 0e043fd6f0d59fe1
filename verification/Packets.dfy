/**
  What the nat table does to a packet: the probability that it is sent to a given endpoint. The
  chains compiled for a service are shown to spread its packets as Balance says.
 */
module Packets {
  import opened NatTable
  import opened Options
  import opened Slices
  import opened ServiceChains
  import Balance
  import ProxyRuntime

  datatype Packet = Packet(ip: string, protocol: string, dport: int)

  datatype Endpoint = Endpoint(ip: string, port: int)

  /** hit: rewritten to the endpoint in question; pass: returned to the calling chain undecided. */
  datatype Odds = Odds(hit: real, pass: real)

  const UNDECIDED := Odds(0.0, 1.0)

  /** x with probability m, else y. */
  function Mix(m: real, x: real, y: real): real {
    m * x + (1.0 - m) * y
  }

  /** A rule taken with chance m goes on to what `inner` says; what comes back continues with `rest`. */
  function Through(m: real, inner: Odds, rest: Odds): Odds {
    Odds(Mix(m, inner.hit + inner.pass * rest.hit, rest.hit), Mix(m, inner.pass * rest.pass, rest.pass))
  }

  function Percent(p: Option<nat>): real {
    if p.Some? then Balance.Chance(p.value) else 1.0
  }

  predicate Matches(r: Rule, pkt: Packet) {
    match r
    case ServiceJump(_, ip, protocol, dport) => ip == pkt.ip && protocol == pkt.protocol && dport == pkt.dport
    case PodJump(_, _) => true
    case Dnat(protocol, _, _) => protocol == pkt.protocol
    case Foreign(_, _) => false
  }

  /** Chains nest at most `depth` deep below these rules. */
  function Eval(t: Table, rules: seq<Rule>, pkt: Packet, to: Endpoint, depth: nat): Odds
    decreases depth, |rules|
  {
    if rules == [] then UNDECIDED
    else
      var r, rest := rules[0], Eval(t, rules[1..], pkt, to, depth);
      if !Matches(r, pkt) then rest
      else if r.Dnat? then Odds(if Endpoint(r.ip, r.port) == to then 1.0 else 0.0, 0.0)
      else if depth == 0 || Target(r).None? || Target(r).value !in t then rest
      else
        var inner := Eval(t, t[Target(r).value], pkt, to, depth - 1);
        Through(if r.PodJump? then Percent(r.percent) else 1.0, inner, rest)
  }

  // ----- The service chain of one port -----

  /** Of the rules from k on, the probability that rule i takes the packet. */
  function ShareFrom(chances: seq<real>, k: nat, i: nat): real
    requires k <= i < |chances|
    decreases i - k
  {
    if k == i then chances[i] else (1.0 - chances[k]) * ShareFrom(chances, k + 1, i)
  }

  lemma {:induction false} ShareFromReach(chances: seq<real>, k: nat, i: nat)
    requires k <= i < |chances|
    ensures Balance.Reach(chances, k) * ShareFrom(chances, k, i) == Balance.Share(chances, i)
    decreases i - k
  {
    if k < i {
      ShareFromReach(chances, k + 1, i);
      var a, b, c := Balance.Reach(chances, k), 1.0 - chances[k], ShareFrom(chances, k + 1, i);
      assert Balance.Reach(chances, k + 1) == a * b;
      assert a * (b * c) == (a * b) * c;
    }
  }

  /** Each rule names its pod chain and a chance, but for the last one, which is plain. */
  lemma PodRuleChance(pods: seq<Chain>, k: nat)
    requires k < |pods|
    ensures var r := PodRules(pods, |pods|)[k];
      r.PodJump? && r.to == pods[k] && Percent(r.percent) == Balance.Rounded(|pods|)[k] && (r.percent.None? <==> k == |pods| - 1)
  {
  }

  /** A pod chain sends every packet of its protocol to its pod. */
  lemma PodChainSends(t: Table, p: PortInst, k: nat, pkt: Packet, to: Endpoint, depth: nat)
    requires SERVICE in t && Holds(t, p) && k < |p.pods| && Matches(p.dnats[k], pkt)
    ensures p.pods[k] in t && Eval(t, t[p.pods[k]], pkt, to, depth)
      == Odds(if Endpoint(p.dnats[k].ip, p.dnats[k].port) == to then 1.0 else 0.0, 0.0)
  {
    assert p.dnats[k] in p.dnats;
  }

  /** The endpoints of a port are pairwise different, and i's is the one asked for. */
  ghost predicate OnlyEndpoint(p: PortInst, i: nat, to: Endpoint)
    requires Sound(p) && i < |p.dnats|
  {
    forall k :: 0 <= k < |p.dnats| ==>
      (p.dnats[k].Dnat? && Endpoint(p.dnats[k].ip, p.dnats[k].port) == to <==> k == i)
  }

  lemma ShareStep(chances: seq<real>, k: nat, i: nat)
    requires k < |chances| && i < |chances|
    ensures Mix(chances[k], if k == i then 1.0 else 0.0, if k + 1 <= i then ShareFrom(chances, k + 1, i) else 0.0)
      == if k <= i then ShareFrom(chances, k, i) else 0.0
  {
  }

  lemma LastRuleTakesAll(n: nat, k: nat)
    requires k < n
    ensures Mix(Balance.Rounded(n)[k], 0.0, if k + 1 < n then 0.0 else 1.0) == 0.0
  {
  }

  lemma ThroughDecided(m: real, h: real, rest: Odds)
    ensures Through(m, Odds(h, 0.0), rest) == Odds(Mix(m, h, rest.hit), Mix(m, 0.0, rest.pass))
  {
    assert h + 0.0 * rest.hit == h && 0.0 * rest.pass == 0.0;
  }

  /** One rule of a service chain: taken with its chance, else the rest decides. */
  lemma EvalPodJump(t: Table, rules: seq<Rule>, pkt: Packet, to: Endpoint, depth: nat, h: real)
    requires rules != [] && rules[0].PodJump? && rules[0].to in t && depth >= 1
    requires Eval(t, t[rules[0].to], pkt, to, depth - 1) == Odds(h, 0.0)
    ensures var m, rest := Percent(rules[0].percent), Eval(t, rules[1..], pkt, to, depth);
      Eval(t, rules, pkt, to, depth) == Odds(Mix(m, h, rest.hit), Mix(m, 0.0, rest.pass))
  {
    hide Mix, Through;
    var m, rest := Percent(rules[0].percent), Eval(t, rules[1..], pkt, to, depth);
    assert Eval(t, rules, pkt, to, depth) == Through(m, Odds(h, 0.0), rest);
    ThroughDecided(m, h, rest);
  }

  lemma PodRuleEval(t: Table, p: PortInst, i: nat, k: nat, pkt: Packet, to: Endpoint, depth: nat)
    requires SERVICE in t && Holds(t, p) && k < |p.pods| && i < |p.pods| && depth >= 1
    requires Matches(p.dnats[k], pkt) && OnlyEndpoint(p, i, to)
    ensures var rules, m := PodRules(p.pods, |p.pods|), Balance.Rounded(|p.pods|)[k];
      var rest := Eval(t, rules[k + 1..], pkt, to, depth);
      Eval(t, rules[k..], pkt, to, depth) == Odds(Mix(m, if k == i then 1.0 else 0.0, rest.hit), Mix(m, 0.0, rest.pass))
  {
    hide Eval, Mix, Balance.Rounded, Percent;
    var rules := PodRules(p.pods, |p.pods|);
    PodRuleChance(p.pods, k);
    PodChainSends(t, p, k, pkt, to, depth - 1);
    assert rules[k..][1..] == rules[k + 1..] && rules[k..][0] == rules[k];
    EvalPodJump(t, rules[k..], pkt, to, depth, if k == i then 1.0 else 0.0);
  }

  lemma {:induction false} ServiceChainFrom(t: Table, p: PortInst, i: nat, k: nat, pkt: Packet, to: Endpoint, depth: nat)
    requires SERVICE in t && Holds(t, p) && k <= |p.pods| && i < |p.pods| && depth >= 1
    requires forall j :: 0 <= j < |p.dnats| ==> Matches(p.dnats[j], pkt)
    requires OnlyEndpoint(p, i, to)
    ensures Eval(t, PodRules(p.pods, |p.pods|)[k..], pkt, to, depth) == Odds(
      if k <= i then ShareFrom(Balance.Rounded(|p.pods|), k, i) else 0.0,
      if k < |p.pods| then 0.0 else 1.0)
    decreases |p.pods| - k
  {
    if k == |p.pods| {
      assert PodRules(p.pods, |p.pods|)[k..] == [];
    } else {
      assert |Balance.Rounded(|p.pods|)| == |p.pods| == |p.dnats|;
      hide Eval, Mix, Balance.Rounded, ShareFrom, PodRule;
      LastRuleTakesAll(|p.pods|, k);
      ServiceChainFrom(t, p, i, k + 1, pkt, to, depth);
      PodRuleEval(t, p, i, k, pkt, to, depth);
      ShareStep(Balance.Rounded(|p.pods|), k, i);
    }
  }

  /** A packet that enters a service chain goes to pod i with exactly rule i's share. */
  lemma ServiceChainSpreads(t: Table, p: PortInst, i: nat, pkt: Packet, to: Endpoint, depth: nat)
    requires SERVICE in t && Holds(t, p) && i < |p.pods| && depth >= 1
    requires forall j :: 0 <= j < |p.dnats| ==> Matches(p.dnats[j], pkt)
    requires OnlyEndpoint(p, i, to)
    ensures p.svc in t && Eval(t, t[p.svc], pkt, to, depth) == Odds(Balance.Share(Balance.Rounded(|p.pods|), i), 0.0)
  {
    var rules := PodRules(p.pods, |p.pods|);
    ServiceChainFrom(t, p, i, 0, pkt, to, depth);
    ShareFromReach(Balance.Rounded(|p.pods|), 0, i);
    assert rules[0..] == rules;
  }

  // ----- The SERVICE chain -----

  lemma EvalServiceJump(t: Table, rules: seq<Rule>, pkt: Packet, to: Endpoint, depth: nat, h: real)
    requires rules != [] && rules[0].ServiceJump? && Matches(rules[0], pkt) && rules[0].to in t && depth >= 1
    requires Eval(t, t[rules[0].to], pkt, to, depth - 1) == Odds(h, 0.0)
    ensures Eval(t, rules, pkt, to, depth) == Odds(h, 0.0)
  {
    hide Mix, Through;
    var rest := Eval(t, rules[1..], pkt, to, depth);
    assert Eval(t, rules, pkt, to, depth) == Through(1.0, Odds(h, 0.0), rest);
    ThroughDecided(1.0, h, rest);
    CertainMix(h, rest.hit);
    CertainMix(0.0, rest.pass);
  }

  lemma CertainMix(x: real, y: real)
    ensures Mix(1.0, x, y) == x
  {
  }

  lemma {:induction false} UnmatchedRulesPass(t: Table, front: seq<Rule>, back: seq<Rule>, pkt: Packet, to: Endpoint, depth: nat)
    requires forall r :: r in front ==> !Matches(r, pkt)
    ensures Eval(t, front + back, pkt, to, depth) == Eval(t, back, pkt, to, depth)
  {
    if front == [] {
      assert front + back == back;
    } else {
      UnmatchedRulesPass(t, front[1..], back, pkt, to, depth);
      assert (front + back)[1..] == front[1..] + back && (front + back)[0] == front[0];
    }
  }

  /** The i-th SERVICE rule made for a service takes exactly the packets for its address, protocol and port. */
  lemma RuleTakes(service: ProxyRuntime.Service, podIPs: seq<string>, ps: seq<PortInst>, i: nat, pkt: Packet)
    requires ProxyRuntime.CompiledFrom(service, podIPs, ps) && i < |service.ports|
    ensures
      Matches(ps[i].jump, pkt) <==>
      && service.clusterIP == Some(pkt.ip) && service.ports[i].protocol == pkt.protocol && service.ports[i].port == pkt.dport
    ensures Target(ps[i].jump) == Some(ps[i].svc)
  {
    assert ProxyRuntime.JumpMatches(service, i, ps[i]);
  }

  /** No rule in front of the given one takes the packet. */
  ghost predicate NoneBefore(rules: seq<Rule>, rule: Rule, pkt: Packet) {
    forall j, k :: 0 <= j < k < |rules| && rules[k] == rule ==> !Matches(rules[j], pkt)
  }

  /** The first rule that takes the packet decides. */
  lemma EvalTakenRule(t: Table, rules: seq<Rule>, rule: Rule, pkt: Packet, to: Endpoint, depth: nat, h: real)
    requires rule in rules && NoneBefore(rules, rule, pkt) && rule.ServiceJump? && Matches(rule, pkt) && rule.to in t && depth >= 1
    requires Eval(t, t[rule.to], pkt, to, depth - 1) == Odds(h, 0.0)
    ensures Eval(t, rules, pkt, to, depth) == Odds(h, 0.0)
  {
    hide Eval, Matches;
    var pos :| 0 <= pos < |rules| && rules[pos] == rule;
    var front, back := rules[..pos], rules[pos..];
    assert rules == front + back && back[0] == rule;
    forall r | r in front ensures !Matches(r, pkt) {
      var j :| 0 <= j < |front| && front[j] == r;
      assert rules[j] == r;
    }
    UnmatchedRulesPass(t, front, back, pkt, to, depth);
    EvalServiceJump(t, back, pkt, to, depth, h);
  }

  lemma RecordedPort(
    s: ProxyRuntime.State, uid: string, port: nat, podIPs: seq<string>, service: ProxyRuntime.Service, pkt: Packet, i: nat)
    requires ProxyRuntime.Good(s) && uid in s.live && ProxyRuntime.CompiledFrom(service, podIPs, s.live[uid])
    requires port < |service.ports| && NoRepeats(podIPs) && i < |podIPs|
    requires service.clusterIP == Some(pkt.ip)
    requires pkt.protocol == service.ports[port].protocol && pkt.dport == service.ports[port].port
    ensures
      var p := s.live[uid][port];
      && SERVICE in s.table && Holds(s.table, p) && p.jump in s.table[SERVICE] && p.jump.ServiceJump? && p.jump.to == p.svc
      && Matches(p.jump, pkt) && |p.pods| == |podIPs| == |p.dnats| && Sound(p)
      && (forall j :: 0 <= j < |p.dnats| ==> Matches(p.dnats[j], pkt))
      && OnlyEndpoint(p, i, Endpoint(podIPs[i], service.ports[port].targetPort))
  {
    var p := s.live[uid][port];
    ProxyRuntime.PortsAre(s.live, p);
    assert p in s.live[uid];
    assert Holds(s.table, p);
    RuleTakes(service, podIPs, s.live[uid], port, pkt);
    assert p.jump in multiset(s.table[SERVICE]);
  }

  /**
    A packet for the cluster address, the protocol and the port of a recorded service, which no rule in
    front takes, goes to one of the service's pods: to each with its share of the rounded chain, within
    0.005 per rule of an equal part, at the target port. It never falls through.
   */
  lemma ServicePacketsSpread(
    s: ProxyRuntime.State, uid: string, port: nat, podIPs: seq<string>, service: ProxyRuntime.Service, pkt: Packet, i: nat)
    requires ProxyRuntime.Good(s) && uid in s.live && ProxyRuntime.CompiledFrom(service, podIPs, s.live[uid])
    requires port < |service.ports| && NoRepeats(podIPs) && i < |podIPs|
    requires service.clusterIP == Some(pkt.ip)
    requires pkt.protocol == service.ports[port].protocol && pkt.dport == service.ports[port].port
    requires NoneBefore(s.table[SERVICE], s.live[uid][port].jump, pkt)
    ensures var odds := Eval(s.table, s.table[SERVICE], pkt, Endpoint(podIPs[i], service.ports[port].targetPort), 2);
      && odds == Odds(Balance.Share(Balance.Rounded(|podIPs|), i), 0.0)
      && Balance.Within(odds.hit, 1.0 / |podIPs| as real, 0.005 * (i + 1) as real)
  {
    var p, rules := s.live[uid][port], s.table[SERVICE];
    var to := Endpoint(podIPs[i], service.ports[port].targetPort);
    RecordedPort(s, uid, port, podIPs, service, pkt, i);
    hide ProxyRuntime.Good, ProxyRuntime.CompiledFrom, Holds, Eval, OnlyEndpoint, NoneBefore;
    ServiceChainSpreads(s.table, p, i, pkt, to, 1);
    EvalTakenRule(s.table, rules, p.jump, pkt, to, 2, Balance.Share(Balance.Rounded(|podIPs|), i));
    Balance.RoundedIsClose(|podIPs|, i);
  }
}
