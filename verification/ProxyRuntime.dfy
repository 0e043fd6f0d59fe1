/**
  cube-proxy's service runtime (pkg/cubeproxy/proxyruntime): services become chains of the nat
  table, recorded in an index from which they are taken down again.
 */
module ProxyRuntime {
  import opened NatTable
  import opened Options
  import opened Slices
  import opened ServiceChains
  import Compare

  /** A port with a numeric target. */
  type ServicePort = p: Compare.ServicePort | p.targetPortName == ""
    witness Compare.ServicePort("", 0, 0, "")

  /** clusterIP is None when the text does not parse as an address. */
  datatype Service = Service(uid: string, selector: map<string, string>, ports: seq<ServicePort>, clusterIP: Option<string>)

  datatype Pod = Pod(ip: Option<string>, running: bool)

  /** Crashed stands for log.Panicln, log.Fatal and run-time panics. */
  datatype Outcome = Done | Failed | Crashed

  datatype ServiceChainElement = ServiceChainElement(svc: seq<Chain>, pods: seq<seq<Chain>>, numberOfPods: nat)

  function JumpFor(ip: string, port: ServicePort, svc: Chain): Rule {
    ServiceJump(svc, ip, port.protocol, port.port)
  }

  function DnatFor(port: ServicePort, podIP: string): Rule {
    Dnat(port.protocol, podIP, port.targetPort)
  }

  function DnatsFor(port: ServicePort, podIPs: seq<string>): seq<Rule> {
    seq(|podIPs|, j requires 0 <= j < |podIPs| => DnatFor(port, podIPs[j]))
  }

  /** Pods that can be endpoints: they have an address and are running. */
  function Endpoints(pods: seq<Pod>): seq<string> {
    if pods == [] then []
    else
      var front, last := Endpoints(pods[..|pods| - 1]), pods[|pods| - 1];
      if last.ip.Some? && last.running then front + [last.ip.value] else front
  }

  // ----- The abstract state and what the operations do to it -----

  type Live = map<string, seq<PortInst>>

  datatype State = State(table: Table, live: Live)

  ghost function PortsOf(live: Live): set<PortInst> {
    set u, p | u in live && p in live[u] :: p
  }

  ghost predicate Separate(live: Live) {
    && (forall u :: u in live ==> NoRepeats(live[u]))
    && (forall u, v, p :: u in live && v in live && p in live[u] && p in live[v] ==> u == v)
  }

  /** The nat table holds exactly the recorded services. */
  ghost predicate Good(s: State) {
    Separate(s.live) && Consistent(s.table, PortsOf(s.live), {})
  }

  /** The i-th port of the spec asks for the SERVICE rule that was made for p. */
  ghost predicate JumpMatches(service: Service, i: nat, p: PortInst)
    requires i < |service.ports|
  {
    service.clusterIP.Some? && p.jump == JumpFor(service.clusterIP.value, service.ports[i], p.svc)
  }

  ghost predicate MatchesUpTo(service: Service, ps: seq<PortInst>, n: nat) {
    n <= |ps| && n <= |service.ports| && forall i :: 0 <= i < n ==> JumpMatches(service, i, ps[i])
  }

  /** The spec asks for exactly the SERVICE rules that were made: same ports, protocols, address. */
  ghost predicate SameJumps(service: Service, ps: seq<PortInst>) {
    |service.ports| == |ps| && MatchesUpTo(service, ps, |ps|)
  }

  /** ps is what the service compiles to for these endpoints, up to the choice of names. */
  ghost predicate CompiledFrom(service: Service, podIPs: seq<string>, ps: seq<PortInst>) {
    SameJumps(service, ps) && forall i :: 0 <= i < |ps| ==> ps[i].dnats == DnatsFor(service.ports[i], podIPs)
  }

  ghost predicate Torn(s: State, uid: string, s': State)
  {
    if uid in s.live
    then SERVICE in s.table && AllSound(s.live[uid]) && s' == State(Removed(s.table, s.live[uid]), s.live - {uid})
    else s' == s
  }

  ghost predicate BuiltAs(s: State, service: Service, podIPs: seq<string>, ps: seq<PortInst>, s': State) {
    && service.uid !in s.live && SERVICE in s.table
    && CompiledFrom(service, podIPs, ps) && Fresh(s.table, ps)
    && s' == State(Install(s.table, ps), s.live[service.uid := ps])
  }

  /** A service without selector or endpoints leaves no trace. */
  ghost predicate Built(s: State, service: Service, podIPs: seq<string>, s': State) {
    if service.selector == map[] || podIPs == [] then s' == s
    else exists ps :: BuiltAs(s, service, podIPs, ps, s')
  }

  /** Tear down what is there under the UID, then build. */
  ghost predicate Rebuilt(s: State, service: Service, podIPs: seq<string>, s': State) {
    exists mid :: Torn(s, service.uid, mid) && Built(mid, service, podIPs, s')
  }

  /** The element records the names of the ports it stands for. */
  ghost predicate Records(el: ServiceChainElement, ps: seq<PortInst>) {
    && |el.svc| == |el.pods| == |ps|
    && forall i :: 0 <= i < |ps| ==> el.svc[i] == ps[i].svc && el.pods[i] == ps[i].pods
  }

  type Index = map<string, ServiceChainElement>

  /** The index has an entry for each recorded service, with the names of its chains. */
  ghost predicate Agrees(index: Index, live: Live) {
    index.Keys == live.Keys && forall u :: u in live ==> Records(index[u], live[u])
  }

  lemma AgreesAfterRemoval(index: Index, live: Live, uid: string)
    requires Agrees(index, live)
    ensures Agrees(index - {uid}, live - {uid})
  {
  }

  lemma AgreesAfterAddition(index: Index, live: Live, uid: string, el: ServiceChainElement, ps: seq<PortInst>)
    requires Agrees(index, live) && Records(el, ps)
    ensures Agrees(index[uid := el], live[uid := ps])
  {
  }

  /** The first |ps| of n ports are recorded; the other rows have an empty slot per pod. */
  ghost predicate RecordsSoFar(el: ServiceChainElement, ps: seq<PortInst>, n: nat, pods: nat) {
    && |el.svc| == |el.pods| == n && |ps| <= n
    && (forall i :: 0 <= i < |ps| ==> el.svc[i] == ps[i].svc && el.pods[i] == ps[i].pods)
    && forall i :: |ps| <= i < n ==> |el.pods[i]| == pods
  }

  ghost function Filled(el: ServiceChainElement, idx: nat, p: PortInst): ServiceChainElement
    requires idx < |el.svc| == |el.pods|
  {
    el.(svc := el.svc[idx := p.svc], pods := el.pods[idx := p.pods])
  }

  function FoundEndpoints(candidates: Option<seq<Pod>>): seq<string> {
    if candidates.Some? then Endpoints(candidates.value) else []
  }

  predicate PassesCheck(service: Service) {
    service.clusterIP.Some? && forall i :: 0 <= i < |service.ports| ==> service.ports[i].targetPort != 0
  }

  /** When adding a service succeeds. */
  ghost predicate Accepts(live: Live, service: Service, candidates: Option<seq<Pod>>, written: bool) {
    && PassesCheck(service)
    && (service.uid in live ==> SameJumps(service, live[service.uid]))
    && (service.selector == map[] || (candidates.Some? && (written || Endpoints(candidates.value) == [])))
  }

  // ----- Lemmas about the abstract state -----

  lemma {:induction false} ElemsAre(ps: seq<PortInst>, p: PortInst)
    ensures p in Elems(ps) <==> p in ps
  {
    if ps != [] {
      ElemsAre(ps[..|ps| - 1], p);
      assert ps == ps[..|ps| - 1] + [ps[|ps| - 1]];
    }
  }

  ghost predicate InLive(live: Live, p: PortInst) {
    exists u :: u in live && p in live[u]
  }

  lemma PortsAre(live: Live, p: PortInst)
    ensures p in PortsOf(live) <==> InLive(live, p)
  {
  }

  lemma PortsAfterRemoval(live: Live, uid: string)
    requires Separate(live) && uid in live
    ensures PortsOf(live - {uid}) == PortsOf(live) - Elems(live[uid])
    ensures Elems(live[uid]) <= PortsOf(live) && Separate(live - {uid})
  {
    var rest := live - {uid};
    forall p
      ensures p in PortsOf(rest) <==> p in PortsOf(live) && p !in Elems(live[uid])
      ensures p in Elems(live[uid]) ==> p in PortsOf(live)
    {
      PortsAre(rest, p);
      PortsAre(live, p);
      ElemsAre(live[uid], p);
      if u :| u in live && p in live[u] && u != uid {
        assert u in rest && p in rest[u];
      }
    }
  }

  lemma PortsAfterAddition(live: Live, uid: string, ps: seq<PortInst>)
    requires Separate(live) && uid !in live && NoRepeats(ps) && Elems(ps) !! PortsOf(live)
    ensures PortsOf(live[uid := ps]) == PortsOf(live) + Elems(ps)
    ensures Separate(live[uid := ps])
  {
    var more := live[uid := ps];
    forall p
      ensures p in PortsOf(more) <==> p in PortsOf(live) || p in ps
      ensures p in Elems(ps) <==> p in ps
      ensures p in ps ==> !InLive(live, p)
    {
      PortsAre(more, p);
      PortsAre(live, p);
      ElemsAre(ps, p);
      if u :| u in live && p in live[u] {
        assert u in more && p in more[u];
      }
      assert p in ps ==> uid in more && p in more[uid];
    }
  }

  /** One port further in the first pass of a deletion. */
  lemma NextJump(t: Table, ports: set<PortInst>, ps: seq<PortInst>, i: nat)
    requires SERVICE in t && AllSound(ps) && i < |ps|
    ensures AllSound(ps[..i + 1])
    ensures DropJumps(t, ps[..i + 1]) == DropJump(DropJumps(t, ps[..i]), ps[i])
    ensures ports - Elems(ps[..i + 1]) == ports - Elems(ps[..i]) - {ps[i]}
    ensures PodsOf(ps[..i + 1]) == PodsOf(ps[..i]) + PodSet(ps[i])
  {
    var longer := ps[..i + 1];
    assert longer[..i] == ps[..i] && longer[i] == ps[i];
  }

  lemma StillListed(ports: set<PortInst>, ps: seq<PortInst>, i: nat)
    requires NoRepeats(ps) && Elems(ps) <= ports && i < |ps|
    ensures ps[i] in ports - Elems(ps[..i])
  {
    ListedService(ps, i);
    ElemsAre(ps[..i], ps[i]);
  }

  ghost predicate PairwiseApart(ps: seq<PortInst>) {
    forall i, j :: 0 <= i < j < |ps| ==> Owned(ps[i]) !! Owned(ps[j])
  }

  lemma {:induction false} RowIsApart(ps: seq<PortInst>, n: nat, p: PortInst)
    requires n <= |ps| && forall i :: 0 <= i < n ==> Owned(ps[i]) !! Owned(p)
    ensures PodSet(p) !! PodsOf(ps[..n])
  {
    if n > 0 {
      RowIsApart(ps, n - 1, p);
      assert ps[..n][..n - 1] == ps[..n - 1];
    }
  }

  /** The second pass has come to row i, n rows having lost their service chain. */
  lemma RowAwaits(ps: seq<PortInst>, n: nat, i: nat)
    requires PairwiseApart(ps) && i < n <= |ps|
    ensures PodSet(ps[i]) <= PodsOf(ps[..n]) - PodsOf(ps[..i]) && ps[i] in Elems(ps[..n])
    ensures PodsOf(ps[..n]) - PodsOf(ps[..i]) - PodSet(ps[i]) == PodsOf(ps[..n]) - PodsOf(ps[..i + 1])
    ensures PodsOf(ps[..i + 1]) == PodsOf(ps[..i]) + PodSet(ps[i])
  {
    ListedService(ps[..n], i);
    RowIsApart(ps, i, ps[i]);
    assert ps[..i + 1][..i] == ps[..i];
  }

  /** The pod chains of the first i ports are gone from t0, the others of the first n ports await deletion. */
  ghost predicate RowsGone(t0: Table, ps: seq<PortInst>, n: nat, i: nat, left: set<PortInst>, orphans: set<Chain>, t: Table) {
    && i <= n <= |ps| && orphans == PodsOf(ps[..n]) - PodsOf(ps[..i])
    && t == t0 - PodsOf(ps[..i]) && Consistent(t, left, orphans)
  }

  lemma NoRowGone(t: Table, ps: seq<PortInst>, n: nat, left: set<PortInst>)
    requires n <= |ps| && Consistent(t, left, PodsOf(ps[..n]))
    ensures RowsGone(t, ps, n, 0, left, PodsOf(ps[..n]), t)
  {
    hide Consistent;
    assert PodsOf(ps[..0]) == {} && t - {} == t;
    assert PodsOf(ps[..n]) - {} == PodsOf(ps[..n]);
  }

  /** The next row awaits deletion, or belongs to the first port the first pass did not reach. */
  lemma RowsLeft(
    t0: Table, ports: set<PortInst>, ps: seq<PortInst>, n: nat, i: nat, left: set<PortInst>, orphans: set<Chain>, t: Table)
    requires RowsGone(t0, ps, n, i, left, orphans, t) && i < |ps| && left == ports - Elems(ps[..n])
    requires PairwiseApart(ps) && NoRepeats(ps) && Elems(ps) <= ports
    ensures Consistent(t, left, orphans)
    ensures if i < n then PodSet(ps[i]) <= orphans && ps[i] !in left else ps[i] in left && t == t0 - PodsOf(ps[..n])
  {
    hide Consistent;
    if i < n {
      RowAwaits(ps, n, i);
    } else {
      StillListed(ports, ps, i);
    }
  }

  lemma RowGone(t0: Table, ps: seq<PortInst>, n: nat, i: nat, left: set<PortInst>, orphans: set<Chain>, t: Table)
    requires RowsGone(t0, ps, n, i, left, orphans, t) && i < n && PairwiseApart(ps)
    requires Consistent(t - PodSet(ps[i]), left, orphans - PodSet(ps[i]))
    ensures RowsGone(t0, ps, n, i + 1, left, orphans - PodSet(ps[i]), t - PodSet(ps[i]))
  {
    hide Consistent, PodSet, PodsOf;
    RowAwaits(ps, n, i);
    assert t0 - PodsOf(ps[..i]) - PodSet(ps[i]) == t0 - (PodsOf(ps[..i]) + PodSet(ps[i]));
  }

  lemma AllRowsGone(t0: Table, ps: seq<PortInst>, n: nat, left: set<PortInst>, orphans: set<Chain>, t: Table)
    requires RowsGone(t0, ps, n, |ps|, left, orphans, t)
    ensures n == |ps| && t == t0 - PodsOf(ps) && Consistent(t, left, {})
  {
    hide Consistent;
    assert ps[..|ps|] == ps;
    assert orphans == {};
  }

  /** What the candidates contribute, pod by pod and in order. */
  lemma {:induction false} EndpointsAdd(a: seq<Pod>, b: seq<Pod>)
    ensures FoundEndpoints(Some(a + b)) == FoundEndpoints(Some(a)) + FoundEndpoints(Some(b))
  {
    if b == [] {
      assert a + b == a;
    } else {
      var front, last := b[..|b| - 1], b[|b| - 1];
      assert (a + b)[..|a + b| - 1] == a + front && (a + b)[|a + b| - 1] == last;
      EndpointsAdd(a, front);
    }
  }

  /** Only a running pod with an address is an endpoint. */
  lemma EndpointsOfOne(p: Pod)
    ensures p.running && p.ip.Some? ==> FoundEndpoints(Some([p])) == [p.ip.value]
    ensures !p.running || p.ip.None? ==> FoundEndpoints(Some([p])) == []
  {
    assert [p][..0] == [] && Endpoints([]) == [];
    assert Endpoints([p]) == if p.ip.Some? && p.running then [] + [p.ip.value] else [];
  }

  lemma {:induction false} NoEndpointsIff(pods: seq<Pod>)
    ensures Endpoints(pods) == [] <==> forall p :: p in pods ==> !p.running || p.ip.None?
  {
    if pods != [] {
      var front, last := pods[..|pods| - 1], pods[|pods| - 1];
      NoEndpointsIff(front);
      assert pods == front + [last];
    }
  }

  /**
    A service without a record is accepted exactly if it has an address and every port a target, and its
    selector, if it has one, was answered, with writing needed only for an endpoint.
   */
  lemma NewServiceAcceptedIff(live: Live, service: Service, candidates: Option<seq<Pod>>, written: bool)
    requires service.uid !in live
    ensures Accepts(live, service, candidates, written) <==>
      && service.clusterIP.Some? && (forall p :: p in service.ports ==> p.targetPort != 0)
      && (service.selector != map[] ==> candidates.Some? && (written || forall p :: p in candidates.value ==> !p.running || p.ip.None?))
  {
    if candidates.Some? { NoEndpointsIff(candidates.value); }
  }

  /** Recorded ports are well formed and have names of their own. */
  lemma RecordedPortsApart(s: State, uid: string)
    requires Good(s) && uid in s.live
    ensures SERVICE in s.table && Consistent(s.table, PortsOf(s.live), {})
    ensures AllSound(s.live[uid]) && PairwiseApart(s.live[uid]) && NoRepeats(s.live[uid])
    ensures Elems(s.live[uid]) <= PortsOf(s.live)
  {
    var ps := s.live[uid];
    PortsAfterRemoval(s.live, uid);
    forall i | 0 <= i < |ps|
      ensures ps[i] in PortsOf(s.live) && Holds(s.table, ps[i])
    {
      ElemsAre(ps, ps[i]);
    }
  }

  lemma GoodAfterRemoval(s: State, uid: string, t: Table)
    requires Good(s) && uid in s.live && Consistent(t, PortsOf(s.live) - Elems(s.live[uid]), {})
    ensures Good(State(t, s.live - {uid}))
  {
    hide Consistent;
    PortsAfterRemoval(s.live, uid);
  }

  ghost predicate CompiledSoFar(service: Service, podIPs: seq<string>, ps: seq<PortInst>) {
    MatchesUpTo(service, ps, |ps|) && forall i :: 0 <= i < |ps| ==> ps[i].dnats == DnatsFor(service.ports[i], podIPs)
  }

  lemma OneMoreCompiled(service: Service, podIPs: seq<string>, ps: seq<PortInst>, p: PortInst)
    requires CompiledSoFar(service, podIPs, ps) && |ps| < |service.ports| && service.clusterIP.Some?
    requires p.jump == JumpFor(service.clusterIP.value, service.ports[|ps|], p.svc)
    requires p.dnats == DnatsFor(service.ports[|ps|], podIPs)
    ensures CompiledSoFar(service, podIPs, ps + [p])
  {
    assert JumpMatches(service, |ps|, p);
  }

  lemma OneMoreRecorded(el: ServiceChainElement, ps: seq<PortInst>, n: nat, pods: nat, p: PortInst)
    requires RecordsSoFar(el, ps, n, pods) && |ps| < n
    ensures RecordsSoFar(Filled(el, |ps|, p), ps + [p], n, pods)
  {
  }

  /** |ps| ports of the service have been installed and recorded. */
  ghost predicate Progress(service: Service, podIPs: seq<string>, t: Table, ps: seq<PortInst>, u: Table, el: ServiceChainElement) {
    && SERVICE in t && Fresh(t, ps) && u == Install(t, ps)
    && CompiledSoFar(service, podIPs, ps)
    && RecordsSoFar(el, ps, |service.ports|, |podIPs|)
  }

  lemma ProgressOfOne(
    service: Service, podIPs: seq<string>, t: Table, ps: seq<PortInst>, u: Table, el: ServiceChainElement, p: PortInst)
    requires Progress(service, podIPs, t, ps, u, el) && |ps| < |service.ports| && service.clusterIP.Some?
    requires Sound(p) && Owned(p) !! u.Keys
    requires p.jump == JumpFor(service.clusterIP.value, service.ports[|ps|], p.svc)
    requires p.dnats == DnatsFor(service.ports[|ps|], podIPs)
    ensures Progress(service, podIPs, t, ps + [p], InstallPort(u, p), Filled(el, |ps|, p))
  {
    OneMoreRecorded(el, ps, |service.ports|, |podIPs|, p);
    hide Install, InstallPort, Unused, Sound, CompiledSoFar, RecordsSoFar, Owned;
    OneMoreCompiled(service, podIPs, ps, p);
    OneMorePort(t, ps, p);
  }

  lemma ProgressDone(service: Service, podIPs: seq<string>, t: Table, ps: seq<PortInst>, u: Table, el: ServiceChainElement)
    requires Progress(service, podIPs, t, ps, u, el) && |ps| == |service.ports|
    ensures CompiledFrom(service, podIPs, ps) && Fresh(t, ps) && SERVICE in t && u == Install(t, ps) && Records(el, ps)
  {
  }

  lemma ProgressSlots(service: Service, podIPs: seq<string>, t: Table, ps: seq<PortInst>, u: Table, el: ServiceChainElement)
    requires Progress(service, podIPs, t, ps, u, el)
    ensures SERVICE in u && |el.svc| == |el.pods| == |service.ports|
    ensures |ps| < |service.ports| ==> |el.pods[|ps|]| == |podIPs|
  {
  }

  lemma OneMorePort(t: Table, ps: seq<PortInst>, p: PortInst)
    requires SERVICE in t && Fresh(t, ps) && Sound(p) && Owned(p) !! Install(t, ps).Keys
    ensures Fresh(t, ps + [p]) && Install(t, ps + [p]) == InstallPort(Install(t, ps), p)
  {
    var longer := ps + [p];
    assert longer[..|ps|] == ps;
    InstallAt(t, ps);
  }

  lemma FreshPortsDiffer(t: Table, ps: seq<PortInst>)
    requires Fresh(t, ps)
    ensures NoRepeats(ps)
  {
    forall i, j | 0 <= i < j < |ps|
      ensures ps[i] != ps[j]
    {
      FreshIsDistinct(t, ps, i, j);
      assert ps[i].svc in Owned(ps[i]);
    }
  }

  lemma BuildKeepsGood(s: State, service: Service, podIPs: seq<string>, s': State)
    requires Good(s) && Built(s, service, podIPs, s')
    ensures Good(s')
  {
    if service.selector != map[] && podIPs != [] {
      var ps :| BuiltAs(s, service, podIPs, ps, s');
      FreshPortsDiffer(s.table, ps);
      InstallAllKeepsConsistent(s.table, PortsOf(s.live), ps);
      PortsAfterAddition(s.live, service.uid, ps);
    }
  }

  lemma BuiltIsGood(s: State, service: Service, podIPs: seq<string>, ps: seq<PortInst>, t: Table)
    requires Good(s) && service.uid !in s.live && service.selector != map[] && podIPs != []
    requires SERVICE in s.table && CompiledFrom(service, podIPs, ps) && Fresh(s.table, ps) && t == Install(s.table, ps)
    ensures var s' := State(t, s.live[service.uid := ps]);
      Good(s') && Built(s, service, podIPs, s') && SameJumps(service, ps)
  {
    var s' := State(t, s.live[service.uid := ps]);
    assert BuiltAs(s, service, podIPs, ps, s');
    BuildKeepsGood(s, service, podIPs, s');
  }

  /** Adding a service and deleting it under the same spec restores table and record exactly. */
  lemma AddThenDeleteRestores(s: State, service: Service, podIPs: seq<string>, added: State, after: State)
    requires Good(s) && service.uid !in s.live
    requires Built(s, service, podIPs, added) && Torn(added, service.uid, after)
    ensures after == s
  {
    if service.selector != map[] && podIPs != [] {
      var ps :| BuiltAs(s, service, podIPs, ps, added);
      RemovedUndoesInstall(s.table, ps);
      assert added.live - {service.uid} == s.live;
    }
  }

  /** Chain c is recorded for the i-th port of service u. */
  ghost predicate RecordedAt(live: Live, u: string, i: int, c: Chain) {
    u in live && 0 <= i < |live[u]| && c in Owned(live[u][i])
  }

  /** Every cube-proxy chain of the table is recorded for exactly one port of one service. */
  lemma ChainsAreRecorded(s: State, c: Chain)
    requires Good(s) && !c.Builtin?
    ensures c in s.table <==> exists u, i :: RecordedAt(s.live, u, i, c)
    ensures forall u, i, v, j :: RecordedAt(s.live, u, i, c) && RecordedAt(s.live, v, j, c) ==> u == v && i == j
  {
    if c in s.table {
      var p :| p in PortsOf(s.live) && c in Owned(p);
      var u :| u in s.live && p in s.live[u];
      var i :| 0 <= i < |s.live[u]| && s.live[u][i] == p;
      assert RecordedAt(s.live, u, i, c);
    }
    forall u, i | RecordedAt(s.live, u, i, c)
      ensures c in s.table
    {
      PortsAre(s.live, s.live[u][i]);
      var p := s.live[u][i];
      assert p in s.live[u] && p in PortsOf(s.live);
      assert Holds(s.table, p);
    }
    forall u, i, v, j | RecordedAt(s.live, u, i, c) && RecordedAt(s.live, v, j, c)
      ensures u == v && i == j
    {
      var p, q := s.live[u][i], s.live[v][j];
      assert p in s.live[u] && q in s.live[v];
      PortsAre(s.live, p);
      PortsAre(s.live, q);
      assert p == q && p in s.live[u] && q in s.live[v];
    }
  }

  /** Every rule of SERVICE that enters a cube-proxy chain is the one rule of one recorded port. */
  lemma ServiceRulesAreRecorded(s: State, r: Rule)
    requires Good(s) && r in s.table[SERVICE] && Target(r).Some? && !Target(r).value.Builtin?
    ensures multiset(s.table[SERVICE])[r] == 1
    ensures exists u, i :: u in s.live && 0 <= i < |s.live[u]| && s.live[u][i].jump == r
  {
    var p :| p in PortsOf(s.live) && MadeFor(p, SERVICE, r);
    assert Holds(s.table, p);
    var u :| u in s.live && p in s.live[u];
    var i :| 0 <= i < |s.live[u]| && s.live[u][i] == p;
    assert s.live[u][i].jump == r;
  }

  // ----- When a spec is the one that was added -----

  predicate SamePort(a: Service, b: Service, i: nat)
    requires i < |a.ports| == |b.ports|
  {
    && a.clusterIP.Some? && a.clusterIP == b.clusterIP
    && a.ports[i].protocol == b.ports[i].protocol && a.ports[i].port == b.ports[i].port
  }

  /** Two specs ask for the same SERVICE rules; target ports may differ. */
  predicate SamePorts(a: Service, b: Service) {
    |a.ports| == |b.ports| && forall i :: 0 <= i < |a.ports| ==> SamePort(a, b, i)
  }

  /** A record made from one spec is taken down under another exactly if both have the same ports. */
  lemma TakenDownUnderSamePorts(made: Service, given: Service, ps: seq<PortInst>)
    requires SameJumps(made, ps)
    ensures SameJumps(given, ps) <==> SamePorts(given, made)
  {
    forall i | 0 <= i < |ps| && |given.ports| == |ps|
      ensures JumpMatches(given, i, ps[i]) <==> SamePort(given, made, i)
    {
      assert JumpMatches(made, i, ps[i]);
    }
    assert |given.ports| == |ps| && (forall i :: 0 <= i < |ps| ==> SamePort(given, made, i)) ==>
        MatchesUpTo(given, ps, |ps|);
  }

  /** A removal event carries nothing but the UID, so it takes no service with a port down. */
  lemma RemovalEventTakesNothingDown(uid: string, made: Service, ps: seq<PortInst>)
    requires SameJumps(made, ps)
    ensures SameJumps(Service(uid, map[], [], None), ps) <==> made.ports == []
  {
    TakenDownUnderSamePorts(made, Service(uid, map[], [], None), ps);
  }

  /**
    What a deletion that fails leaves: the first n ports were the ones asked for. Either the n-th
    SERVICE rule asked for is another, and the n-th service chain is flushed but stays, or there is no
    n-th one; or no more ports were asked for, and the first pod chain of the n-th port is flushed
    but stays.
   */
  ghost predicate StoppedAt(t: Table, service: Service, ps: seq<PortInst>, n: nat, u: Table)
    requires SERVICE in t && AllSound(ps)
  {
    && n <= |ps| && MatchesUpTo(service, ps, n) && AllSound(ps[..n])
    && if n < |service.ports| then
         if n == |ps| || service.clusterIP.None? then u == DropJumps(t, ps[..n])
         else !JumpMatches(service, n, ps[n]) && u == DropJumps(t, ps[..n])[ps[n].svc := []]
       else
         n < |ps| && |ps[n].pods| > 0 && u == (DropJumps(t, ps[..n]) - PodsOf(ps[..n]))[ps[n].pods[0] := []]
  }

  /** A removal event leaves everything in place, but for the DNAT rule of the first pod of the first port. */
  lemma RemovalEventFlushesFirstPod(t: Table, uid: string, ps: seq<PortInst>, n: nat, u: Table)
    requires SERVICE in t && AllSound(ps) && StoppedAt(t, Service(uid, map[], [], None), ps, n, u)
    ensures ps != [] && |ps[0].pods| > 0 && u == t[ps[0].pods[0] := []]
  {
    assert ps[..0] == [];
    assert t - {} == t;
  }

  // ----- Events -----

  /** A cached service with the answers the API server gives while it is added. */
  datatype Listed = Listed(service: Service, candidates: Option<seq<Pod>>, written: bool)

  datatype Event =
    | Create(added: Listed)
    | Update(updated: Listed)
    | Remove(removed: Service)
    | PodChange(labels: map<string, string>, cached: seq<Listed>)

  type Specs = map<string, Service>

  predicate Fixed(specs: Specs, service: Service) {
    service.uid in specs && specs[service.uid] == service
  }

  /** Every service an event mentions has the spec fixed for its UID. */
  predicate Steady(specs: Specs, e: Event) {
    match e
    case Create(l) => Fixed(specs, l.service)
    case Update(l) => Fixed(specs, l.service)
    case Remove(service) => Fixed(specs, service)
    case PodChange(_, cached) => AllFixed(specs, cached)
  }

  predicate AllFixed(specs: Specs, cached: seq<Listed>) {
    forall i :: 0 <= i < |cached| ==> Fixed(specs, cached[i].service)
  }

  /** Under this spec the service is taken down, if there is one. */
  ghost predicate TakesDown(service: Service, live: Live) {
    service.uid !in live || SameJumps(service, live[service.uid])
  }

  /** A deletion that fails leaves index and record alone. */
  ghost predicate FailsToDelete(s: State, service: Service, s': State) {
    && !TakesDown(service, s.live) && s'.live == s.live && SERVICE in s.table && AllSound(s.live[service.uid])
    && exists n :: StoppedAt(s.table, service, s.live[service.uid], n, s'.table)
  }

  /**
    What an addition that fails leaves: everything as it was, what a failed deletion leaves, the service
    taken down, or, if only the write of its endpoints failed, the service rebuilt.
   */
  ghost predicate FailsToAdd(s: State, service: Service, candidates: Option<seq<Pod>>, s': State) {
    if !PassesCheck(service) then s' == s
    else if !TakesDown(service, s.live) then FailsToDelete(s, service, s')
    else if candidates.None? then Torn(s, service.uid, s')
    else Rebuilt(s, service, FoundEndpoints(candidates), s')
  }

  ghost predicate FailsToReplace(s: State, l: Listed, s': State) {
    if !TakesDown(l.service, s.live) then FailsToDelete(s, l.service, s')
    else if !PassesCheck(l.service) || l.candidates.None? then Torn(s, l.service.uid, s')
    else Rebuilt(s, l.service, FoundEndpoints(l.candidates), s')
  }

  lemma TornAlready(s: State, mid: State, l: Listed, s': State)
    requires Torn(s, l.service.uid, mid) && TakesDown(l.service, s.live)
    ensures FailsToAdd(mid, l.service, l.candidates, s') ==> FailsToReplace(s, l, s')
  {
    if FailsToAdd(mid, l.service, l.candidates, s') && PassesCheck(l.service) && l.candidates.Some? {
      TearOnce(s, mid, l.service, FoundEndpoints(l.candidates), s');
    }
    hide Rebuilt, Removed, AllSound, PassesCheck;
  }

  ghost predicate RebuiltIfMatching(s: State, labels: map<string, string>, l: Listed, s': State) {
    if Compare.MatchLabelSelector(l.service.selector, labels)
    then Accepts(s.live, l.service, l.candidates, l.written) && Rebuilt(s, l.service, FoundEndpoints(l.candidates), s')
    else s' == s
  }

  /** The services whose selector matches are rebuilt one after the other. */
  ghost predicate RebuiltMatching(s: State, labels: map<string, string>, cached: seq<Listed>, s': State) {
    if cached == [] then s' == s
    else
      var front, last := cached[..|cached| - 1], cached[|cached| - 1];
      exists m :: RebuiltMatching(s, labels, front, m) && RebuiltIfMatching(m, labels, last, s')
  }

  /** The service is recorded as compiled for its current endpoints, or not at all if it has none. */
  ghost predicate Current(l: Listed, live: Live) {
    var podIPs := FoundEndpoints(l.candidates);
    if l.service.selector == map[] || podIPs == [] then l.service.uid !in live
    else l.service.uid in live && CompiledFrom(l.service, podIPs, live[l.service.uid])
  }

  ghost predicate SameAt(a: Live, b: Live, u: string) {
    (u in a <==> u in b) && (u in a ==> a[u] == b[u])
  }

  ghost predicate Touched(labels: map<string, string>, cached: seq<Listed>, u: string) {
    exists j :: 0 <= j < |cached| && cached[j].service.uid == u && Compare.MatchLabelSelector(cached[j].service.selector, labels)
  }

  /** Tearing down twice is tearing down once. */
  lemma TearOnce(s: State, mid: State, service: Service, podIPs: seq<string>, s': State)
    requires Torn(s, service.uid, mid)
    ensures Rebuilt(mid, service, podIPs, s') ==> Rebuilt(s, service, podIPs, s')
  {
    hide Built, Removed, AllSound;
  }

  lemma RebuildIsCurrent(m: State, l: Listed, s': State)
    requires Rebuilt(m, l.service, FoundEndpoints(l.candidates), s')
    ensures Current(l, s'.live)
    ensures forall u :: u != l.service.uid ==> SameAt(m.live, s'.live, u)
  {
    hide Good, CompiledFrom, Fresh, Install, Removed, FoundEndpoints, AllSound;
  }

  /** A pod change brings every matching service up to its current endpoints and leaves the others as they were. */
  lemma {:induction false} AfterPodChange(s: State, labels: map<string, string>, cached: seq<Listed>, s': State)
    requires RebuiltMatching(s, labels, cached, s')
    requires forall i, j :: 0 <= i < j < |cached| ==> cached[i].service.uid != cached[j].service.uid
    ensures forall j :: 0 <= j < |cached| && Compare.MatchLabelSelector(cached[j].service.selector, labels) ==>
              Current(cached[j], s'.live)
    ensures forall u :: !Touched(labels, cached, u) ==> SameAt(s.live, s'.live, u)
  {
    hide Rebuilt, Compare.MatchLabelSelector, CompiledFrom, FoundEndpoints;
    if cached != [] {
      var front, last := cached[..|cached| - 1], cached[|cached| - 1];
      var m :| RebuiltMatching(s, labels, front, m) && RebuiltIfMatching(m, labels, last, s');
      AfterPodChange(s, labels, front, m);
      if Compare.MatchLabelSelector(last.service.selector, labels) {
        RebuildIsCurrent(m, last, s');
      }
      forall j | 0 <= j < |front| && Compare.MatchLabelSelector(cached[j].service.selector, labels)
        ensures Current(cached[j], s'.live)
      {
        assert front[j] == cached[j] && SameAt(m.live, s'.live, cached[j].service.uid);
      }
      forall u | !Touched(labels, cached, u) ensures SameAt(s.live, s'.live, u) {
        assert forall j :: 0 <= j < |front| ==> front[j] == cached[j];
        assert !Touched(labels, front, u);
        assert SameAt(m.live, s'.live, u);
      }
    }
  }

  // ----- Runs of events -----

  /** What a successful event does, and when it is one. */
  ghost predicate EventDone(s: State, e: Event, s': State) {
    match e
    case Create(l) =>
      Accepts(s.live, l.service, l.candidates, l.written) && Rebuilt(s, l.service, FoundEndpoints(l.candidates), s')
    case Update(l) =>
      Accepts(s.live, l.service, l.candidates, l.written) && Rebuilt(s, l.service, FoundEndpoints(l.candidates), s')
    case Remove(service) => TakesDown(service, s.live) && Torn(s, service.uid, s')
    case PodChange(labels, cached) => RebuiltMatching(s, labels, cached, s')
  }

  /** The j-th service of the list matches and cannot be rebuilt; the ones before it have been. */
  ghost predicate PodChangeStops(s: State, labels: map<string, string>, cached: seq<Listed>, j: nat, m: State, s': State) {
    && j < |cached| && Compare.MatchLabelSelector(cached[j].service.selector, labels)
    && RebuiltMatching(s, labels, cached[..j], m)
    && !Accepts(m.live, cached[j].service, cached[j].candidates, cached[j].written) && FailsToReplace(m, cached[j], s')
  }

  ghost predicate EventFails(s: State, e: Event, s': State) {
    match e
    case Create(l) =>
      !Accepts(s.live, l.service, l.candidates, l.written) && FailsToAdd(s, l.service, l.candidates, s')
    case Update(l) => !Accepts(s.live, l.service, l.candidates, l.written) && FailsToReplace(s, l, s')
    case Remove(service) => FailsToDelete(s, service, s')
    case PodChange(labels, cached) => exists j, m :: PodChangeStops(s, labels, cached, j, m, s')
  }

  /** Each event does its work, one after the other. */
  ghost predicate AllDone(s: State, events: seq<Event>, s': State) {
    if events == [] then s' == s
    else
      var front, last := events[..|events| - 1], events[|events| - 1];
      exists m :: AllDone(s, front, m) && EventDone(m, last, s')
  }

  /** The first n events do their work, and the next one fails. */
  ghost predicate StopsAt(s: State, events: seq<Event>, n: nat, m: State, s': State) {
    n < |events| && AllDone(s, events[..n], m) && EventFails(m, events[n], s')
  }

  lemma OneMoreDone(s: State, events: seq<Event>, n: nat, m: State, s': State)
    requires n < |events| && AllDone(s, events[..n], m) && EventDone(m, events[n], s')
    ensures AllDone(s, events[..n + 1], s')
  {
    hide EventDone;
    assert events[..n + 1][..n] == events[..n] && events[..n + 1][n] == events[n];
  }

  ghost predicate Mentions(e: Event, u: string) {
    match e
    case Create(l) => l.service.uid == u
    case Update(l) => l.service.uid == u
    case Remove(service) => service.uid == u
    case PodChange(labels, cached) => Touched(labels, cached, u)
  }

  /** What the record says about u after an event that mentions it. */
  ghost predicate Says(e: Event, u: string, live: Live) {
    match e
    case Create(l) => Current(l, live)
    case Update(l) => Current(l, live)
    case Remove(_) => u !in live
    case PodChange(labels, cached) =>
      forall j :: 0 <= j < |cached| && cached[j].service.uid == u && Chosen(cached[j], labels) ==> Current(cached[j], live)
  }

  predicate Chosen(l: Listed, labels: map<string, string>) {
    Compare.MatchLabelSelector(l.service.selector, labels)
  }

  /** The informer's cache lists every service once. */
  predicate ListsOnce(e: Event) {
    e.PodChange? ==> forall i, j :: 0 <= i < j < |e.cached| ==> e.cached[i].service.uid != e.cached[j].service.uid
  }

  lemma EventSays(m: State, e: Event, s': State, u: string)
    requires EventDone(m, e, s') && ListsOnce(e)
    ensures if Mentions(e, u) then Says(e, u, s'.live) else SameAt(m.live, s'.live, u)
  {
    hide Rebuilt, Accepts, Current, FoundEndpoints, RebuiltMatching;
    match e {
      case Create(l) => RebuildIsCurrent(m, l, s');
      case Update(l) => RebuildIsCurrent(m, l, s');
      case Remove(service) => hide Removed, AllSound;
      case PodChange(labels, cached) => AfterPodChange(m, labels, cached, s');
    }
  }

  lemma SaysStill(e: Event, u: string, a: Live, b: Live)
    requires Mentions(e, u) && Says(e, u, a) && SameAt(a, b, u)
    ensures Says(e, u, b)
  {
    hide FoundEndpoints, CompiledFrom;
  }

  ghost predicate LastMention(events: seq<Event>, u: string, k: nat) {
    k < |events| && Mentions(events[k], u) && forall j :: k < j < |events| ==> !Mentions(events[j], u)
  }

  /**
    After a run of successful events the record of each service is what the last event that mentions it
    says, current for its endpoints or gone; a service no event mentions is as it was.
   */
  lemma {:induction false} LastEventWins(s: State, events: seq<Event>, s': State, u: string)
    requires AllDone(s, events, s') && forall i :: 0 <= i < |events| ==> ListsOnce(events[i])
    ensures forall k: nat :: LastMention(events, u, k) ==> Says(events[k], u, s'.live)
    ensures (forall i :: 0 <= i < |events| ==> !Mentions(events[i], u)) ==> SameAt(s.live, s'.live, u)
  {
    hide EventDone, Mentions, Says, ListsOnce;
    if events != [] {
      var front, last := events[..|events| - 1], events[|events| - 1];
      var m :| AllDone(s, front, m) && EventDone(m, last, s');
      assert forall i :: 0 <= i < |front| ==> front[i] == events[i];
      LastEventWins(s, front, m, u);
      EventSays(m, last, s', u);
      forall k: nat | LastMention(events, u, k) ensures Says(events[k], u, s'.live) {
        if k < |front| {
          assert !Mentions(last, u) && LastMention(front, u, k);
          SaysStill(front[k], u, m.live, s'.live);
        }
      }
    }
  }

  ghost predicate Faithful(specs: Specs, live: Live) {
    forall u :: u in live ==> u in specs && specs[u].uid == u && SameJumps(specs[u], live[u])
  }

  lemma FixedTakesDown(specs: Specs, live: Live, service: Service)
    ensures Faithful(specs, live) && Fixed(specs, service) ==> TakesDown(service, live)
  {
  }

  lemma FaithfulAfter(specs: Specs, before: Live, after: Live, service: Service)
    requires Faithful(specs, before) && Fixed(specs, service)
    requires forall u :: u in after ==>
      (u in before && after[u] == before[u]) || (u == service.uid && SameJumps(service, after[u]))
    ensures Faithful(specs, after)
  {
    hide SameJumps;
  }

  // ----- The runtime -----

  class Runtime {
    const ipt: IPTables
    var index: Index
    ghost var live: Live

    ghost function Abs(): State
      reads this, ipt
    {
      State(ipt.table, live)
    }

    ghost predicate Valid()
      reads this, ipt
    {
      Good(Abs()) && Agrees(index, live)
    }

    constructor (ipt: IPTables)
      requires Consistent(ipt.table, {}, {})
      ensures Valid() && this.ipt == ipt && live == map[] && fresh(this)
    {
      this.ipt := ipt;
      index, live := map[], map[];
      new;
      assert PortsOf(live) == {};
    }

    /** One pod of a port: its chain, the rule that leads to it, and its DNAT rule. */
    method MapPod(svc: Chain, j: nat, n: nat, dnat: Rule, ghost t0: Table, ghost pods: seq<Chain>, ghost jump: Rule, ghost dnats: seq<Rule>)
      returns (ok: bool, pod: Chain)
      requires SERVICE in t0 && svc.Svc? && |pods| == |dnats| == j && dnat.Dnat?
      requires ipt.table == Mapped(t0, svc, pods, n, jump, dnats)
      modifies ipt
      ensures ok && pod.SvcPod? && pod !in t0 && pod !in pods
      ensures ipt.table == Mapped(t0, svc, pods + [pod], n, jump, dnats + [dnat])
    {
      ghost var before := ipt.table;
      MappedKeys(t0, svc, pods, n, jump, dnats);
      var id := ipt.NewUuid();
      pod := SvcPod(id);
      ok := ipt.NewChain(pod);
      if ok {
        ok := ipt.Append(svc, PodRule(pod, n, j));
      }
      if ok {
        ok := ipt.Insert(pod, dnat);
      }
      assert [dnat] + [] == [dnat];
      MapOnePod(t0, svc, pods, n, jump, dnats, pod, dnat);
      assert ipt.table == before[pod := [dnat]][svc := before[svc] + [PodRule(pod, n, j)]];
    }

    /** Makes the chains of one port and writes their names into the index. */
    method MapPortToPods(service: Service, podIPs: seq<string>, port: ServicePort, idx: nat) returns (r: Outcome, ghost p: PortInst)
      requires SERVICE in ipt.table && service.clusterIP.Some? && |podIPs| >= 1
      requires service.uid in index && idx < |index[service.uid].svc| == |index[service.uid].pods|
      requires |index[service.uid].pods[idx]| == |podIPs|
      modifies `index, ipt
      ensures r == Done && Sound(p) && Owned(p) !! old(ipt.table).Keys
      ensures p.jump == JumpFor(service.clusterIP.value, port, p.svc) && p.dnats == DnatsFor(port, podIPs)
      ensures ipt.table == InstallPort(old(ipt.table), p)
      ensures index == old(index)[service.uid := Filled(old(index)[service.uid], idx, p)]
    {
      hide Mapped;
      ghost var t0 := ipt.table;
      var id := ipt.NewUuid();
      var svc := Svc(id);
      var jump := JumpFor(service.clusterIP.value, port, svc);
      var ok := ipt.NewChain(svc);
      if ok {
        ok := ipt.Insert(SERVICE, jump);
      }
      var el := index[service.uid];
      el := el.(svc := el.svc[idx := svc]);
      index := index[service.uid := el];
      ghost var pods: seq<Chain>, dnats: seq<Rule> := [], [];
      var row := el.pods[idx];
      MappedNone(t0, svc, |podIPs|, jump);
      assert el.pods[idx := row] == el.pods;
      for j := 0 to |podIPs|
        invariant ok && |pods| == |dnats| == j && |row| == |podIPs|
        invariant dnats == DnatsFor(port, podIPs)[..j]
        invariant NoRepeats(pods) && forall c :: c in pods ==> c.SvcPod? && c !in t0
        invariant ipt.table == Mapped(t0, svc, pods, |podIPs|, jump, dnats)
        invariant row[..j] == pods
        invariant index == old(index)[service.uid := el.(pods := el.pods[idx := row])]
      {
        var pod;
        ok, pod := MapPod(svc, j, |podIPs|, DnatFor(port, podIPs[j]), t0, pods, jump, dnats);
        row := row[j := pod];
        index := index[service.uid := el.(pods := el.pods[idx := row])];
        pods, dnats := pods + [pod], dnats + [DnatFor(port, podIPs[j])];
      }
      assert row == pods;
      p := PortInst(svc, pods, jump, dnats);
      r := if ok then Done else Failed;
    }

    /** Deletes one row of pod chains; it fails at the first one whose service chain still exists. */
    method DeleteRow(row: seq<Chain>, ghost ports: set<PortInst>, ghost orphans: set<Chain>, ghost p: PortInst) returns (ok: bool)
      requires row == p.pods && NoRepeats(row) && Consistent(ipt.table, ports, orphans)
      requires PodSet(p) <= orphans || p in ports
      modifies ipt
      ensures ok <==> p !in ports
      ensures ok ==> ipt.table == old(ipt.table) - PodSet(p) && Consistent(ipt.table, ports, orphans - PodSet(p))
      ensures !ok ==> |p.pods| > 0 && ipt.table == old(ipt.table)[p.pods[0] := []]
    {
      ok := true;
      ghost var gone: set<Chain> := {};
      for j := 0 to |row|
        invariant gone == set k | 0 <= k < j :: row[k]
        invariant ipt.table == old(ipt.table) - gone && Consistent(ipt.table, ports, orphans - gone)
        invariant p in ports ==> j == 0
      {
        assert row[j] in PodSet(p) && row[j] !in gone;
        if p in ports {
          assert old(ipt.table) - gone == old(ipt.table) && Holds(ipt.table, p);
          PodChainHeld(ipt.table, ports, orphans - gone, p);
        } else {
          DropOrphanKeepsConsistent(ipt.table, ports, orphans - gone, row[j]);
        }
        ok := ipt.ClearAndDeleteChain(row[j]);
        if !ok {
          return;
        }
        assert orphans - gone - {row[j]} == orphans - (gone + {row[j]});
        gone := gone + {row[j]};
      }
      assert gone == PodSet(p);
    }

    /** Takes out one SERVICE rule and its chain; it fails unless the rule is the recorded one. */
    method DeleteJump(jump: Rule, svc: Chain, ghost ports: set<PortInst>, ghost orphans: set<Chain>, ghost p: PortInst) returns (ok: bool)
      requires Consistent(ipt.table, ports, orphans) && p in ports && svc == p.svc && Target(jump) == Some(svc)
      modifies ipt
      ensures ok <==> jump == p.jump
      ensures ok ==> ipt.table == DropJump(old(ipt.table), p) && Consistent(ipt.table, ports - {p}, orphans + PodSet(p))
      ensures !ok ==> ipt.table == old(ipt.table)[svc := []]
    {
      OnlyOwnRuleFreesChain(ipt.table, ports, orphans, p, jump);
      DropJumpKeepsConsistent(ipt.table, ports, orphans, p);
      assert Holds(ipt.table, p);
      ipt.DeleteIfExists(SERVICE, jump);
      ok := ipt.ClearAndDeleteChain(svc);
    }

    /** First pass of a deletion: per port of the given spec, its SERVICE rule and its service chain. */
    method DeleteJumps(service: Service, svcs: seq<Chain>, ghost ports: set<PortInst>, ghost ps: seq<PortInst>)
      returns (r: Outcome, ghost left: set<PortInst>, ghost orphans: set<Chain>, ghost reached: nat)
      requires |svcs| == |ps| && NoRepeats(ps) && Elems(ps) <= ports && AllSound(ps)
      requires forall i :: 0 <= i < |ps| ==> svcs[i] == ps[i].svc
      requires Consistent(ipt.table, ports, {})
      modifies ipt
      ensures r == Done || r == Crashed
      ensures r == Done <==> MatchesUpTo(service, ps, |service.ports|)
      ensures r == Done ==>
        && ipt.table == DropJumps(old(ipt.table), ps[..|service.ports|])
        && left == ports - Elems(ps[..|service.ports|])
        && orphans == PodsOf(ps[..|service.ports|])
        && Consistent(ipt.table, left, orphans)
      ensures r != Done ==>
        SERVICE in old(ipt.table) && reached < |service.ports| && StoppedAt(old(ipt.table), service, ps, reached, ipt.table)
    {
      assert SERVICE in ipt.table;
      hide Consistent;
      left, orphans, reached := ports, {}, 0;
      for i := 0 to |service.ports|
        invariant MatchesUpTo(service, ps, i)
        invariant ipt.table == DropJumps(old(ipt.table), ps[..i])
        invariant left == ports - Elems(ps[..i]) && orphans == PodsOf(ps[..i])
        invariant Consistent(ipt.table, left, orphans)
      {
        reached := i;
        if i >= |svcs| || service.clusterIP.None? {
          assert i < |ps| ==> !JumpMatches(service, i, ps[i]);
          return Crashed, left, orphans, reached;
        }
        StillListed(ports, ps, i);
        NextJump(old(ipt.table), ports, ps, i);
        var jump := JumpFor(service.clusterIP.value, service.ports[i], svcs[i]);
        var ok := DeleteJump(jump, svcs[i], left, orphans, ps[i]);
        if !ok {
          assert !JumpMatches(service, i, ps[i]);
          return Crashed, left, orphans, reached;
        }
        left, orphans := left - {ps[i]}, orphans + PodSet(ps[i]);
      }
      r := Done;
    }

    /** Second pass of a deletion: all pod chains; it stops at a port the first pass did not reach. */
    method DeleteRows(rows: seq<seq<Chain>>, n: nat, ghost ports: set<PortInst>, ghost left: set<PortInst>, ghost ps: seq<PortInst>)
      returns (ok: bool)
      requires |rows| == |ps| && forall i :: 0 <= i < |ps| ==> rows[i] == ps[i].pods
      requires n <= |ps| && AllSound(ps) && PairwiseApart(ps) && NoRepeats(ps) && Elems(ps) <= ports
      requires left == ports - Elems(ps[..n]) && Consistent(ipt.table, left, PodsOf(ps[..n]))
      modifies ipt
      ensures ok <==> n == |ps|
      ensures ok ==> ipt.table == old(ipt.table) - PodsOf(ps) && Consistent(ipt.table, left, {})
      ensures !ok ==> n < |ps| && |ps[n].pods| > 0 && ipt.table == (old(ipt.table) - PodsOf(ps[..n]))[ps[n].pods[0] := []]
    {
      assert forall i :: 0 <= i < |ps| ==> NoRepeats(ps[i].pods) by {
        assert forall i :: 0 <= i < |ps| ==> ps[i] in ps && Sound(ps[i]);
      }
      hide Consistent, PodsOf, Elems, PodSet, AllSound, Sound, PairwiseApart, NoRepeats, RowsGone;
      ok := true;
      ghost var orphans := PodsOf(ps[..n]);
      NoRowGone(ipt.table, ps, n, left);
      for i := 0 to |rows|
        invariant RowsGone(old(ipt.table), ps, n, i, left, orphans, ipt.table)
      {
        RowsLeft(old(ipt.table), ports, ps, n, i, left, orphans, ipt.table);
        ghost var before := ipt.table;
        ok := DeleteRow(rows[i], left, orphans, ps[i]);
        if !ok {
          return;
        }
        RowGone(old(ipt.table), ps, n, i, left, orphans, before);
        orphans := orphans - PodSet(ps[i]);
      }
      AllRowsGone(old(ipt.table), ps, n, left, orphans, ipt.table);
    }

    /** Both passes of a deletion. */
    method TakeDown(service: Service, el: ServiceChainElement, ghost ports: set<PortInst>, ghost ps: seq<PortInst>) returns (r: Outcome)
      requires Records(el, ps) && AllSound(ps) && PairwiseApart(ps) && NoRepeats(ps) && Elems(ps) <= ports
      requires Consistent(ipt.table, ports, {})
      modifies ipt
      ensures r == Done <==> SameJumps(service, ps)
      ensures r == Done ==> SERVICE in old(ipt.table) && ipt.table == Removed(old(ipt.table), ps)
      ensures r == Done ==> Consistent(ipt.table, ports - Elems(ps), {})
      ensures r != Done ==> SERVICE in old(ipt.table) && exists n :: StoppedAt(old(ipt.table), service, ps, n, ipt.table)
    {
      assert SERVICE in ipt.table && ps[..|ps|] == ps;
      hide Consistent, PodsOf, Elems, DropJumps, PairwiseApart, AllSound;
      ghost var left, orphans, reached;
      r, left, orphans, reached := DeleteJumps(service, el.svc, ports, ps);
      if r != Done {
        return;
      }
      var ok := DeleteRows(el.pods, |service.ports|, ports, left, ps);
      if !ok {
        assert StoppedAt(old(ipt.table), service, ps, |service.ports|, ipt.table);
        return Failed;
      }
    }

    /** Takes a service down. It succeeds exactly when the given spec has the ports that were added. */
    method DeleteService(service: Service) returns (r: Outcome)
      requires Valid()
      modifies this, ipt
      ensures r == Done <==> service.uid !in old(live) || SameJumps(service, old(live)[service.uid])
      ensures r == Done ==> Valid() && Torn(old(Abs()), service.uid, Abs())
      ensures r != Done ==> index == old(index) && live == old(live)
      ensures r != Done ==>
        && service.uid in old(live) && SERVICE in old(ipt.table) && AllSound(old(live)[service.uid])
        && exists n :: StoppedAt(old(ipt.table), service, old(live)[service.uid], n, ipt.table)
    {
      if service.uid !in index {
        return Done;
      }
      ghost var before := Abs();
      RecordedPortsApart(before, service.uid);
      AgreesAfterRemoval(index, live, service.uid);
      hide Good, Consistent, PortsOf, Elems, Removed, PairwiseApart, AllSound, Agrees, Records, SameJumps, NoRepeats, StoppedAt;
      r := TakeDown(service, index[service.uid], PortsOf(live), live[service.uid]);
      if r == Done {
        GoodAfterRemoval(before, service.uid, ipt.table);
        index := index - {service.uid};
        live := live - {service.uid};
      }
    }

    method SelectEndpoints(pods: seq<Pod>) returns (podIPs: seq<string>)
      ensures podIPs == Endpoints(pods)
    {
      podIPs := [];
      for i := 0 to |pods|
        invariant podIPs == Endpoints(pods[..i])
      {
        assert pods[..i + 1][..i] == pods[..i];
        if pods[i].ip.Some? && pods[i].running {
          podIPs := podIPs + [pods[i].ip.value];
        }
      }
      assert pods[..|pods|] == pods;
    }

    /** Maps every port of a service whose index entry has been made with empty slots. */
    method MapPorts(service: Service, podIPs: seq<string>) returns (r: Outcome, ghost ps: seq<PortInst>)
      requires SERVICE in ipt.table && service.clusterIP.Some? && |podIPs| >= 1
      requires service.uid in index && RecordsSoFar(index[service.uid], [], |service.ports|, |podIPs|)
      modifies `index, ipt
      ensures r == Done && CompiledFrom(service, podIPs, ps) && Fresh(old(ipt.table), ps)
      ensures ipt.table == Install(old(ipt.table), ps)
      ensures service.uid in index && Records(index[service.uid], ps)
      ensures index == old(index)[service.uid := index[service.uid]]
    {
      r, ps := Done, [];
      assert Progress(service, podIPs, ipt.table, ps, ipt.table, index[service.uid]);
      hide Filled, JumpFor, DnatsFor, Progress, Install, InstallPort, Sound, Owned, RecordsSoFar, CompiledFrom, Records, Fresh;
      for i := 0 to |service.ports|
        invariant r == Done && |ps| == i
        invariant service.uid in index && index == old(index)[service.uid := index[service.uid]]
        invariant Progress(service, podIPs, old(ipt.table), ps, ipt.table, index[service.uid])
      {
        ghost var el, u := index[service.uid], ipt.table;
        ProgressSlots(service, podIPs, old(ipt.table), ps, u, el);
        ghost var p;
        r, p := MapPortToPods(service, podIPs, service.ports[i], i);
        ProgressOfOne(service, podIPs, old(ipt.table), ps, u, el, p);
        ps := ps + [p];
        if r != Done {
          return;
        }
      }
      ProgressDone(service, podIPs, old(ipt.table), ps, ipt.table, index[service.uid]);
    }

    /** Records an unrecorded service and maps its ports. */
    method BuildService(service: Service, podIPs: seq<string>) returns (r: Outcome)
      requires Valid() && service.uid !in live && service.clusterIP.Some?
      requires podIPs != [] && service.selector != map[]
      modifies this, ipt
      ensures r == Done && Valid() && Built(old(Abs()), service, podIPs, Abs())
      ensures exists ps :: SameJumps(service, ps) && live == old(live)[service.uid := ps]
    {
      ghost var before, oldIndex := Abs(), index;
      var blank := seq(|service.ports|, _ => Builtin(""));
      var blanks := seq(|service.ports|, _ => seq(|podIPs|, _ => Builtin("")));
      index := index[service.uid := ServiceChainElement(blank, blanks, |podIPs|)];
      ghost var ps;
      r, ps := MapPorts(service, podIPs);
      live := live[service.uid := ps];
      assert index == oldIndex[service.uid := index[service.uid]];
      AgreesAfterAddition(oldIndex, before.live, service.uid, index[service.uid], ps);
      hide Good, Agrees, Records, Fresh, Install, Consistent, Built, CompiledFrom;
      BuiltIsGood(before, service, podIPs, ps, ipt.table);
    }

    /** Compiles a service into chains, replacing what is recorded under its UID. */
    method AddService(service: Service, candidates: Option<seq<Pod>>, written: bool) returns (r: Outcome)
      requires Valid()
      modifies this, ipt
      ensures r == Done <==> Accepts(old(live), service, candidates, written)
      ensures r == Done ==> Rebuilt(old(Abs()), service, FoundEndpoints(candidates), Abs())
      ensures r != Done ==> FailsToAdd(old(Abs()), service, candidates, Abs())
      ensures r == Done || TakesDown(service, old(live)) ==> Valid()
      ensures forall u :: u in live ==>
        (u in old(live) && live[u] == old(live)[u]) || (u == service.uid && SameJumps(service, live[u]))
    {
      hide Good, BuiltAs, Endpoints, Removed, StoppedAt, SameJumps;
      if service.clusterIP.None? || exists i :: 0 <= i < |service.ports| && service.ports[i].targetPort == 0 {
        return Failed;
      }
      if service.uid in index {
        r := DeleteService(service);
        if r != Done {
          return;
        }
      }
      ghost var mid := Abs();
      assert Torn(old(Abs()), service.uid, mid);
      if service.selector == map[] {
        return Done;
      }
      if candidates.None? {
        return Failed;
      }
      var podIPs := SelectEndpoints(candidates.value);
      if podIPs == [] {
        return Done;
      }
      r := BuildService(service, podIPs);
      if r == Done && !written {
        return Crashed;
      }
    }

    /** Deletes and adds one service, as an update event and a pod change do, whatever its spec is now. */
    method ReplaceService(l: Listed) returns (r: Outcome)
      requires Valid()
      modifies this, ipt
      ensures r == Done <==> Accepts(old(live), l.service, l.candidates, l.written)
      ensures r == Done ==> Rebuilt(old(Abs()), l.service, FoundEndpoints(l.candidates), Abs())
      ensures r != Done ==> FailsToReplace(old(Abs()), l, Abs())
      ensures r == Done || TakesDown(l.service, old(live)) ==> Valid()
      ensures forall u :: u in live ==>
        (u in old(live) && live[u] == old(live)[u]) || (u == l.service.uid && SameJumps(l.service, live[u]))
    {
      hide Good, Removed, StoppedAt, SameJumps;
      r := DeleteService(l.service);
      if r == Done {
        ghost var mid := Abs();
        r := AddService(l.service, l.candidates, l.written);
        TearOnce(old(Abs()), mid, l.service, FoundEndpoints(l.candidates), Abs());
        TornAlready(old(Abs()), mid, l, Abs());
      }
    }

    /** Rebuilds every cached service whose selector matches the changed pod; it stops at the first one that fails. */
    method ModifyPod(labels: map<string, string>, cached: seq<Listed>, ghost specs: Specs) returns (r: Outcome)
      requires Valid()
      modifies this, ipt
      ensures r == Done ==> Valid() && RebuiltMatching(old(Abs()), labels, cached, Abs())
      ensures r != Done ==> exists j, m :: PodChangeStops(old(Abs()), labels, cached, j, m, Abs())
      ensures Faithful(specs, old(live)) && AllFixed(specs, cached) ==> Valid() && Faithful(specs, live)
    {
      hide Good, Accepts, Rebuilt, FailsToReplace, SameJumps;
      r := Done;
      ghost var steady := Faithful(specs, live) && AllFixed(specs, cached);
      for i := 0 to |cached|
        invariant Valid() && r == Done && (steady ==> Faithful(specs, live))
        invariant RebuiltMatching(old(Abs()), labels, cached[..i], Abs())
      {
        assert cached[..i + 1][..i] == cached[..i];
        ghost var before := Abs();
        if Compare.MatchLabelSelector(cached[i].service.selector, labels) {
          FixedTakesDown(specs, live, cached[i].service);
          r := ReplaceService(cached[i]);
          if steady {
            FaithfulAfter(specs, before.live, live, cached[i].service);
          }
          if r != Done {
            assert PodChangeStops(old(Abs()), labels, cached, i, before, Abs());
            return;
          }
        }
        assert RebuiltIfMatching(before, labels, cached[i], Abs());
      }
      assert cached[..|cached|] == cached;
    }

    /**
      Any run of events, until one fails. Done means that every event did its work, in order; else some
      event failed, and the ones before it did their work. While all succeed, table, index and record
      agree whatever the specs; with one spec for each UID they agree even when it stops.
     */
    method Sync(events: seq<Event>, ghost specs: Specs) returns (r: Outcome)
      requires Valid()
      modifies this, ipt
      ensures r == Done ==> Valid() && AllDone(old(Abs()), events, Abs())
      ensures r != Done ==> exists n, m :: StopsAt(old(Abs()), events, n, m, Abs())
      ensures Faithful(specs, old(live)) && (forall i :: 0 <= i < |events| ==> Steady(specs, events[i])) ==>
        Valid() && Faithful(specs, live)
    {
      hide Good, Accepts, Rebuilt, Torn, FailsToAdd, FailsToReplace, StoppedAt, SameJumps, RebuiltMatching, AllDone;
      r := Done;
      ghost var steady := Faithful(specs, live) && forall i :: 0 <= i < |events| ==> Steady(specs, events[i]);
      NoneDone(Abs());
      for i := 0 to |events|
        invariant Valid() && r == Done && (steady ==> Faithful(specs, live))
        invariant AllDone(old(Abs()), events[..i], Abs())
      {
        assert steady ==> Steady(specs, events[i]);
        ghost var before := Abs();
        match events[i] {
          case Create(l) =>
            FixedTakesDown(specs, live, l.service);
            r := AddService(l.service, l.candidates, l.written);
            if steady { FaithfulAfter(specs, before.live, live, l.service); }
          case Update(l) =>
            FixedTakesDown(specs, live, l.service);
            r := ReplaceService(l);
            if steady { FaithfulAfter(specs, before.live, live, l.service); }
          case Remove(service) =>
            FixedTakesDown(specs, live, service);
            r := DeleteService(service);
            TornLeaves(before, service.uid, Abs());
            if steady { FaithfulAfter(specs, before.live, live, service); }
          case PodChange(labels, cached) =>
            r := ModifyPod(labels, cached, specs);
        }
        if r != Done {
          assert StopsAt(old(Abs()), events, i, before, Abs());
          return;
        }
        OneMoreDone(old(Abs()), events, i, before, Abs());
      }
      assert events[..|events|] == events;
    }
  }

  lemma NoneDone(s: State)
    ensures AllDone(s, [], s)
  {
  }

  lemma TornLeaves(s: State, uid: string, s': State)
    ensures Torn(s, uid, s') ==> s'.live == s.live - {uid}
  {
  }
}
