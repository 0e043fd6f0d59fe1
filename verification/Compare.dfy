/** Comparison of API objects (pkg/object/compare.go). */
module Compare {

  type Labels = map<string, string>

  datatype Volume = Volume(name: string, hostPath: string)

  datatype VolumeMount = VolumeMount(name: string, mountPath: string)

  datatype ContainerPort =
    ContainerPort(name: string, hostPort: int, containerPort: int, protocol: string, hostIP: string)

  datatype Resources = NoResources | Resources(cpus: real, memory: int)

  datatype Container = Container(
    name: string, image: string, command: seq<string>, args: seq<string>, resources: Resources,
    volumeMounts: seq<VolumeMount>, ports: seq<ContainerPort>)

  datatype PodSpec = PodSpec(selector: Labels, containers: seq<Container>, volumes: seq<Volume>)

  datatype ObjectMeta = ObjectMeta(uid: string, name: string, namespace: string, labels: Labels, annotations: Labels)

  /** Every selector entry is among the labels; the empty selector matches everything. */
  predicate MatchLabelSelector(selector: map<string, string>, labels: map<string, string>) {
    forall k :: k in selector ==> k in labels && labels[k] == selector[k]
  }

  /** A selector matches exactly the labels that, restricted to its keys, are the selector. */
  lemma MatchIsRestriction(selector: Labels, labels: Labels)
    ensures MatchLabelSelector(selector, labels) <==> (map k | k in labels && k in selector :: labels[k]) == selector
  {
    var part := map k | k in labels && k in selector :: labels[k];
    if part == selector {
      assert forall k :: k in selector ==> k in part;
    }
    if MatchLabelSelector(selector, labels) {
      assert part.Keys == selector.Keys;
    }
  }

  /** Sizes are compared first, then the entries of the previous map only. */
  predicate MapChange(cur: Labels, prev: Labels) {
    |cur| != |prev| || exists k :: k in prev && (k !in cur || cur[k] != prev[k])
  }

  predicate ListChange<T(==)>(cur: seq<T>, prev: seq<T>) {
    |cur| != |prev| || exists i :: 0 <= i < |prev| && cur[i] != prev[i]
  }

  /** Objects with different identifiers are not compared: the code panics. */
  predicate ComputeObjectMetaChange(cur: ObjectMeta, prev: ObjectMeta)
    requires cur.uid == prev.uid
  {
    cur.name != prev.name || MapChange(cur.labels, prev.labels)
  }

  predicate ResourcesChange(cur: Resources, prev: Resources) {
    if cur.Resources? && prev.Resources? then cur.cpus != prev.cpus || cur.memory != prev.memory
    else cur.Resources? || prev.Resources?
  }

  predicate MountsChange(cur: seq<VolumeMount>, prev: seq<VolumeMount>) {
    |cur| != |prev| ||
    exists i :: 0 <= i < |prev| && (cur[i].name != prev[i].name || cur[i].mountPath != prev[i].mountPath)
  }

  predicate PortsChange(cur: seq<ContainerPort>, prev: seq<ContainerPort>) {
    |cur| != |prev| ||
    exists i :: 0 <= i < |prev| &&
      (cur[i].name != prev[i].name || cur[i].hostPort != prev[i].hostPort || cur[i].hostIP != prev[i].hostIP
       || cur[i].containerPort != prev[i].containerPort || cur[i].protocol != prev[i].protocol)
  }

  predicate ComputeContainerSpecChange(cur: Container, prev: Container) {
    cur.name != prev.name || cur.image != prev.image
    || ListChange(cur.command, prev.command) || ListChange(cur.args, prev.args)
    || ResourcesChange(cur.resources, prev.resources)
    || MountsChange(cur.volumeMounts, prev.volumeMounts)
    || PortsChange(cur.ports, prev.ports)
  }

  predicate VolumesChange(cur: seq<Volume>, prev: seq<Volume>) {
    |cur| != |prev| ||
    exists i :: 0 <= i < |prev| && (cur[i].hostPath != prev[i].hostPath || cur[i].name != prev[i].name)
  }

  predicate ComputePodSpecChange(cur: PodSpec, prev: PodSpec) {
    |cur.containers| != |prev.containers|
    || (exists i :: 0 <= i < |prev.containers| && ComputeContainerSpecChange(cur.containers[i], prev.containers[i]))
    || VolumesChange(cur.volumes, prev.volumes)
  }

  // ----- No change is equality of the compared fields, hence an equivalence -----

  lemma MapChangeIff(cur: Labels, prev: Labels)
    ensures MapChange(cur, prev) <==> cur != prev
  {
    if !MapChange(cur, prev) {
      assert prev.Keys <= cur.Keys;
      assert |cur.Keys| == |cur| && |prev.Keys| == |prev|;
      assert |cur.Keys - prev.Keys| == |cur.Keys| - |prev.Keys|;
      assert cur.Keys == prev.Keys;
      assert forall k :: k in cur ==> cur[k] == prev[k];
      assert cur == prev;
    }
  }

  lemma ContainerChangeIff(cur: Container, prev: Container)
    ensures ComputeContainerSpecChange(cur, prev) <==> cur != prev
  {
    if !ComputeContainerSpecChange(cur, prev) {
      assert cur.command == prev.command && cur.args == prev.args;
      assert forall i :: 0 <= i < |prev.volumeMounts| ==> cur.volumeMounts[i] == prev.volumeMounts[i];
      assert forall i :: 0 <= i < |prev.ports| ==> cur.ports[i] == prev.ports[i];
      assert cur.volumeMounts == prev.volumeMounts && cur.ports == prev.ports;
    }
  }

  lemma PodSpecChangeIff(cur: PodSpec, prev: PodSpec)
    ensures ComputePodSpecChange(cur, prev) <==> cur.containers != prev.containers || cur.volumes != prev.volumes
  {
    forall i | 0 <= i < |prev.containers| && i < |cur.containers|
      ensures ComputeContainerSpecChange(cur.containers[i], prev.containers[i]) <==> cur.containers[i] != prev.containers[i]
    {
      ContainerChangeIff(cur.containers[i], prev.containers[i]);
    }
    hide ComputeContainerSpecChange;
    if !ComputePodSpecChange(cur, prev) {
      assert forall i :: 0 <= i < |prev.volumes| ==> cur.volumes[i] == prev.volumes[i];
      assert cur.containers == prev.containers && cur.volumes == prev.volumes;
    }
  }

  // ----- Services -----

  datatype ServicePort = ServicePort(protocol: string, port: int, targetPort: int, targetPortName: string)

  datatype ServiceSpec = ServiceSpec(selector: Labels, ports: seq<ServicePort>, clusterIP: string)

  function Key(p: ServicePort): (string, int, int) {
    (p.protocol, p.port, p.targetPort)
  }

  function Keys(ps: seq<ServicePort>): (ks: seq<(string, int, int)>)
    ensures |ks| == |ps| && forall i :: 0 <= i < |ps| ==> ks[i] == Key(ps[i])
  {
    seq(|ps|, i requires 0 <= i < |ps| => Key(ps[i]))
  }

  /** Every previous port must have a new port with the same protocol, port and target; not the other way round. */
  predicate ComputeServiceCriticalChange(cur: ServiceSpec, prev: ServiceSpec) {
    MapChange(cur.selector, prev.selector)
    || |cur.ports| != |prev.ports|
    || (exists i :: 0 <= i < |prev.ports| && forall j :: 0 <= j < |cur.ports| ==> Key(cur.ports[j]) != Key(prev.ports[i]))
    || cur.clusterIP != prev.clusterIP
  }

  /** A list of different elements, each of them in an equally long list, is a reordering of it. */
  lemma {:induction false} DistinctCover<T>(small: seq<T>, big: seq<T>)
    requires |small| == |big| && (forall i, j :: 0 <= i < j < |small| ==> small[i] != small[j])
    requires forall x :: x in small ==> x in big
    ensures multiset(small) == multiset(big)
  {
    if small != [] {
      var k := |small| - 1;
      var x := small[k];
      assert x in small && x in big;
      var j :| 0 <= j < |big| && big[j] == x;
      var rest := big[..j] + big[j + 1..];
      forall y | y in small[..k] ensures y in rest {
        assert y in small && y in big;
        var i :| 0 <= i < |big| && big[i] == y;
        assert i != j;
        if i < j { assert rest[i] == y; } else { assert rest[i - 1] == y; }
      }
      DistinctCover(small[..k], rest);
      assert small == small[..k] + [x];
      assert big == big[..j] + [x] + big[j + 1..];
    }
  }

  /** With different previous ports, no change means equal selector and address, and the same ports in some order. */
  lemma ServiceChangeIff(cur: ServiceSpec, prev: ServiceSpec)
    requires forall i, j :: 0 <= i < j < |prev.ports| ==> Key(prev.ports[i]) != Key(prev.ports[j])
    ensures
      ComputeServiceCriticalChange(cur, prev) <==>
      cur.selector != prev.selector || cur.clusterIP != prev.clusterIP
      || multiset(Keys(cur.ports)) != multiset(Keys(prev.ports))
  {
    MapChangeIff(cur.selector, prev.selector);
    var now, was := Keys(cur.ports), Keys(prev.ports);
    assert |multiset(now)| == |now| && |multiset(was)| == |was|;
    if !ComputeServiceCriticalChange(cur, prev) {
      forall x | x in was ensures x in now {
        var i :| 0 <= i < |was| && was[i] == x;
        assert !(forall j :: 0 <= j < |cur.ports| ==> Key(cur.ports[j]) != Key(prev.ports[i]));
        var j :| 0 <= j < |cur.ports| && Key(cur.ports[j]) == Key(prev.ports[i]);
        assert now[j] == x;
      }
      DistinctCover(was, now);
    } else if multiset(now) == multiset(was) {
      forall i | 0 <= i < |prev.ports|
        ensures !(forall j :: 0 <= j < |cur.ports| ==> Key(cur.ports[j]) != Key(prev.ports[i]))
      {
        assert was[i] in multiset(was) && was[i] in multiset(now);
        var j :| 0 <= j < |now| && now[j] == was[i];
        assert Key(cur.ports[j]) == Key(prev.ports[i]);
      }
    }
  }

  // ----- Which previous specs can hide a change -----

  function LongestProtocol(ps: seq<ServicePort>): (n: nat)
    ensures forall i :: 0 <= i < |ps| ==> |ps[i].protocol| <= n
  {
    if ps == [] then 0 else
    var m, k := LongestProtocol(ps[..|ps| - 1]), |ps[|ps| - 1].protocol|;
    if k > m then k else m
  }

  /** A port whose key none of the given ones has. */
  function OtherPort(ps: seq<ServicePort>): (p: ServicePort)
    ensures forall i :: 0 <= i < |ps| ==> Key(ps[i]) != Key(p)
  {
    var p := ServicePort(seq(LongestProtocol(ps) + 1, _ => 'x'), 0, 0, "");
    assert forall i :: 0 <= i < |ps| ==> |ps[i].protocol| < |p.protocol|;
    p
  }

  ghost predicate DistinctPorts(s: ServiceSpec) {
    forall i, j :: 0 <= i < j < |s.ports| ==> Key(s.ports[i]) != Key(s.ports[j])
  }

  /** Nothing that matters differs: selector, address, and the ports up to their order. */
  ghost predicate SameService(cur: ServiceSpec, prev: ServiceSpec) {
    cur.selector == prev.selector && cur.clusterIP == prev.clusterIP && multiset(Keys(cur.ports)) == multiset(Keys(prev.ports))
  }

  /** One copy of a repeated port is replaced, and no change is seen. */
  lemma RepeatHides(prev: ServiceSpec, i: nat, j: nat) returns (cur: ServiceSpec)
    requires i < j < |prev.ports| && Key(prev.ports[i]) == Key(prev.ports[j])
    ensures !ComputeServiceCriticalChange(cur, prev) && !SameService(cur, prev)
  {
    var p := OtherPort(prev.ports);
    cur := prev.(ports := prev.ports[j := p]);
    MapChangeIff(cur.selector, prev.selector);
    forall k | 0 <= k < |prev.ports|
      ensures !(forall m :: 0 <= m < |cur.ports| ==> Key(cur.ports[m]) != Key(prev.ports[k]))
    {
      assert Key(cur.ports[if k == j then i else k]) == Key(prev.ports[k]);
    }
    assert Keys(cur.ports)[j] in multiset(Keys(cur.ports));
    assert Key(p) !in Keys(prev.ports);
  }

  /** The comparison sees exactly the changes that matter, whatever comes next, if and only if the previous ports are all different. */
  lemma ServiceChangeExactIff(prev: ServiceSpec)
    ensures (forall cur :: ComputeServiceCriticalChange(cur, prev) <==> !SameService(cur, prev)) <==> DistinctPorts(prev)
  {
    if DistinctPorts(prev) {
      forall cur ensures ComputeServiceCriticalChange(cur, prev) <==> !SameService(cur, prev) {
        ServiceChangeIff(cur, prev);
      }
    } else {
      var i, j :| 0 <= i < j < |prev.ports| && Key(prev.ports[i]) == Key(prev.ports[j]);
      var cur := RepeatHides(prev, i, j);
    }
  }

  /** With a repeated previous port a new second port goes unnoticed. */
  lemma RepeatedPortHidesChange(a: ServicePort, b: ServicePort, selector: Labels, ip: string)
    requires Key(a) != Key(b)
    ensures !ComputeServiceCriticalChange(ServiceSpec(selector, [a, b], ip), ServiceSpec(selector, [a, a], ip))
    ensures ComputeServiceCriticalChange(ServiceSpec(selector, [a, a], ip), ServiceSpec(selector, [a, b], ip))
  {
    var ab, aa := ServiceSpec(selector, [a, b], ip), ServiceSpec(selector, [a, a], ip);
    assert Key(ab.ports[0]) == Key(aa.ports[0]) == Key(aa.ports[1]);
    assert forall j :: 0 <= j < |aa.ports| ==> Key(aa.ports[j]) != Key(ab.ports[1]);
  }
}
