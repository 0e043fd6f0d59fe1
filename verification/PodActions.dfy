/** What the node does to bring a pod to its spec (pkg/cubelet/cuberuntime/cuberuntime_manager.go). */
module PodActions {
  import opened Slices

  datatype Sandbox = Sandbox(id: string, ready: bool, ip: string)

  datatype ContainerStatus = ContainerStatus(id: string, name: string, running: bool)

  datatype PodStatus = PodStatus(sandboxes: seq<Sandbox>, containers: seq<ContainerStatus>)

  datatype Actions = Actions(killPod: bool, createSandbox: bool, sandboxId: string, toStart: seq<nat>, toKill: seq<string>)

  datatype Outcome = Planned(actions: Actions) | Panicked

  function PodSandboxChanged(p: PodStatus): (bool, string) {
    if |p.sandboxes| == 0 then (true, "")
    else
      var s := p.sandboxes[0];
      (!s.ready || s.ip == "", s.id)
  }

  function Ids(cs: seq<ContainerStatus>): (r: seq<string>)
    ensures |r| == |cs|
  {
    if cs == [] then [] else Ids(cs[..|cs| - 1]) + [cs[|cs| - 1].id]
  }

  /** The first container of that name, by index; |cs| if there is none. */
  function Find(cs: seq<ContainerStatus>, name: string): (k: nat)
    ensures k <= |cs| && (k < |cs| ==> cs[k].name == name)
    ensures forall j :: 0 <= j < k ==> cs[j].name != name
  {
    if cs == [] then 0 else if cs[0].name == name then 0 else 1 + Find(cs[1..], name)
  }

  predicate Runs(cs: seq<ContainerStatus>, name: string) {
    var k := Find(cs, name);
    k < |cs| && cs[k].running
  }

  predicate IsStale(cs: seq<ContainerStatus>, name: string) {
    var k := Find(cs, name);
    k < |cs| && !cs[k].running
  }

  /** Spec containers, by index, whose container does not run. */
  function Starts(cs: seq<ContainerStatus>, names: seq<string>): seq<nat> {
    if names == [] then [] else
    var k := |names| - 1;
    Starts(cs, names[..k]) + if Runs(cs, names[k]) then [] else [k]
  }

  /** The stopped containers that spec containers name, in spec order. */
  function Stale(cs: seq<ContainerStatus>, names: seq<string>): seq<string> {
    if names == [] then [] else
    var k := |names| - 1;
    Stale(cs, names[..k]) + if IsStale(cs, names[k]) then [cs[Find(cs, names[k])].id] else []
  }

  /** The running containers that spec containers name, in spec order. */
  function Kept(cs: seq<ContainerStatus>, names: seq<string>): seq<string> {
    if names == [] then [] else
    var k := |names| - 1;
    Kept(cs, names[..k]) + if Runs(cs, names[k]) then [cs[Find(cs, names[k])].id] else []
  }

  datatype Rest = Rest(ids: seq<string>) | OutOfBounds

  /** The splice takes the first element when the identifier is missing, and panics on an empty slice. */
  function Splice(r: Rest, id: string): Rest {
    if r.OutOfBounds? || r.ids == [] then OutOfBounds
    else if id in r.ids then Rest(RemoveFirst(r.ids, id))
    else Rest(r.ids[1..])
  }

  function SpliceAll(ids: seq<string>, kept: seq<string>): Rest {
    if kept == [] then Rest(ids) else Splice(SpliceAll(ids, kept[..|kept| - 1]), kept[|kept| - 1])
  }

  function AllIndices(n: nat): seq<nat> {
    if n == 0 then [] else AllIndices(n - 1) + [n - 1]
  }

  function Plan(names: seq<string>, p: PodStatus): Outcome {
    var (changed, id) := PodSandboxChanged(p);
    var cs := p.containers;
    if changed then
      Planned(Actions(true, names != [], id, AllIndices(|names|), Ids(cs)))
    else
      match SpliceAll(Ids(cs), Kept(cs, names))
      case OutOfBounds => Panicked
      case Rest(ids) => Planned(Actions(false, false, id, Starts(cs, names), Stale(cs, names) + ids))
  }

  // ----- The splices -----

  lemma NoRepeatsSnoc(s: seq<string>, x: string)
    ensures NoRepeats(s + [x]) <==> NoRepeats(s) && x !in s
  {
    var more := s + [x];
    assert forall i :: 0 <= i < |s| ==> more[i] == s[i];
    assert more[|s|] == x;
    if NoRepeats(more) {
      forall i | 0 <= i < |s| ensures s[i] != x { assert more[i] != more[|s|]; }
      forall i, j | 0 <= i < j < |s| ensures s[i] != s[j] { assert more[i] != more[j]; }
    }
  }

  lemma SpliceAllSnoc(ids: seq<string>, kept: seq<string>, x: string)
    ensures SpliceAll(ids, kept + [x]) == Splice(SpliceAll(ids, kept), x)
  {
    assert (kept + [x])[..|kept|] == kept;
  }

  lemma {:induction false} SpliceSizes(ids: seq<string>, kept: seq<string>)
    ensures var r := SpliceAll(ids, kept); r.Rest? ==> |r.ids| == |ids| - |kept|
  {
    if kept != [] {
      var front := kept[..|kept| - 1];
      SpliceSizes(ids, front);
      var r := SpliceAll(ids, front);
      if r.Rest? && kept[|kept| - 1] in r.ids {
        RemoveFirstSize(r.ids, kept[|kept| - 1]);
      }
    }
  }

  lemma {:induction false} DistinctSplices(ids: seq<string>, kept: seq<string>)
    requires NoRepeats(ids) && NoRepeats(kept) && forall x :: x in kept ==> x in ids
    ensures SpliceAll(ids, kept).Rest? && NoRepeats(SpliceAll(ids, kept).ids)
    ensures forall x :: x in SpliceAll(ids, kept).ids <==> x in ids && x !in kept
  {
    if kept != [] {
      var front, last := kept[..|kept| - 1], kept[|kept| - 1];
      assert kept == front + [last];
      NoRepeatsSnoc(front, last);
      DistinctSplices(ids, front);
      assert last in SpliceAll(ids, front).ids;
      RemoveFirstOfDistinct(SpliceAll(ids, front).ids, last);
    }
  }

  /** Exactly the kept identifiers are taken out, precisely when none is kept twice. */
  lemma SplicesAreRightIff(ids: seq<string>, kept: seq<string>)
    requires NoRepeats(ids) && forall x :: x in kept ==> x in ids
    ensures
      var r := SpliceAll(ids, kept);
      r.Rest? && NoRepeats(r.ids) && Elements(r.ids) == Elements(ids) - Elements(kept) <==> NoRepeats(kept)
  {
    var r := SpliceAll(ids, kept);
    if NoRepeats(kept) {
      DistinctSplices(ids, kept);
    } else if r.Rest? && NoRepeats(r.ids) {
      SpliceSizes(ids, kept);
      SizeOfDistinct(r.ids);
      SizeOfDistinct(ids);
      RepeatsShrink(kept);
      assert |Elements(ids)| == |Elements(ids) - Elements(kept)| + |Elements(kept)| by {
        assert Elements(ids) == (Elements(ids) - Elements(kept)) + Elements(kept);
      }
    }
  }

  lemma {:induction false} RepeatsShrink(s: seq<string>)
    ensures |Elements(s)| <= |s|
    ensures !NoRepeats(s) ==> |Elements(s)| < |s|
  {
    if s != [] {
      var rest := s[1..];
      RepeatsShrink(rest);
      assert s == [s[0]] + rest;
      assert Elements(s) == {s[0]} + Elements(rest);
      if s[0] in rest {
        assert Elements(s) == Elements(rest);
      } else if NoRepeats(rest) {
        DistinctConcat([s[0]], rest);
      }
    }
  }

  // ----- What is kept -----

  lemma {:induction false} IdsAt(cs: seq<ContainerStatus>, k: nat)
    requires k < |cs|
    ensures Ids(cs)[k] == cs[k].id
  {
    if k < |cs| - 1 {
      IdsAt(cs[..|cs| - 1], k);
    }
  }

  /** The identifier of the container found for a name. */
  function IdOf(cs: seq<ContainerStatus>, name: string): string {
    var k := Find(cs, name);
    if k < |cs| then cs[k].id else ""
  }

  lemma KeptSnoc(cs: seq<ContainerStatus>, names: seq<string>, k: nat)
    requires k < |names|
    ensures
      var kept := Kept(cs, names[..k]);
      Kept(cs, names[..k + 1]) == if Runs(cs, names[k]) then kept + [IdOf(cs, names[k])] else kept
  {
    assert names[..k + 1][..k] == names[..k];
  }

  lemma SameIdSameName(cs: seq<ContainerStatus>, m: string, n: string)
    requires NoRepeats(Ids(cs)) && Runs(cs, m) && Runs(cs, n) && IdOf(cs, m) == IdOf(cs, n)
    ensures m == n
  {
    IdsAt(cs, Find(cs, m));
    IdsAt(cs, Find(cs, n));
  }

  lemma {:induction false} KeptMembers(cs: seq<ContainerStatus>, names: seq<string>, x: string)
    ensures x in Kept(cs, names) <==> exists i :: 0 <= i < |names| && Runs(cs, names[i]) && IdOf(cs, names[i]) == x
    ensures x in Kept(cs, names) ==> x in Ids(cs)
  {
    if names != [] {
      var k := |names| - 1;
      KeptMembers(cs, names[..k], x);
      assert names == names[..k] + [names[k]];
      if Runs(cs, names[k]) {
        IdsAt(cs, Find(cs, names[k]));
      }
    }
  }

  /** Spec containers that share a name do not share a running container. */
  predicate NoSharedRunning(cs: seq<ContainerStatus>, names: seq<string>) {
    forall i, j :: 0 <= i < j < |names| && names[i] == names[j] ==> !Runs(cs, names[i])
  }

  lemma SharedSnoc(cs: seq<ContainerStatus>, names: seq<string>)
    requires names != []
    ensures
      var k := |names| - 1;
      NoSharedRunning(cs, names) <==>
      NoSharedRunning(cs, names[..k])
      && !(Runs(cs, names[k]) && exists i :: 0 <= i < k && names[..k][i] == names[k])
  {
    hide Runs;
    var k := |names| - 1;
    assert forall i :: 0 <= i < k ==> names[i] == names[..k][i];
  }

  lemma {:induction false} KeptDistinctIff(cs: seq<ContainerStatus>, names: seq<string>)
    requires NoRepeats(Ids(cs))
    ensures NoRepeats(Kept(cs, names)) <==> NoSharedRunning(cs, names)
  {
    if names != [] {
      var k := |names| - 1;
      var front := names[..k];
      KeptDistinctIff(cs, front);
      var kept := Kept(cs, front);
      assert names[..k + 1] == names;
      KeptSnoc(cs, names, k);
      SharedSnoc(cs, names);
      hide Kept, NoSharedRunning;
      if Runs(cs, names[k]) {
        var id := IdOf(cs, names[k]);
        KeptMembers(cs, front, id);
        assert id in kept <==> exists i :: 0 <= i < k && front[i] == names[k] by {
          assert forall i :: 0 <= i < k && front[i] == names[k] ==> Runs(cs, front[i]) && IdOf(cs, front[i]) == id;
          forall i | 0 <= i < k && Runs(cs, front[i]) && IdOf(cs, front[i]) == id ensures front[i] == names[k] {
            SameIdSameName(cs, front[i], names[k]);
          }
        }
        NoRepeatsSnoc(kept, id);
      }
    }
  }

  // ----- The plan -----

  /**
    The containers left over after the named stopped ones are exactly the ones not kept, once each.
    Stopped containers that the spec names are listed a second time, in front.
   */
  ghost predicate KillsTheRest(names: seq<string>, p: PodStatus, a: Actions) {
    var stale := Stale(p.containers, names);
    && |stale| <= |a.toKill| && a.toKill[..|stale|] == stale
    && NoRepeats(a.toKill[|stale|..])
    && Elements(a.toKill[|stale|..]) == Elements(Ids(p.containers)) - Elements(Kept(p.containers, names))
  }

  /** With different container identifiers the plan kills the right containers exactly when no running one is shared. */
  lemma KillsTheRestIff(names: seq<string>, p: PodStatus)
    requires !PodSandboxChanged(p).0 && NoRepeats(Ids(p.containers))
    ensures
      var o := Plan(names, p);
      o.Planned? && KillsTheRest(names, p, o.actions) <==> NoSharedRunning(p.containers, names)
  {
    var cs := p.containers;
    var kept, stale := Kept(cs, names), Stale(cs, names);
    forall x | x in kept ensures x in Ids(cs) { KeptMembers(cs, names, x); }
    SplicesAreRightIff(Ids(cs), kept);
    KeptDistinctIff(cs, names);
    var r := SpliceAll(Ids(cs), kept);
    if r.Rest? {
      assert (stale + r.ids)[..|stale|] == stale && (stale + r.ids)[|stale|..] == r.ids;
    }
  }

  lemma {:induction false} StaleMembers(cs: seq<ContainerStatus>, names: seq<string>, x: string)
    ensures x in Stale(cs, names) <==> exists i :: 0 <= i < |names| && IsStale(cs, names[i]) && IdOf(cs, names[i]) == x
    ensures x in Stale(cs, names) ==> x in Ids(cs)
  {
    if names != [] {
      var k := |names| - 1;
      StaleMembers(cs, names[..k], x);
      assert names == names[..k] + [names[k]];
      if IsStale(cs, names[k]) {
        IdsAt(cs, Find(cs, names[k]));
      }
    }
  }

  lemma StaleIsNotKept(cs: seq<ContainerStatus>, names: seq<string>, x: string)
    requires NoRepeats(Ids(cs)) && x in Stale(cs, names)
    ensures x !in Kept(cs, names)
  {
    StaleMembers(cs, names, x);
    KeptMembers(cs, names, x);
    forall i, j | 0 <= i < |names| && 0 <= j < |names| && IsStale(cs, names[i]) && Runs(cs, names[j])
      ensures IdOf(cs, names[i]) != IdOf(cs, names[j])
    {
      IdsAt(cs, Find(cs, names[i]));
      IdsAt(cs, Find(cs, names[j]));
    }
  }

  lemma {:induction false} StartsAre(cs: seq<ContainerStatus>, names: seq<string>, i: nat)
    ensures i in Starts(cs, names) <==> i < |names| && !Runs(cs, names[i])
  {
    if names != [] {
      var k := |names| - 1;
      StartsAre(cs, names[..k], i);
      assert i < k ==> names[..k][i] == names[i];
    }
  }

  lemma {:induction false} StartsAscend(cs: seq<ContainerStatus>, names: seq<string>)
    ensures forall i, j :: 0 <= i < j < |Starts(cs, names)| ==> Starts(cs, names)[i] < Starts(cs, names)[j]
  {
    if names != [] {
      var k := |names| - 1;
      StartsAscend(cs, names[..k]);
      forall i: nat ensures i in Starts(cs, names[..k]) ==> i < k { StartsAre(cs, names[..k], i); }
      assert forall i :: 0 <= i < |Starts(cs, names[..k])| ==> Starts(cs, names[..k])[i] in Starts(cs, names[..k]);
    }
  }

  /** The spec containers whose named container is stopped and is that one. */
  function Naming(cs: seq<ContainerStatus>, names: seq<string>, x: string): set<nat> {
    set i: nat | i < |names| && IsStale(cs, names[i]) && IdOf(cs, names[i]) == x
  }

  lemma NamingSnoc(cs: seq<ContainerStatus>, names: seq<string>, x: string)
    requires names != []
    ensures
      var k := |names| - 1;
      Naming(cs, names, x) == Naming(cs, names[..k], x) + if IsStale(cs, names[k]) && IdOf(cs, names[k]) == x then {k} else {}
  {
    hide IsStale, IdOf;
  }

  lemma {:induction false} StaleCounts(cs: seq<ContainerStatus>, names: seq<string>, x: string)
    ensures multiset(Stale(cs, names))[x] == |Naming(cs, names, x)|
  {
    if names != [] {
      var k := |names| - 1;
      StaleCounts(cs, names[..k], x);
      NamingSnoc(cs, names, x);
      assert k !in Naming(cs, names[..k], x);
      assert IsStale(cs, names[k]) ==> IdOf(cs, names[k]) == cs[Find(cs, names[k])].id;
      hide IsStale, IdOf, Naming, Find;
    }
  }

  /** A container is killed once for not being kept, and once more for every spec container that finds it stopped. */
  lemma KillsCount(names: seq<string>, p: PodStatus, x: string)
    requires !PodSandboxChanged(p).0 && NoRepeats(Ids(p.containers)) && NoSharedRunning(p.containers, names)
    ensures
      var cs := p.containers;
      var once: nat := if x in Ids(cs) && x !in Kept(cs, names) then 1 else 0;
      Plan(names, p).Planned? && multiset(Plan(names, p).actions.toKill)[x] == once + |Naming(cs, names, x)|
  {
    KillsTheRestIff(names, p);
    var cs, a := p.containers, Plan(names, p).actions;
    var stale := Stale(cs, names);
    var others := a.toKill[|stale|..];
    assert a.toKill == stale + others;
    StaleCounts(cs, names, x);
    OccursOnce(others, x);
    assert x in others <==> x in Elements(others);
  }

  lemma {:induction false} OccursOnce(s: seq<string>, x: string)
    requires NoRepeats(s)
    ensures multiset(s)[x] == if x in s then 1 else 0
  {
    if s != [] {
      var front := s[..|s| - 1];
      OccursOnce(front, x);
      assert s == front + [s[|s| - 1]];
      NoRepeatsSnoc(front, s[|s| - 1]);
    }
  }

  lemma {:induction false} EveryoneIsServed(cs: seq<ContainerStatus>, names: seq<string>)
    ensures |Starts(cs, names)| + |Kept(cs, names)| == |names|
  {
    if names != [] {
      EveryoneIsServed(cs, names[..|names| - 1]);
    }
  }

  /**
    With an unchanged sandbox and different names and identifiers the work is partitioned: a spec
    container is started or has a running container of its name, kept for it alone, and the
    containers killed are exactly the others.
   */
  lemma PlanPartitions(names: seq<string>, p: PodStatus)
    requires !PodSandboxChanged(p).0 && NoRepeats(Ids(p.containers)) && NoRepeats(names)
    ensures
      var cs := p.containers;
      var kept := Kept(cs, names);
      && Plan(names, p).Planned?
      && var a := Plan(names, p).actions;
      && (forall i: nat :: i in a.toStart <==> i < |names| && !Runs(cs, names[i]))
      && (forall i, j :: 0 <= i < j < |a.toStart| ==> a.toStart[i] < a.toStart[j])
      && (forall i :: 0 <= i < |names| && Runs(cs, names[i]) ==> IdOf(cs, names[i]) in kept)
      && NoRepeats(kept) && |a.toStart| + |kept| == |names|
      && Elements(a.toKill) == Elements(Ids(cs)) - Elements(kept)
  {
    var cs := p.containers;
    var stale, kept := Stale(cs, names), Kept(cs, names);
    KillsTheRestIff(names, p);
    KeptDistinctIff(cs, names);
    EveryoneIsServed(cs, names);
    StartsAscend(cs, names);
    var a := Plan(names, p).actions;
    forall i: nat ensures i in a.toStart <==> i < |names| && !Runs(cs, names[i]) { StartsAre(cs, names, i); }
    forall i | 0 <= i < |names| && Runs(cs, names[i]) ensures IdOf(cs, names[i]) in kept {
      KeptMembers(cs, names, IdOf(cs, names[i]));
    }
    forall x | x in stale ensures x in Elements(Ids(cs)) - Elements(kept) {
      StaleMembers(cs, names, x);
      StaleIsNotKept(cs, names, x);
    }
    assert a.toKill == stale + a.toKill[|stale|..];
  }

  /** A pod keeps its sandbox exactly if the first one there is ready and has an address. */
  lemma KeepsSandboxIff(names: seq<string>, p: PodStatus)
    ensures
      PodSandboxChanged(p).0 <==> !(|p.sandboxes| > 0 && p.sandboxes[0].ready && p.sandboxes[0].ip != "")
    ensures PodSandboxChanged(p).1 == if |p.sandboxes| > 0 then p.sandboxes[0].id else ""
    ensures Plan(names, p).Planned? ==>
      && Plan(names, p).actions.killPod == PodSandboxChanged(p).0
      && Plan(names, p).actions.sandboxId == PodSandboxChanged(p).1
      && (!PodSandboxChanged(p).0 ==> !Plan(names, p).actions.createSandbox)
  {
  }

  lemma {:induction false} AllIndicesAre(n: nat)
    ensures |AllIndices(n)| == n && forall i :: 0 <= i < n ==> AllIndices(n)[i] == i
  {
    if n > 0 { AllIndicesAre(n - 1); }
  }

  /** Under a changed sandbox every container there is gets killed and every spec container started, in order. */
  lemma ChangedSandboxRestartsAll(names: seq<string>, p: PodStatus)
    requires PodSandboxChanged(p).0
    ensures
      var o := Plan(names, p);
      && o.Planned? && o.actions.killPod && (o.actions.createSandbox <==> names != [])
      && |o.actions.toStart| == |names| && (forall i :: 0 <= i < |names| ==> o.actions.toStart[i] == i)
      && |o.actions.toKill| == |p.containers|
      && (forall k :: 0 <= k < |p.containers| ==> o.actions.toKill[k] == p.containers[k].id)
  {
    AllIndicesAre(|names|);
    forall k | 0 <= k < |p.containers| ensures Ids(p.containers)[k] == p.containers[k].id { IdsAt(p.containers, k); }
  }

  // ----- Carrying the plan out -----

  predicate IsNew(cs: seq<ContainerStatus>, c: ContainerStatus) {
    c.id !in Ids(cs)
  }

  /** The plan a was carried out: listed containers are gone, each start gave one new running container. */
  ghost predicate CarriedOut(names: seq<string>, cs: seq<ContainerStatus>, a: Actions, after: seq<ContainerStatus>) {
    && NoRepeats(Ids(after))
    && (forall c :: c in after && !IsNew(cs, c) ==> c in cs && c.id !in a.toKill)
    && (forall c :: c in cs && c.id !in a.toKill ==> c in after)
    && (forall c :: c in after && IsNew(cs, c) ==> c.running && exists i: nat :: i in a.toStart && i < |names| && names[i] == c.name)
    && (forall i: nat :: i in a.toStart && i < |names| ==> exists c :: c in after && IsNew(cs, c) && c.name == names[i])
    && (forall c, d :: c in after && d in after && IsNew(cs, c) && IsNew(cs, d) && c.name == d.name ==> c == d)
  }

  /** Every container runs, is named by the spec, and is the only one of its name. */
  ghost predicate Settled(names: seq<string>, cs: seq<ContainerStatus>) {
    && (forall c :: c in cs ==> c.running && c.name in names)
    && (forall c, d :: c in cs && d in cs && c.name == d.name ==> c == d)
    && (forall n :: n in names ==> exists c :: c in cs && c.name == n)
  }

  lemma FoundIs(cs: seq<ContainerStatus>, c: ContainerStatus)
    requires c in cs
    ensures Find(cs, c.name) < |cs|
  {
  }

  lemma SameIdSameContainer(cs: seq<ContainerStatus>, c: ContainerStatus, d: ContainerStatus)
    requires NoRepeats(Ids(cs)) && c in cs && d in cs && c.id == d.id
    ensures c == d
  {
    var i :| 0 <= i < |cs| && cs[i] == c;
    var j :| 0 <= j < |cs| && cs[j] == d;
    IdsAt(cs, i);
    IdsAt(cs, j);
  }

  lemma IdIsListed(cs: seq<ContainerStatus>, c: ContainerStatus)
    requires c in cs
    ensures c.id in Ids(cs)
  {
    var i :| 0 <= i < |cs| && cs[i] == c;
    IdsAt(cs, i);
  }

  /** c runs and is the container found for its name. */
  predicate Stays(cs: seq<ContainerStatus>, c: ContainerStatus) {
    Runs(cs, c.name) && c == cs[Find(cs, c.name)]
  }

  predicate Classified(names: seq<string>, cs: seq<ContainerStatus>, c: ContainerStatus) {
    c.running && c.name in names && if IsNew(cs, c) then !Runs(cs, c.name) else Stays(cs, c)
  }

  ghost predicate FollowsSpec(names: seq<string>, cs: seq<ContainerStatus>, a: Actions) {
    && (forall c :: c in cs ==> !IsNew(cs, c) && (c.id !in a.toKill <==> c.name in names && Stays(cs, c)))
    && (forall i: nat :: i in a.toStart <==> i < |names| && !Runs(cs, names[i]))
  }

  lemma Classifies(names: seq<string>, cs: seq<ContainerStatus>, a: Actions, after: seq<ContainerStatus>)
    requires FollowsSpec(names, cs, a) && CarriedOut(names, cs, a, after)
    ensures forall c :: c in after ==> Classified(names, cs, c)
  {
    forall c | c in after ensures Classified(names, cs, c) {
      hide IsNew, Find;
      if IsNew(cs, c) {
        var i: nat :| i in a.toStart && i < |names| && names[i] == c.name;
      }
    }
  }

  lemma NewOrKept(names: seq<string>, cs: seq<ContainerStatus>, a: Actions, after: seq<ContainerStatus>)
    requires FollowsSpec(names, cs, a) && CarriedOut(names, cs, a, after)
    ensures forall n :: n in names ==> exists c :: c in after && c.name == n
    ensures forall c, d :: c in after && d in after && IsNew(cs, c) && IsNew(cs, d) && c.name == d.name ==> c == d
  {
    hide IsNew;
    forall n | n in names ensures exists c :: c in after && c.name == n {
      var i: nat :| i < |names| && names[i] == n;
      if Runs(cs, n) {
        var c := cs[Find(cs, n)];
        assert c in cs && Stays(cs, c) && c.id !in a.toKill;
      } else {
        assert i in a.toStart;
      }
    }
  }

  lemma SameNameSame(names: seq<string>, cs: seq<ContainerStatus>, c: ContainerStatus, d: ContainerStatus)
    requires Classified(names, cs, c) && Classified(names, cs, d) && c.name == d.name
    requires IsNew(cs, c) && IsNew(cs, d) ==> c == d
    ensures c == d
  {
  }

  /** What survives the plan is what was kept: the container found for a spec name that runs. */
  lemma SurvivorIsKept(names: seq<string>, p: PodStatus, c: ContainerStatus)
    requires !PodSandboxChanged(p).0 && NoRepeats(Ids(p.containers)) && NoRepeats(names)
    requires c in p.containers && Plan(names, p).Planned?
    ensures c.id !in Plan(names, p).actions.toKill <==>
            c.name in names && Stays(p.containers, c)
  {
    var cs := p.containers;
    PlanPartitions(names, p);
    IdIsListed(cs, c);
    var kept := Kept(cs, names);
    var kill := Plan(names, p).actions.toKill;
    assert c.id in kill <==> c.id in Elements(kill);
    assert c.id in Elements(kill) <==> c.id !in kept;
    hide Plan;
    KeptMembers(cs, names, c.id);
    if c.id in kept {
      var i :| 0 <= i < |names| && Runs(cs, names[i]) && IdOf(cs, names[i]) == c.id;
      SameIdSameContainer(cs, c, cs[Find(cs, names[i])]);
    }
  }

  lemma PlanFollowsSpec(names: seq<string>, p: PodStatus)
    requires !PodSandboxChanged(p).0 && NoRepeats(Ids(p.containers)) && NoRepeats(names)
    ensures Plan(names, p).Planned? && FollowsSpec(names, p.containers, Plan(names, p).actions)
  {
    PlanPartitions(names, p);
    var cs, a := p.containers, Plan(names, p).actions;
    hide Plan, Kept, Stays, Runs;
    forall c | c in cs ensures !IsNew(cs, c) && (c.id !in a.toKill <==> c.name in names && Stays(cs, c)) {
      SurvivorIsKept(names, p, c);
      IdIsListed(cs, c);
    }
  }

  lemma CarryingOutSettles(names: seq<string>, cs: seq<ContainerStatus>, a: Actions, after: seq<ContainerStatus>)
    requires FollowsSpec(names, cs, a) && CarriedOut(names, cs, a, after)
    ensures Settled(names, after)
  {
    Classifies(names, cs, a, after);
    NewOrKept(names, cs, a, after);
    hide CarriedOut, FollowsSpec, IsNew, Stays, Runs;
    forall c, d | c in after && d in after && c.name == d.name ensures c == d {
      SameNameSame(names, cs, c, d);
    }
  }

  lemma NoElements(s: seq<string>)
    ensures Elements(s) == {} ==> s == []
  {
    if s != [] { assert s[0] in Elements(s); }
  }

  lemma {:induction false} NoneStale(cs: seq<ContainerStatus>, names: seq<string>)
    requires forall n :: n in names ==> Runs(cs, n)
    ensures Stale(cs, names) == [] && Starts(cs, names) == []
  {
    if names != [] {
      var k := |names| - 1;
      assert names[k] in names && forall n :: n in names[..k] ==> n in names;
      NoneStale(cs, names[..k]);
    }
  }

  lemma SettledRuns(names: seq<string>, cs: seq<ContainerStatus>)
    requires Settled(names, cs)
    ensures forall n :: n in names ==> Runs(cs, n)
  {
    forall n | n in names ensures Runs(cs, n) {
      var c :| c in cs && c.name == n;
      FoundIs(cs, c);
      assert cs[Find(cs, n)] in cs;
    }
  }

  lemma SettledIsKept(names: seq<string>, cs: seq<ContainerStatus>)
    requires Settled(names, cs)
    ensures forall x :: x in Ids(cs) ==> x in Kept(cs, names)
  {
    SettledRuns(names, cs);
    forall x | x in Ids(cs) ensures x in Kept(cs, names) {
      var j :| 0 <= j < |cs| && Ids(cs)[j] == x;
      IdsAt(cs, j);
      FoundIs(cs, cs[j]);
      assert cs[j] in cs && cs[Find(cs, cs[j].name)] in cs;
      var i :| 0 <= i < |names| && names[i] == cs[j].name;
      KeptMembers(cs, names, x);
    }
  }

  lemma SettledNeedsNothing(names: seq<string>, p: PodStatus)
    requires !PodSandboxChanged(p).0 && NoRepeats(Ids(p.containers)) && NoRepeats(names)
    requires Settled(names, p.containers)
    ensures
      var o := Plan(names, p);
      o.Planned? && o.actions.toStart == [] && o.actions.toKill == [] && !o.actions.killPod
  {
    var cs := p.containers;
    SettledRuns(names, cs);
    NoneStale(cs, names);
    PlanPartitions(names, p);
    KillsTheRestIff(names, p);
    SettledIsKept(names, cs);
    assert Plan(names, p).actions.toStart == Starts(cs, names) && !Plan(names, p).actions.killPod;
    hide Settled, Runs, Ids, Kept, Find, Plan, KillsTheRest;
    var kill := Plan(names, p).actions.toKill;
    assert Elements(kill) == {};
    NoElements(kill);
  }

  /** Once a plan is carried out, the next plan starts and kills nothing. */
  lemma PlanConverges(names: seq<string>, p: PodStatus, after: PodStatus)
    requires !PodSandboxChanged(p).0 && !PodSandboxChanged(after).0
    requires NoRepeats(Ids(p.containers)) && NoRepeats(names) && Plan(names, p).Planned?
    requires CarriedOut(names, p.containers, Plan(names, p).actions, after.containers)
    ensures
      var o := Plan(names, after);
      o.Planned? && o.actions.toStart == [] && o.actions.toKill == [] && !o.actions.killPod
  {
    PlanFollowsSpec(names, p);
    CarryingOutSettles(names, p.containers, Plan(names, p).actions, after.containers);
    SettledNeedsNothing(names, after);
  }

  lemma {:induction false} SpliceAllStops(ids: seq<string>, kept: seq<string>)
    ensures SpliceAll(ids, kept).OutOfBounds? <==> |kept| > |ids|
  {
    if kept != [] {
      SpliceAllStops(ids, kept[..|kept| - 1]);
      SpliceSizes(ids, kept[..|kept| - 1]);
    }
  }

  /** The plan panics exactly when spec containers name running containers more often than there are containers. */
  lemma PanicsIff(names: seq<string>, p: PodStatus)
    ensures Plan(names, p) == Panicked <==> !PodSandboxChanged(p).0 && |Kept(p.containers, names)| > |p.containers|
  {
    SpliceAllStops(Ids(p.containers), Kept(p.containers, names));
  }

  /** Two spec containers share the name of the only container: the second splice panics. */
  lemma SharedNamePanics(id: string, name: string, sandbox: Sandbox)
    requires sandbox.ready && sandbox.ip != ""
    ensures Plan([name, name], PodStatus([sandbox], [ContainerStatus(id, name, true)])) == Panicked
  {
    var cs := [ContainerStatus(id, name, true)];
    assert Ids(cs) == [id] by { assert cs[..0] == []; }
    var names := [name, name];
    assert names[..1] == [name] && names[..1][..0] == [];
    assert Kept(cs, [name]) == [id];
    assert Kept(cs, names) == [id, id];
    assert [id, id][..1] == [id] && [id][..0] == [];
    assert SpliceAll([id], [id]) == Rest([]);
  }

  // ----- The method -----

  method FindContainerStatusByName(cs: seq<ContainerStatus>, name: string) returns (k: nat)
    ensures k == Find(cs, name)
  {
    k := 0;
    assert cs[0..] == cs;
    while k < |cs|
      invariant k <= |cs| && Find(cs, name) == k + Find(cs[k..], name)
    {
      if cs[k].name == name {
        return;
      }
      assert cs[k..][1..] == cs[k + 1..];
      k := k + 1;
    }
  }

  lemma {:induction false} SpliceAt(ids: seq<string>, keep: nat)
    requires keep < |ids| && ids[keep] !in ids[..keep]
    ensures Splice(Rest(ids), ids[keep]) == Rest(ids[..keep] + ids[keep + 1..])
  {
    SpliceIsRemoveFirst(ids, keep);
  }

  method AllIds(cs: seq<ContainerStatus>) returns (ids: seq<string>)
    ensures ids == Ids(cs)
  {
    ids := [];
    for k := 0 to |cs|
      invariant ids == Ids(cs[..k])
    {
      assert cs[..k + 1][..k] == cs[..k];
      ids := ids + [cs[k].id];
    }
    assert cs[..|cs|] == cs;
  }

  method SpliceOut(remain: seq<string>, id: string) returns (r: Rest)
    ensures r == Splice(Rest(remain), id)
  {
    var keep := 0;
    assert id in remain <==> exists i :: 0 <= i < |remain| && remain[i] == id;
    for i := 0 to |remain|
      invariant id !in remain[..i] && keep == 0
    {
      if remain[i] == id {
        keep := i;
        break;
      }
    }
    if |remain| == 0 {
      return OutOfBounds;
    }
    if remain[keep] == id {
      SpliceAt(remain, keep);
    }
    r := Rest(remain[..keep] + remain[keep + 1..]);
  }

  method ComputePodActions(names: seq<string>, p: PodStatus) returns (o: Outcome)
    ensures o == Plan(names, p)
  {
    var (changed, sandboxId) := PodSandboxChanged(p);
    var cs := p.containers;
    var ids := AllIds(cs);
    if changed {
      var all := [];
      for k := 0 to |names|
        invariant all == AllIndices(k)
      {
        all := all + [k];
      }
      return Planned(Actions(true, |all| != 0, sandboxId, all, ids));
    }
    var remain, toStart, toKill := Rest(ids), [], [];
    for k := 0 to |names|
      invariant toStart == Starts(cs, names[..k]) && toKill == Stale(cs, names[..k])
      invariant remain == SpliceAll(ids, Kept(cs, names[..k])) && remain.Rest?
    {
      assert names[..k + 1][..k] == names[..k];
      KeptSnoc(cs, names, k);
      var f := FindContainerStatusByName(cs, names[k]);
      if f == |cs| || !cs[f].running {
        toStart := toStart + [k];
        if f < |cs| {
          toKill := toKill + [cs[f].id];
        }
      } else {
        SpliceAllSnoc(ids, Kept(cs, names[..k]), cs[f].id);
        assert IdOf(cs, names[k]) == cs[f].id;
        remain := SpliceOut(remain.ids, cs[f].id);
        if remain.OutOfBounds? {
          SpliceAllStuck(ids, cs, names, k + 1);
          return Panicked;
        }
      }
    }
    assert names[..|names|] == names;
    o := Planned(Actions(false, false, sandboxId, toStart, toKill + remain.ids));
  }

  lemma {:induction false} SpliceAllStuck(ids: seq<string>, cs: seq<ContainerStatus>, names: seq<string>, k: nat)
    requires k <= |names| && SpliceAll(ids, Kept(cs, names[..k])) == OutOfBounds
    ensures SpliceAll(ids, Kept(cs, names)) == OutOfBounds
  {
    if k < |names| {
      var kept, last := Kept(cs, names[..|names| - 1]), |names| - 1;
      assert names[..last][..k] == names[..k];
      SpliceAllStuck(ids, cs, names[..last], k);
      KeptSnoc(cs, names, last);
      assert names[..last + 1] == names;
      SpliceAllSnoc(ids, kept, IdOf(cs, names[last]));
      hide Kept;
    } else {
      assert names[..k] == names;
    }
  }
}
