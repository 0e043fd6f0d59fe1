/**
  The ReplicaSet controller itself: the handlers and the timed reconcile, which splice and rebuild the
  status of a ReplicaSet and use the pod informer's cache.
 */
module ReplicaSetController {
  import opened PodInformer
  import opened ReplicaSets
  import opened RunningLists
  import Reconciles
  import Slices
  import Compare

  ghost predicate ListsBy(selector: Labels, cache: Cache, runnings: seq<string>, bads: seq<string>) {
    && (forall u :: u in runnings <==>
      u in cache && Compare.MatchLabelSelector(selector, cache[u].labels) && IsRunning(cache[u].phase))
    && (forall u :: u in bads <==>
      u in cache && Compare.MatchLabelSelector(selector, cache[u].labels) && IsBad(cache[u].phase))
    && Slices.NoRepeats(runnings) && Slices.NoRepeats(bads)
  }

  lemma ListsUnderFixedLabels(cfg: Config, s: Sys, runnings: seq<string>, bads: seq<string>)
    requires FixedLabels(cfg, s)
    ensures ListsBy(cfg.selector, s.cache, runnings, bads) <==> Lists(cfg, s.cache, runnings, bads)
  {
    assert forall u :: u in s.cache ==>
      (Matches(cfg, u) <==> Compare.MatchLabelSelector(cfg.selector, s.cache[u].labels));
  }

  const UPDATE_WAIT := 30

  class Controller {
    const selector: Labels
    const informer: Informer
    var status: Status

    constructor (selector: Labels, informer: Informer, status: Status)
      ensures this.selector == selector && this.informer == informer && this.status == status
    {
      this.selector, this.informer, this.status := selector, informer, status;
    }

    /** The controller, its informer and its status are in the state s of the pipeline. */
    ghost predicate Mirrors(cfg: Config, s: Sys)
      reads this, informer
    {
      && cfg.selector == selector && s.status == status
      && s.cache == informer.podCache && s.removed == informer.rmCache && s.handled + s.queue == informer.sent
    }

    method PodUIDAppearedIndex(podUID: string, list: seq<string>) returns (idx: int, found: bool)
      ensures found <==> podUID in list
      ensures found ==> 0 <= idx < |list| && list[idx] == podUID && podUID !in list[..idx]
      ensures !found ==> idx == -1
    {
      for i := 0 to |list|
        invariant podUID !in list[..i]
      {
        if list[i] == podUID {
          return i, true;
        }
      }
      return -1, false;
    }

    /** append(list[:idx], list[idx+1:]...) when the UID appears. */
    method Splice(podUID: string, list: seq<string>) returns (rest: seq<string>, found: bool)
      ensures found <==> podUID in list
      ensures rest == Slices.RemoveFirst(list, podUID)
    {
      var idx;
      idx, found := PodUIDAppearedIndex(podUID, list);
      if found {
        Slices.SpliceIsRemoveFirst(list, idx);
        rest := list[..idx] + list[idx + 1..];
      } else {
        Slices.AbsentIsNotRemoved(list, podUID);
        rest := list;
      }
    }

    method HandlePodCreate(uid: string, now: int)
      modifies `status
      ensures status == HandleCreate(old(status), uid, now)
    {
      status := status.(count := status.count + 1);
      status := status.(running := status.running + [uid]);
      var toRun, found := Splice(uid, status.toRun);
      status := status.(toRun := toRun);
      status := status.(lastUpdate := now);
    }

    method HandlePodUpdate(uid: string)
      modifies `status
      ensures status == HandleUpdate(old(status), uid)
    {
      var _, found := PodUIDAppearedIndex(uid, status.running);
      if !found {
        status := status.(count := status.count + 1, running := status.running + [uid]);
      }
    }

    method HandlePodKilled(uid: string)
      modifies `status
      ensures status == HandleKilled(old(status), uid)
    {
      var toKill, wanted := Splice(uid, status.toKill);
      status := status.(toKill := toKill);
      var running, found := Splice(uid, status.running);
      if found {
        status := status.(count := status.count - 1, running := running);
      }
    }

    /** The next queued event is a step of the pipeline. */
    method HandlePodEvent(e: Event, now: int, ghost cfg: Config, ghost s: Sys)
      requires Mirrors(cfg, s) && s.work.Idle? && s.queue != [] && s.queue[0] == e
      modifies `status
      ensures status == Handle(selector, old(status), e, now)
      ensures Enabled(cfg, s, HandleEvent(now)) && Mirrors(cfg, Apply(cfg, s, HandleEvent(now)))
    {
      assert s.handled + [e] + s.queue[1..] == s.handled + s.queue;
      if Compare.MatchLabelSelector(selector, e.labels) {
        match e.kind {
          case PodCreate => HandlePodCreate(e.uid, now);
          case PodUpdate => HandlePodUpdate(e.uid);
          case PodKilled => HandlePodKilled(e.uid);
        }
      }
    }

    /** Cached matching pods by phase. */
    method CurrentPods() returns (runnings: seq<string>, bads: seq<string>)
      ensures ListsBy(selector, informer.podCache, runnings, bads)
    {
      var pods := informer.SelectPods(selector);
      runnings, bads := [], [];
      for i := 0 to |pods|
        invariant forall u :: u in runnings <==> u in pods[..i] && IsRunning(informer.podCache[u].phase)
        invariant forall u :: u in bads <==> u in pods[..i] && IsBad(informer.podCache[u].phase)
        invariant Slices.NoRepeats(runnings) && Slices.NoRepeats(bads)
      {
        var u := pods[i];
        assert u in pods && u !in pods[..i];
        assert pods[..i + 1] == pods[..i] + [u];
        if IsRunning(informer.podCache[u].phase) {
          runnings := runnings + [u];
        } else if IsBad(informer.podCache[u].phase) {
          bads := bads + [u];
        }
      }
      assert pods[..|pods|] == pods;
    }

    /** Makes up to n pods; a failed creation is only logged. */
    method CreatePods(create: nat -> Creation, n: int) returns (made: seq<string>)
      ensures made == MadeBy(create, AtLeastZero(n))
    {
      made := [];
      var idx := 0;
      while idx < n
        invariant idx <= AtLeastZero(n) && made == MadeBy(create, idx)
      {
        if create(idx).Made? {
          made := made + [create(idx).uid];
        }
        idx := idx + 1;
      }
    }

    /** Asks for every deletion once, remembers the deleted pods, and notes the unknown ones. */
    method DeletePods(list: seq<string>, answers: string -> Answer) returns (noExist: seq<int>)
      modifies informer
      ensures Slices.Ascending(noExist)
      ensures forall k :: k in noExist <==> 0 <= k < |list| && answers(list[k]) == NoObjects
      ensures informer.podCache == old(informer.podCache) - DeletedFrom(list, answers)
      ensures informer.rmCache == old(informer.rmCache) + DeletedFrom(list, answers)
      ensures informer.sent == old(informer.sent)
    {
      noExist := [];
      for idx := 0 to |list|
        invariant Slices.Ascending(noExist)
        invariant forall k :: k in noExist <==> 0 <= k < idx && answers(list[k]) == NoObjects
        invariant informer.podCache == old(informer.podCache) - DeletedFrom(list[..idx], answers)
        invariant informer.rmCache == old(informer.rmCache) + DeletedFrom(list[..idx], answers)
        invariant informer.sent == old(informer.sent)
      {
        DeletedOneMore(list, idx, answers);
        assert forall i :: 0 <= i < |noExist| ==> noExist[i] in noExist;
        match answers(list[idx]) {
          case Deleted => informer.RecordRemove(list[idx]);
          case NoObjects => noExist := noExist + [idx];
          case Refused =>
        }
      }
      assert list[..|list|] == list;
    }

    /**
      The timed reconcile: nothing within 30 seconds of the last update, else a new status. A negative
      number of replicas stops it when it exceeds the room behind the list of running pods. Otherwise
      the reconcile is a run of the pipeline.
     */
    method CheckAndUpdate(
      replicas: int, now: int, create: nat -> Creation, answers: string -> Answer, room: nat, ghost cfg: Config, ghost s: Sys)
      returns (ran: bool, ghost runnings: seq<string>, ghost bads: seq<string>)
      requires Mirrors(cfg, s) && s.work.Idle? && FixedLabels(cfg, s)
      requires forall n: nat :: FreshUids(create, n, s.used)
      modifies `status, informer
      ensures now - old(status).lastUpdate < 30 ==>
        !ran && status == old(status) && informer.podCache == old(informer.podCache) && informer.rmCache == old(informer.rmCache)
      ensures now - old(status).lastUpdate >= 30 ==> (ran <==> -replicas <= room)
      ensures informer.sent == old(informer.sent)
      ensures ran ==> ListsBy(selector, old(informer.podCache), runnings, bads)
      ensures ran ==> var list := KillList(old(status), runnings, replicas, bads);
        && status == NewStatus(runnings, MadeBy(create, AtLeastZero(replicas - |runnings|)), list, answers, now)
        && Reconciles.KillsLeft(old(status), runnings, replicas, bads, answers, status.toKill)
        && informer.podCache == old(informer.podCache) - DeletedFrom(list, answers)
        && informer.rmCache == old(informer.rmCache) + DeletedFrom(list, answers)
      ensures ran && replicas >= 0 ==>
        var steps := ReconcileSteps(s.status, replicas, runnings, bads, create, answers, now);
        Possible(cfg, s, steps) && Mirrors(cfg, After(cfg, s, steps))
    {
      hide KillList, Surplus, StillToKill, DeletedFrom, MadeBy, ListsBy, Lists, FixedLabels, FreshUids, Possible, After;
      hide Slices.Without, ReconcileSteps, Reconciles.KillsLeft;
      ran, runnings, bads := false, [], [];
      if now - status.lastUpdate < UPDATE_WAIT {
        return;
      }
      var alive, ill := CurrentPods();
      runnings, bads := alive, ill;
      var toCreate := replicas - |alive|;
      var podsToRun := CreatePods(create, toCreate);
      if -toCreate > |alive| + room {
        return;
      }
      var podsToKill := PodsToKill(alive, toCreate, ill);
      var noExist := DeletePods(podsToKill, answers);
      WithoutIsStillToKill(podsToKill, noExist, answers);
      var kept := Slices.RemoveMultiIndex(podsToKill, noExist);
      Reconciles.NewKillList(status, runnings, replicas, bads, answers);
      status := Status(|alive|, podsToRun, kept, alive, now);
      ran := true;
      if replicas >= 0 {
        ListsUnderFixedLabels(cfg, s, runnings, bads);
        ReconcileRuns(cfg, s, replicas, runnings, bads, create, answers, now);
      }
    }

    /** Old and new pods to kill, deduplicated in place. */
    method PodsToKill(runnings: seq<string>, toCreate: int, bads: seq<string>) returns (list: seq<string>)
      ensures list == KillList(status, runnings, toCreate + |runnings|, bads)
    {
      var podsToKill := status.toKill + status.toRun;
      if toCreate < 0 {
        podsToKill := podsToKill + Front(runnings, -toCreate);
      }
      podsToKill := podsToKill + bads;
      assert podsToKill == status.toKill + status.toRun + Surplus(runnings, toCreate + |runnings|) + bads;
      var arr := new string[|podsToKill|](i requires 0 <= i < |podsToKill| => podsToKill[i]);
      assert arr[..] == podsToKill;
      var j := Slices.RemoveDuplication(arr);
      list := arr[..j];
    }

    /** The first creation of pods for a new ReplicaSet. */
    method HandleReplicaSetCreate(replicas: int, now: int, create: nat -> Creation)
      modifies `status
      ensures status == Status(0, MadeBy(create, AtLeastZero(replicas)), [], [], now)
    {
      var podsToRun := CreatePods(create, replicas);
      status := Status(0, podsToRun, [], [], now);
    }

    /**
      A changed number of replicas: make the missing pods, or kill from the front of the running list.
      Not ok is the panic on a negative number that exceeds the room behind the list.
     */
    method HandleReplicaSetUpdate(
      target: int, now: int, create: nat -> Creation, replies: string -> Answer, room: nat, ghost cfg: Config, ghost s: Sys)
      returns (ok: bool)
      requires Mirrors(cfg, s) && s.work.Idle?
      requires forall n: nat :: FreshUids(create, n, s.used)
      modifies `status, informer
      ensures ok <==> -target <= room
      ensures informer.sent == old(informer.sent)
      ensures !ok ==> status == old(status) && informer.podCache == old(informer.podCache) && informer.rmCache == old(informer.rmCache)
      ensures ok ==> var st, kill := old(status), Surplus(old(status).running, target);
        && status == st.(toRun := st.toRun + MadeBy(create, AtLeastZero(target - |st.running|)), toKill := st.toKill + kill, lastUpdate := now)
        && informer.podCache == old(informer.podCache) - DeletedFrom(kill, replies)
        && informer.rmCache == old(informer.rmCache) + DeletedFrom(kill, replies)
      ensures ok && target >= 0 ==>
        var steps := ScaleSteps(s.status, target, create, replies, now);
        Possible(cfg, s, steps) && Mirrors(cfg, After(cfg, s, steps))
    {
      hide StillToKill, MadeBy, FreshUids, Possible, After, ScaleSteps;
      ghost var kill := Surplus(status.running, target);
      if target > |status.running| {
        var added := CreatePods(create, target - |status.running|);
        status := status.(toRun := status.toRun + added);
        assert status.toKill + kill == status.toKill && DeletedFrom(kill, replies) == {};
      } else {
        if |status.running| - target > |status.running| + room {
          return false;
        }
        NoneMade(create);
        assert status.toRun + MadeBy(create, 0) == status.toRun;
        var front := Front(status.running, |status.running| - target);
        assert front == kill;
        status := status.(toKill := status.toKill + front);
        var _ := DeletePods(front, replies);
      }
      status := status.(lastUpdate := now);
      ok := true;
      if target >= 0 {
        hide Surplus, DeletedFrom;
        ScaleRuns(cfg, s, target, create, replies, now);
      }
    }
  }

  lemma NoneMade(create: nat -> Creation)
    ensures MadeBy(create, 0) == []
  {
  }

  /** list[:k]; the capacity behind a list holds empty strings. */
  function Front(list: seq<string>, k: nat): seq<string> {
    if k <= |list| then list[..k] else list + Blanks(k - |list|)
  }

  lemma {:induction false} WithoutIsStillToKill(list: seq<string>, noExist: seq<int>, answers: string -> Answer)
    requires forall k :: 0 <= k < |list| ==> (k in noExist <==> answers(list[k]) == NoObjects)
    ensures Slices.Without(list, noExist) == StillToKill(list, answers)
  {
    if list != [] {
      WithoutIsStillToKill(list[..|list| - 1], noExist, answers);
    }
  }
}
