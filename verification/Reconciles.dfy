/** What a reconcile of a ReplicaSet achieves, and when it kills pods it should have kept. */
module Reconciles {
  import opened PodInformer
  import opened ReplicaSets
  import opened RunningLists
  import opened Slices
  import opened Options

  // ----- The plan of a reconcile -----

  /** No running pod outside the surplus is still to run or to be killed. */
  predicate Undisturbed(st: Status, runnings: seq<string>, replicas: int) {
    forall u :: u in runnings && u !in Surplus(runnings, replicas) ==> u !in st.toRun && u !in st.toKill
  }

  ghost predicate Fits(st: Status, p: Plan) {
    && NoRepeats(p.runnings) && (forall u :: u in p.runnings ==> u !in p.bads)
    && p.list == KillList(st, p.runnings, p.replicas, p.bads) && p.asked <= |p.list|
    && (forall u :: u in p.deleted ==> u in p.list)
  }

  ghost predicate CreatedApart(p: Plan) {
    NoRepeats(p.created) && (forall u :: u in p.created ==> u !in p.runnings)
  }

  /** So far every creation has made a pod and every running pod asked for has been deleted. */
  ghost predicate OnTrack(p: Plan) {
    && |p.created| + p.left == AtLeastZero(p.replicas - |p.runnings|)
    && (forall i :: 0 <= i < p.asked <= |p.list| && p.list[i] in p.runnings ==> p.list[i] in p.deleted)
  }

  ghost predicate Done(st: Status, p: Plan) {
    Fits(st, p) && OnTrack(p) && p.left == 0 && p.asked == |p.list|
  }

  lemma SurplusSize(runnings: seq<string>, replicas: int)
    requires NoRepeats(runnings) && replicas >= 0
    ensures |Elements(runnings)| == |runnings|
    ensures |Elements(runnings) - Elements(Surplus(runnings, replicas))| == if replicas < |runnings| then replicas else |runnings|
    ensures replicas >= |runnings| ==> Elements(Surplus(runnings, replicas)) == {}
  {
    SplitDistinct(runnings, |Surplus(runnings, replicas)|);
    assert runnings[..|Surplus(runnings, replicas)|] == Surplus(runnings, replicas);
  }

  lemma KilledRunning(st: Status, p: Plan, u: string)
    requires Done(st, p) && u in p.runnings
    ensures u in p.deleted <==> u in st.toKill || u in st.toRun || u in Surplus(p.runnings, p.replicas)
  {
    DedupIsSet(st.toKill + st.toRun + Surplus(p.runnings, p.replicas) + p.bads);
    if u in p.list {
      var i :| 0 <= i < |p.list| && p.list[i] == u;
    }
  }

  lemma SizeOfDifference(all: set<string>, rest: set<string>, part: set<string>)
    requires part <= rest <= all
    ensures |all - part| == |all - rest| + |rest - part|
    ensures |rest - part| == 0 <==> rest == part
  {
    assert all - part == (all - rest) + (rest - part);
    if |rest - part| == 0 { assert rest - part == {}; }
  }

  lemma UndisturbedIff(st: Status, p: Plan)
    requires Done(st, p)
    ensures
      var surplus := Elements(Surplus(p.runnings, p.replicas));
      && surplus <= Elements(p.runnings) * p.deleted
      && (Elements(p.runnings) * p.deleted == surplus <==> Undisturbed(st, p.runnings, p.replicas))
  {
    forall u | u in p.runnings ensures u in p.deleted <==> u in st.toKill || u in st.toRun || u in Surplus(p.runnings, p.replicas) {
      KilledRunning(st, p, u);
    }
    assert forall u :: u in Surplus(p.runnings, p.replicas) ==> u in p.runnings;
    hide Done, Surplus;
    var killed, surplus := Elements(p.runnings) * p.deleted, Elements(Surplus(p.runnings, p.replicas));
    if killed == surplus {
      forall u | u in p.runnings && u !in Surplus(p.runnings, p.replicas) ensures u !in p.deleted {
        assert u !in surplus;
      }
    }
    if Undisturbed(st, p.runnings, p.replicas) {
      assert killed <= surplus;
    }
  }

  /**
    A finished reconcile deletes exactly the surplus, and leaves the wanted number of surviving and
    created pods, if and only if no other running pod was still to run or to be killed.
   */
  lemma SurvivorsIff(st: Status, p: Plan)
    requires Done(st, p)
    ensures |Elements(p.runnings) - p.deleted| + |p.created| == p.replicas <==> Undisturbed(st, p.runnings, p.replicas)
    ensures Elements(p.runnings) * p.deleted == Elements(Surplus(p.runnings, p.replicas)) <==> Undisturbed(st, p.runnings, p.replicas)
  {
    var all, surplus := Elements(p.runnings), Elements(Surplus(p.runnings, p.replicas));
    SurplusSize(p.runnings, p.replicas);
    UndisturbedIff(st, p);
    assert |p.created| == AtLeastZero(p.replicas - |p.runnings|);
    hide Done, Surplus, Elements, Undisturbed;
    assert all - p.deleted == all - all * p.deleted;
    SizeOfDifference(all, all * p.deleted, surplus);
  }

  // ----- Plans in runs -----

  /** A creation makes its pod, and a listed running pod that is to be deleted gets deleted. */
  predicate Served(s: Sys, step: Step) {
    match step
    case CreateOne(c) => c.Made?
    case DeleteOne(answer) =>
      s.work.Reconciling? && s.work.plan.asked < |s.work.plan.list| && s.work.plan.list[s.work.plan.asked] in s.work.plan.runnings
      ==> answer == Deleted
    case _ => true
  }

  ghost predicate ServedRun(cfg: Config, s: Sys, steps: seq<Step>)
    requires Possible(cfg, s, steps)
  {
    steps == [] ||
    var front, last := steps[..|steps| - 1], steps[|steps| - 1];
    ServedRun(cfg, s, front) && Served(After(cfg, s, front), last)
  }

  ghost predicate Achieving(s: Sys) {
    && (forall u :: u in s.cache ==> u in s.used)
    && (s.work.Reconciling? ==>
          && Fits(s.status, s.work.plan) && OnTrack(s.work.plan) && CreatedApart(s.work.plan)
          && (forall u :: u in s.work.plan.runnings || u in s.work.plan.created ==> u in s.used))
  }

  lemma ListingAchieves(cfg: Config, s: Sys, step: Step)
    requires Achieving(s) && step.ListPods? && Enabled(cfg, s, step)
    ensures Achieving(Apply(cfg, s, step))
  {
    hide KillList, Matches, Handle, Observed;
  }

  lemma CreationAchieves(cfg: Config, s: Sys, step: Step)
    requires Achieving(s) && step.CreateOne? && Enabled(cfg, s, step) && Served(s, step)
    ensures Achieving(Apply(cfg, s, step))
  {
    hide KillList, Matches, Handle, Observed, Forget;
    if s.work.Reconciling? {
      var uid := step.creation.uid;
      assert uid !in s.work.plan.created && NoRepeats([uid]);
      DistinctConcat(s.work.plan.created, [uid]);
    }
  }

  lemma DeletionAchieves(cfg: Config, s: Sys, step: Step)
    requires Achieving(s) && step.DeleteOne? && Enabled(cfg, s, step) && Served(s, step)
    ensures Achieving(Apply(cfg, s, step))
  {
    hide KillList, Matches, Handle, Observed;
  }

  lemma StepAchieves(cfg: Config, s: Sys, step: Step)
    requires Achieving(s) && Enabled(cfg, s, step) && Served(s, step)
    ensures Achieving(Apply(cfg, s, step))
  {
    if step.ListPods? {
      ListingAchieves(cfg, s, step);
    } else if step.CreateOne? {
      CreationAchieves(cfg, s, step);
    } else if step.DeleteOne? {
      DeletionAchieves(cfg, s, step);
    } else {
      hide Fits, OnTrack, Matches, Handle;
      assert Apply(cfg, s, step).work.Reconciling? ==>
        Apply(cfg, s, step).work == s.work && Apply(cfg, s, step).status == s.status;
    }
  }

  lemma {:induction false} RunAchieves(cfg: Config, s: Sys, steps: seq<Step>)
    requires Init(s) && Possible(cfg, s, steps) && ServedRun(cfg, s, steps)
    ensures Achieving(After(cfg, s, steps))
  {
    if steps != [] {
      var front := steps[..|steps| - 1];
      hide Achieving, Served, Init;
      RunAchieves(cfg, s, front);
      StepAchieves(cfg, After(cfg, s, front), steps[|steps| - 1]);
    }
  }

  /** In every run with served calls, whatever is queued and whatever the watch does in between: a reconcile about to write. */
  lemma ReconcileReachesReplicasIff(cfg: Config, s: Sys, steps: seq<Step>)
    requires Init(s) && Possible(cfg, s, steps) && ServedRun(cfg, s, steps)
    requires After(cfg, s, steps).work.Reconciling? && Finished(After(cfg, s, steps).work)
    ensures
      var (st, p) := (After(cfg, s, steps).status, After(cfg, s, steps).work.plan);
      && (|Elements(p.runnings) - p.deleted| + |p.created| == p.replicas <==> Undisturbed(st, p.runnings, p.replicas))
      && (Elements(p.runnings) * p.deleted == Elements(Surplus(p.runnings, p.replicas)) <==> Undisturbed(st, p.runnings, p.replicas))
  {
    RunAchieves(cfg, s, steps);
    SurvivorsIff(After(cfg, s, steps).status, After(cfg, s, steps).work.plan);
  }

  /** The same for a reconcile that nothing interrupts, from any state, in terms of the cache. */
  lemma WholeReconcileReachesReplicasIff(
    cfg: Config, s: Sys, replicas: nat, runnings: seq<string>, bads: seq<string>,
    create: nat -> Creation, answers: string -> Answer, now: int)
    requires s.work.Idle? && Lists(cfg, s.cache, runnings, bads)
    requires FreshUids(create, AtLeastZero(replicas - |runnings|), s.used)
    requires (forall k :: create(k).Made?) && forall u :: u in runnings ==> answers(u) == Deleted
    ensures
      var steps := ReconcileSteps(s.status, replicas, runnings, bads, create, answers, now);
      && Possible(cfg, s, steps)
      && var t := After(cfg, s, steps);
      && (|Elements(runnings) * t.cache.Keys| + |t.status.toRun| == replicas <==> Undisturbed(s.status, runnings, replicas))
  {
    var n, list := AtLeastZero(replicas - |runnings|), KillList(s.status, runnings, replicas, bads);
    ReconcileRuns(cfg, s, replicas, runnings, bads, create, answers, now);
    AllMade(create, n);
    WholePlanIsDone(s.status, replicas, runnings, bads, MadeBy(create, n), answers);
    var p := Plan(replicas, runnings, bads, 0, MadeBy(create, n), list, |list|, [], DeletedFrom(list, answers));
    var t := Reconciled(cfg, s, replicas, runnings, bads, create, answers, now);
    assert t.cache == s.cache - p.deleted && t.status.toRun == p.created;
    assert forall u :: u in runnings ==> u in s.cache;
    hide Possible, After, Reconciled, Lists, FreshUids, DeletedFrom, Done, Undisturbed, KillList, ReconcileSteps, MadeBy;
    SurvivorsIff(s.status, p);
    assert Elements(runnings) * t.cache.Keys == Elements(runnings) - p.deleted;
  }

  lemma WholePlanIsDone(
    st: Status, replicas: nat, runnings: seq<string>, bads: seq<string>, created: seq<string>, answers: string -> Answer)
    requires NoRepeats(runnings) && (forall u :: u in runnings ==> u !in bads)
    requires |created| == AtLeastZero(replicas - |runnings|) && forall u :: u in runnings ==> answers(u) == Deleted
    ensures
      var list := KillList(st, runnings, replicas, bads);
      Done(st, Plan(replicas, runnings, bads, 0, created, list, |list|, [], DeletedFrom(list, answers)))
  {
    hide KillList;
  }

  lemma {:induction false} AllMade(create: nat -> Creation, n: nat)
    requires forall k :: create(k).Made?
    ensures |MadeBy(create, n)| == n
  {
    if n > 0 { AllMade(create, n - 1); }
  }

  // ----- When running pods are still to run or to be killed -----

  ghost predicate CreateQueued(queue: seq<Event>, uid: string) {
    exists i :: 0 <= i < |queue| && queue[i].uid == uid && queue[i].kind == PodCreate
  }

  /** A pod still to run that is already cached has its create event waiting; a pod to kill is removed or lost. */
  ghost predicate Orderly(cfg: Config, s: Sys) {
    && NoRepeats(s.status.toRun)
    && (forall u :: u in s.status.toRun && u in Members(cfg, s.cache) ==> CreateQueued(s.queue, u))
    && (forall u :: u in s.status.toKill ==> u in s.removed || u in s.lost)
    && (forall u :: u in s.cache || u in s.removed || u in s.status.toRun ==> u in s.used)
    && (!s.work.Idle? ==> OrderlyPlan(cfg, s, s.work.plan))
  }

  ghost predicate OrderlyPlan(cfg: Config, s: Sys, p: Plan) {
    && NoRepeats(p.created) && (forall u :: u in p.created ==> u in s.used && u !in s.status.toRun)
    && (forall u :: u in p.created && u in Members(cfg, s.cache) ==> CreateQueued(s.queue, u))
    && p.asked <= |p.list|
    && (forall i :: 0 <= i < p.asked ==> p.list[i] in s.removed || p.list[i] in s.lost)
    && (forall u :: u in p.kept ==> u in s.removed || u in s.lost)
  }

  lemma WatchKeepsQueued(cfg: Config, s: Sys, w: Watch, u: string)
    requires Sound(cfg, s) && Enabled(cfg, s, WatchPod(w))
    requires u in Members(cfg, s.cache) ==> CreateQueued(s.queue, u)
    ensures
      var t := Apply(cfg, s, WatchPod(w));
      u in Members(cfg, t.cache) ==> CreateQueued(t.queue, u)
  {
    var (c, more) := Observed(s.cache, s.removed, w);
    ObserveAnnounces(s.cache, s.removed, w);
    hide Observed, Matches;
    if u in Members(cfg, c) {
      if u in s.cache {
        assert u in Members(cfg, s.cache);
        var i :| 0 <= i < |s.queue| && s.queue[i].uid == u && s.queue[i].kind == PodCreate;
        assert (s.queue + more)[i] == s.queue[i];
      } else {
        assert more[0] in more && (s.queue + more)[|s.queue|] == more[0];
      }
    }
  }

  lemma WatchKeepsOrderly(cfg: Config, s: Sys, w: Watch)
    requires Sound(cfg, s) && Orderly(cfg, s) && Enabled(cfg, s, WatchPod(w))
    ensures Orderly(cfg, Apply(cfg, s, WatchPod(w)))
  {
    var t := Apply(cfg, s, WatchPod(w));
    forall u | u in Members(cfg, s.cache) ==> CreateQueued(s.queue, u)
      ensures u in Members(cfg, t.cache) ==> CreateQueued(t.queue, u)
    {
      WatchKeepsQueued(cfg, s, w, u);
    }
    WatchKeepsUsed(cfg, s, w);
    hide Observed, Matches, CreateQueued, Members, Sound;
  }

  lemma WatchKeepsUsed(cfg: Config, s: Sys, w: Watch)
    requires Enabled(cfg, s, WatchPod(w))
    ensures forall u :: u in Apply(cfg, s, WatchPod(w)).cache ==> u in s.cache || u == w.uid
  {
  }

  lemma HandleKeepsOrderly(cfg: Config, s: Sys, now: int)
    requires Sound(cfg, s) && Orderly(cfg, s) && Enabled(cfg, s, HandleEvent(now))
    ensures Orderly(cfg, Apply(cfg, s, HandleEvent(now)))
  {
    var e, t := s.queue[0], Apply(cfg, s, HandleEvent(now));
    RemoveFirstOfDistinct(s.status.toRun, e.uid);
    RemoveFirstIsPart(s.status.toKill, e.uid);
    assert e.labels == cfg.labels(e.uid);
    forall u | u in t.status.toRun && u in Members(cfg, s.cache)
      ensures CreateQueued(t.queue, u)
    {
      var i :| 0 <= i < |s.queue| && s.queue[i].uid == u && s.queue[i].kind == PodCreate;
      assert i > 0 && t.queue[i - 1] == s.queue[i];
    }
  }

  lemma ForgetKeepsOrderly(cfg: Config, s: Sys, uids: set<string>)
    requires Orderly(cfg, s)
    ensures Orderly(cfg, Forget(cfg, s, uids))
  {
    hide CreateQueued, Matches;
  }

  lemma CreationKeepsOrderly(cfg: Config, s: Sys, step: Step)
    requires Orderly(cfg, s) && step.CreateOne? && Enabled(cfg, s, step)
    ensures Orderly(cfg, Apply(cfg, s, step))
  {
    hide Handle, Observed, Forget, CreateQueued, Matches;
    if step.creation.Made? {
      var uid := step.creation.uid;
      assert uid !in s.work.plan.created && NoRepeats([uid]);
      DistinctConcat(s.work.plan.created, [uid]);
    }
  }

  lemma DeletionKeepsOrderly(cfg: Config, s: Sys, step: Step)
    requires Orderly(cfg, s) && step.DeleteOne? && step.answer != Refused && Enabled(cfg, s, step)
    ensures Orderly(cfg, Apply(cfg, s, step))
  {
    hide Handle, Observed, CreateQueued, Matches;
  }

  lemma WriteKeepsOrderly(cfg: Config, s: Sys, step: Step)
    requires Orderly(cfg, s) && step.WriteStatus? && Enabled(cfg, s, step)
    ensures Orderly(cfg, Apply(cfg, s, step))
  {
    hide Handle, Observed, Forget, CreateQueued, Matches;
    var p := s.work.plan;
    DistinctConcat(s.status.toRun, p.created);
    assert forall u :: u in p.list ==> u in s.removed || u in s.lost;
  }

  lemma StepKeepsOrderly(cfg: Config, s: Sys, step: Step)
    requires Sound(cfg, s) && Orderly(cfg, s) && Enabled(cfg, s, step)
    requires step.DeleteOne? ==> step.answer != Refused
    ensures Orderly(cfg, Apply(cfg, s, step))
  {
    match step
    case WatchPod(w) => WatchKeepsOrderly(cfg, s, w);
    case HandleEvent(now) => HandleKeepsOrderly(cfg, s, now);
    case OtherRemove(uid) => ForgetKeepsOrderly(cfg, s, {uid});
    case ListPods(_, _, _) => hide CreateQueued, Matches;
    case ChangeScale(_) => hide CreateQueued, Matches;
    case CreateOne(_) => CreationKeepsOrderly(cfg, s, step);
    case DeleteOne(_) => DeletionKeepsOrderly(cfg, s, step);
    case WriteStatus(_) => WriteKeepsOrderly(cfg, s, step);
  }

  /** No deletion is refused. */
  predicate NoRefusal(steps: seq<Step>) {
    forall i :: 0 <= i < |steps| && steps[i].DeleteOne? ==> steps[i].answer != Refused
  }

  lemma {:induction false} RunIsOrderly(cfg: Config, s: Sys, steps: seq<Step>)
    requires Init(s) && Possible(cfg, s, steps) && NoRefusal(steps)
    ensures Orderly(cfg, After(cfg, s, steps))
  {
    if steps != [] {
      var front := steps[..|steps| - 1];
      assert forall i :: 0 <= i < |front| ==> front[i] == steps[i];
      hide Orderly, Init;
      RunIsOrderly(cfg, s, front);
      RunIsSound(cfg, s, front);
      StepKeepsOrderly(cfg, After(cfg, s, front), steps[|steps| - 1]);
    }
  }

  /** Running pods whose create events are handled, and that the API server knows, do not get in the way. */
  lemma HandledIsUndisturbed(cfg: Config, s: Sys, replicas: nat, runnings: seq<string>, bads: seq<string>)
    requires Sound(cfg, s) && Orderly(cfg, s) && Lists(cfg, s.cache, runnings, bads)
    requires forall u :: u in runnings ==> !CreateQueued(s.queue, u) && u !in s.lost
    ensures Undisturbed(s.status, runnings, replicas)
  {
    hide CreateQueued, Matches, Surplus;
    assert forall u :: u in runnings ==> u in Members(cfg, s.cache);
  }

  lemma {:induction false} DeletedIsServed(cfg: Config, s: Sys, steps: seq<Step>)
    requires Possible(cfg, s, steps)
    requires forall i :: 0 <= i < |steps| ==> !steps[i].CreateOne? && (steps[i].DeleteOne? ==> steps[i].answer == Deleted)
    ensures ServedRun(cfg, s, steps)
  {
    if steps != [] {
      var front := steps[..|steps| - 1];
      assert forall i :: 0 <= i < |front| ==> front[i] == steps[i];
      DeletedIsServed(cfg, s, front);
    }
  }

  /** The only pod is still to run and its create event waits: the reconcile deletes it and makes no other. A run from the start. */
  lemma QueuedCreateIsKilled(p: Pod, now: int)
    requires p.phase == Running
    ensures
      var st := Status(0, ["p"], [], [], now);
      var steps := [WatchPod(Put("p", p)), ListPods(1, ["p"], [])] + [DeleteOne(Deleted)] + [WriteStatus(now)];
      && Init(AtStart(st)) && Possible(AnyPod(p), AtStart(st), steps) && ServedRun(AnyPod(p), AtStart(st), steps)
      && After(AnyPod(p), AtStart(st), steps).cache == map[]
      && After(AnyPod(p), AtStart(st), steps).status.toRun == []
  {
    var st := Status(0, ["p"], [], [], now);
    var cfg, s, steps := AnyPod(p), AtStart(st), [WatchPod(Put("p", p)), ListPods(1, ["p"], [])];
    WatchedAndListed(p, st);
    PodIsKilled(p, now);
    assert Init(s);
    hide Possible, After, Init, Enabled, Apply, ServedRun;
    OneMoreStep(cfg, s, steps, DeleteOne(Deleted));
    OneMoreStep(cfg, s, steps + [DeleteOne(Deleted)], WriteStatus(now));
    DeletedIsServed(cfg, s, steps + [DeleteOne(Deleted)] + [WriteStatus(now)]);
  }

  lemma PodIsKilled(p: Pod, now: int)
    ensures
      var (cfg, st) := (AnyPod(p), Status(0, ["p"], [], [], now));
      var s := Watched(p, st, Reconciling(ReconcilePlan(st, 1, ["p"], [])));
      && Enabled(cfg, s, DeleteOne(Deleted))
      && var t := Apply(cfg, s, DeleteOne(Deleted));
      && Enabled(cfg, t, WriteStatus(now))
      && Apply(cfg, t, WriteStatus(now)).cache == map[] && Apply(cfg, t, WriteStatus(now)).status.toRun == []
  {
    var plan := ReconcilePlan(Status(0, ["p"], [], [], now), 1, ["p"], []);
    assert plan.list == ["p"] by {
      assert ["p"][..0] == [] && [] + ["p"] + [] + [] == ["p"];
    }
  }

  // ----- The reconcile after a successful one -----

  /**
    The pods created by a reconcile that reached its number now run, and the killed ones are gone:
    the next one creates nothing and has no surplus, and kills no running pod exactly if none is
    still to run or to be killed.
   */
  lemma NextReconcileIsQuiet(st1: Status, first: Plan, st2: Status, second: Plan)
    requires Done(st1, first) && CreatedApart(first) && Undisturbed(st1, first.runnings, first.replicas)
    requires Done(st2, second) && second.replicas == first.replicas
    requires Elements(second.runnings) == Elements(first.runnings) - first.deleted + Elements(first.created)
    ensures |second.runnings| == second.replicas
    ensures second.created == [] && Surplus(second.runnings, second.replicas) == []
    ensures Elements(second.runnings) * second.deleted == {} <==> Undisturbed(st2, second.runnings, second.replicas)
  {
    SurvivorsIff(st1, first);
    SurvivorsIff(st2, second);
    SizeOfDistinct(first.created);
    SizeOfDistinct(second.runnings);
    assert Elements(first.runnings) !! Elements(first.created);
    assert Elements([]) == {};
  }

  // ----- The kill list a reconcile writes -----

  /** Without repeats, and in the order in which the elements first occur in `all`. */
  ghost predicate InFirstOrder(sub: seq<string>, all: seq<string>) {
    && NoRepeats(sub) && (forall u :: u in sub ==> u in all)
    && forall i, j :: 0 <= i < j < |sub| ==> FirstIndex(all, sub[i]) < FirstIndex(all, sub[j])
  }

  /** The pods a reconcile wants gone: old kills, old starts, the surplus in front of the running list, bad pods. */
  function Unwanted(st: Status, runnings: seq<string>, replicas: int, bads: seq<string>): seq<string> {
    st.toKill + st.toRun
    + (if 0 <= replicas <= |runnings| then runnings[..|runnings| - replicas]
       else if replicas < 0 then runnings + seq(-replicas, _ => "") else [])
    + bads
  }

  lemma KillListIs(st: Status, runnings: seq<string>, replicas: int, bads: seq<string>)
    ensures
      var (list, all) := (KillList(st, runnings, replicas, bads), Unwanted(st, runnings, replicas, bads));
      InFirstOrder(list, all) && forall u :: u in list <==> u in all
  {
    var all := Unwanted(st, runnings, replicas, bads);
    assert st.toKill + st.toRun + Surplus(runnings, replicas) + bads == all;
    DedupIsSet(all);
    forall i, j | 0 <= i < j < |Dedup(all)| ensures FirstIndex(all, Dedup(all)[i]) < FirstIndex(all, Dedup(all)[j]) {
      DedupKeepsOrder(all, i, j);
    }
  }

  /** list[i] stays exactly if answers[i] is not "no objects found". */
  function KeptOf(list: seq<string>, answers: seq<Answer>): seq<string>
    requires |answers| <= |list|
  {
    if answers == [] then [] else
    var k := |answers| - 1;
    KeptOf(list, answers[..k]) + if answers[k] == NoObjects then [] else [list[k]]
  }

  lemma {:induction false} KeptOfIs(list: seq<string>, answers: seq<Answer>, all: seq<string>)
    requires |answers| <= |list| && InFirstOrder(list, all)
    ensures forall u :: u in KeptOf(list, answers) <==> exists i :: 0 <= i < |answers| && list[i] == u && answers[i] != NoObjects
    ensures InFirstOrder(KeptOf(list, answers), all)
  {
    if answers != [] {
      var k := |answers| - 1;
      var front := KeptOf(list, answers[..k]);
      KeptOfIs(list, answers[..k], all);
      assert forall i :: 0 <= i < k ==> answers[..k][i] == answers[i];
      assert list[k] in list && list[k] in all;
      forall u | u in front ensures u != list[k] && FirstIndex(all, u) < FirstIndex(all, list[k]) {
        var i :| 0 <= i < k && list[i] == u;
      }
      if answers[k] != NoObjects {
        assert NoRepeats([list[k]]);
        DistinctConcat(front, [list[k]]);
        assert KeptOf(list, answers) == front + [list[k]];
        forall i, j | 0 <= i < j < |front| + 1
          ensures FirstIndex(all, (front + [list[k]])[i]) < FirstIndex(all, (front + [list[k]])[j])
        {
          assert front[i] in front;
        }
      }
    }
  }

  // ----- What the steps of a run say about the work under way -----

  predicate Begins(step: Step) {
    step.ListPods? || step.ChangeScale?
  }

  /** The answers to the deletions asked for since the pods were listed. */
  function AnswersOf(steps: seq<Step>): seq<Answer> {
    if steps == [] then [] else
    var front, last := steps[..|steps| - 1], steps[|steps| - 1];
    if Begins(last) then [] else if last.DeleteOne? then AnswersOf(front) + [last.answer] else AnswersOf(front)
  }

  /** The pods created since then. */
  function CreatedIn(steps: seq<Step>): seq<string> {
    if steps == [] then [] else
    var front, last := steps[..|steps| - 1], steps[|steps| - 1];
    if Begins(last) then []
    else if last.CreateOne? && last.creation.Made? then CreatedIn(front) + [last.creation.uid]
    else CreatedIn(front)
  }

  function TriedIn(steps: seq<Step>): nat {
    if steps == [] then 0 else
    var front, last := steps[..|steps| - 1], steps[|steps| - 1];
    if Begins(last) then 0 else if last.CreateOne? then TriedIn(front) + 1 else TriedIn(front)
  }

  /** The last step that began some work. */
  function BegunBy(steps: seq<Step>): Option<Step> {
    if steps == [] then None else
    var front, last := steps[..|steps| - 1], steps[|steps| - 1];
    if Begins(last) then Some(last) else BegunBy(front)
  }

  /** The plan is what the steps since its beginning have made of it. */
  ghost predicate PlanFollows(s: Sys, steps: seq<Step>) {
    s.work.Idle? ||
    var p := s.work.plan;
    && |AnswersOf(steps)| == p.asked <= |p.list| && p.kept == KeptOf(p.list, AnswersOf(steps))
    && p.created == CreatedIn(steps)
    && (if s.work.Reconciling? then
          && BegunBy(steps) == Some(ListPods(p.replicas, p.runnings, p.bads))
          && p.list == KillList(s.status, p.runnings, p.replicas, p.bads)
          && p.left + TriedIn(steps) == AtLeastZero(p.replicas - |p.runnings|)
        else
          && BegunBy(steps) == Some(ChangeScale(p.replicas))
          && p.list == Surplus(s.status.running, p.replicas)
          && p.left + TriedIn(steps) == AtLeastZero(p.replicas - |s.status.running|))
  }

  lemma SnocFollows(steps: seq<Step>, step: Step)
    ensures
      var more := steps + [step];
      && AnswersOf(more) == (if Begins(step) then [] else if step.DeleteOne? then AnswersOf(steps) + [step.answer] else AnswersOf(steps))
      && CreatedIn(more) == (if Begins(step) then [] else if step.CreateOne? && step.creation.Made? then CreatedIn(steps) + [step.creation.uid] else CreatedIn(steps))
      && TriedIn(more) == (if Begins(step) then 0 else if step.CreateOne? then TriedIn(steps) + 1 else TriedIn(steps))
      && BegunBy(more) == (if Begins(step) then Some(step) else BegunBy(steps))
  {
    var more := steps + [step];
    assert more[..|more| - 1] == steps && more[|more| - 1] == step;
  }

  lemma StepFollows(cfg: Config, s: Sys, steps: seq<Step>, step: Step)
    requires PlanFollows(s, steps) && Enabled(cfg, s, step)
    ensures PlanFollows(Apply(cfg, s, step), steps + [step])
  {
    SnocFollows(steps, step);
    hide KillList, Surplus, Handle, Observed, Matches, Lists, AnswersOf, CreatedIn, TriedIn, BegunBy;
    if step.DeleteOne? {
      assert (AnswersOf(steps) + [step.answer])[..|AnswersOf(steps)|] == AnswersOf(steps);
    } else {
      hide KeptOf;
      if Begins(step) { NothingKept(Apply(cfg, s, step).work.plan.list); }
    }
  }

  lemma NothingKept(list: seq<string>)
    ensures KeptOf(list, []) == []
  {
  }

  lemma IdleFollows(s: Sys)
    requires s.work.Idle?
    ensures PlanFollows(s, [])
  {
  }

  lemma {:induction false} RunFollows(cfg: Config, s: Sys, steps: seq<Step>)
    requires s.work.Idle? && Possible(cfg, s, steps)
    ensures PlanFollows(After(cfg, s, steps), steps)
  {
    hide Possible, After, PlanFollows, Enabled, Apply;
    if steps == [] {
      NoStep(cfg, s);
      IdleFollows(s);
    } else {
      var front, last := steps[..|steps| - 1], steps[|steps| - 1];
      LastStep(cfg, s, steps);
      RunFollows(cfg, s, front);
      StepFollows(cfg, After(cfg, s, front), front, last);
      assert front + [last] == steps;
    }
  }

  /** The status st a reconcile writes over `was`, after the given steps. */
  ghost predicate WrittenAfter(steps: seq<Step>, was: Status, st: Status, now: int) {
    && BegunBy(steps).Some? && BegunBy(steps).value.ListPods?
    && var l := BegunBy(steps).value;
    && st.running == l.runnings && st.count == |l.runnings| && st.lastUpdate == now
    && st.toRun == CreatedIn(steps) && TriedIn(steps) == AtLeastZero(l.replicas - |l.runnings|)
    && var all := Unwanted(was, l.runnings, l.replicas, l.bads);
    InFirstOrder(st.toKill, all) && exists list :: KillsAnswered(list, all, AnswersOf(steps), st.toKill)
  }

  lemma PlanIsWritten(s: Sys, steps: seq<Step>, now: int)
    requires PlanFollows(s, steps) && s.work.Reconciling? && Finished(s.work)
    ensures WrittenAfter(steps, s.status, Written(s.status, s.work, now), now)
  {
    var p := s.work.plan;
    var all := Unwanted(s.status, p.runnings, p.replicas, p.bads);
    KillListIs(s.status, p.runnings, p.replicas, p.bads);
    KeptOfIs(p.list, AnswersOf(steps), all);
    hide KillList, Unwanted, InFirstOrder, KeptOf, AnswersOf, CreatedIn, BegunBy, TriedIn;
    assert KillsAnswered(p.list, all, AnswersOf(steps), p.kept);
  }

  /**
    In every run, whatever comes in between: the status a reconcile writes lists the pods it listed as
    running, the pods it created as to run, and as to kill, in first-occurrence order and without
    repeats, exactly the unwanted pods whose deletion was not answered "no objects found".
   */
  lemma StatusWritten(cfg: Config, s: Sys, steps: seq<Step>, now: int)
    requires s.work.Idle? && Possible(cfg, s, steps)
    requires After(cfg, s, steps).work.Reconciling? && Enabled(cfg, After(cfg, s, steps), WriteStatus(now))
    ensures
      var m, t := After(cfg, s, steps), Apply(cfg, After(cfg, s, steps), WriteStatus(now));
      t.work.Idle? && WrittenAfter(steps, m.status, t.status, now)
  {
    RunFollows(cfg, s, steps);
    hide Possible, After, PlanFollows, Written, WrittenAfter;
    PlanIsWritten(After(cfg, s, steps), steps, now);
  }

  /** The unwanted pods, each once and in order of first occurrence, were asked for one by one; toKill are those still there. */
  ghost predicate KillsAnswered(list: seq<string>, all: seq<string>, answers: seq<Answer>, toKill: seq<string>) {
    && InFirstOrder(list, all) && (forall u :: u in list <==> u in all) && |answers| == |list|
    && forall u :: u in toKill <==> exists i :: 0 <= i < |list| && list[i] == u && answers[i] != NoObjects
  }

  /** The status a change of scale writes: the created pods are to run as well, the front of the running list is to be killed as well. */
  lemma ScaleWritten(cfg: Config, s: Sys, steps: seq<Step>, now: int)
    requires s.work.Idle? && Possible(cfg, s, steps)
    requires After(cfg, s, steps).work.Scaling? && Enabled(cfg, After(cfg, s, steps), WriteStatus(now))
    ensures
      var was, t := After(cfg, s, steps).status, Apply(cfg, After(cfg, s, steps), WriteStatus(now));
      && BegunBy(steps).Some? && BegunBy(steps).value.ChangeScale? && BegunBy(steps).value.target >= 0
      && var target := BegunBy(steps).value.target;
      && t.work.Idle? && t.status.running == was.running && t.status.count == was.count && t.status.lastUpdate == now
      && t.status.toRun == was.toRun + CreatedIn(steps) && TriedIn(steps) == AtLeastZero(target - |was.running|)
      && t.status.toKill == was.toKill + if target < |was.running| then was.running[..|was.running| - target] else []
  {
    RunFollows(cfg, s, steps);
    hide Possible, After, AnswersOf, CreatedIn, BegunBy, TriedIn, KeptOf, Lists;
  }

  // ----- A whole reconcile -----

  lemma {:induction false} StillToKillIs(list: seq<string>, answers: string -> Answer)
    ensures forall u :: u in StillToKill(list, answers) <==> u in list && answers(u) != NoObjects
  {
    if list != [] {
      StillToKillIs(list[..|list| - 1], answers);
      assert list == list[..|list| - 1] + [list[|list| - 1]];
    }
  }

  lemma {:induction false} StillToKillInOrder(list: seq<string>, answers: string -> Answer, i: nat, j: nat) returns (a: nat, b: nat)
    requires i < j < |StillToKill(list, answers)|
    ensures a < b < |list| && list[a] == StillToKill(list, answers)[i] && list[b] == StillToKill(list, answers)[j]
  {
    var front := StillToKill(list[..|list| - 1], answers);
    if j < |front| {
      a, b := StillToKillInOrder(list[..|list| - 1], answers, i, j);
    } else {
      StillToKillIs(list[..|list| - 1], answers);
      b := |list| - 1;
      assert front[i] in front;
      a :| 0 <= a < b && list[a] == front[i];
    }
  }

  /**
    The kill list after a reconcile: without repeats, exactly the unwanted pods the API server knows, in
    order of first occurrence.
   */
  ghost predicate KillsLeft(st: Status, runnings: seq<string>, replicas: int, bads: seq<string>, answers: string -> Answer, toKill: seq<string>) {
    var all := Unwanted(st, runnings, replicas, bads);
    InFirstOrder(toKill, all) && forall u :: u in toKill <==> u in all && answers(u) != NoObjects
  }

  lemma NewKillList(st: Status, runnings: seq<string>, replicas: int, bads: seq<string>, answers: string -> Answer)
    ensures KillsLeft(st, runnings, replicas, bads, answers, StillToKill(KillList(st, runnings, replicas, bads), answers))
  {
    var all := Unwanted(st, runnings, replicas, bads);
    var list := KillList(st, runnings, replicas, bads);
    var kept := StillToKill(list, answers);
    KillListIs(st, runnings, replicas, bads);
    StillToKillIs(list, answers);
    hide KillList, Unwanted;
    forall i, j | 0 <= i < j < |kept|
      ensures kept[i] in all && kept[j] in all
      ensures kept[i] != kept[j] && FirstIndex(all, kept[i]) < FirstIndex(all, kept[j])
    {
      var a, b := StillToKillInOrder(list, answers, i, j);
      assert list[a] in list && list[b] in list;
    }
    assert forall u :: u in kept ==> u in all;
  }

  /** The status after a whole reconcile. */
  lemma WholeReconcileWrites(
    cfg: Config, s: Sys, replicas: nat, runnings: seq<string>, bads: seq<string>,
    create: nat -> Creation, answers: string -> Answer, now: int)
    requires s.work.Idle? && Lists(cfg, s.cache, runnings, bads)
    requires FreshUids(create, AtLeastZero(replicas - |runnings|), s.used)
    ensures
      var steps := ReconcileSteps(s.status, replicas, runnings, bads, create, answers, now);
      && Possible(cfg, s, steps)
      && var st := After(cfg, s, steps).status;
      && KillsLeft(s.status, runnings, replicas, bads, answers, st.toKill)
      && st.running == runnings && st.count == |runnings| && st.lastUpdate == now
      && (forall u :: u in st.toRun <==> exists i: nat :: i < AtLeastZero(replicas - |runnings|) && create(i) == Made(u))
  {
    ReconcileRuns(cfg, s, replicas, runnings, bads, create, answers, now);
    NewKillList(s.status, runnings, replicas, bads, answers);
    var n := AtLeastZero(replicas - |runnings|);
    forall u ensures u in MadeBy(create, n) <==> exists i: nat :: i < n && create(i) == Made(u) {
      MadeAre(create, n, u);
    }
    hide KillsLeft, KillList, StillToKill, MadeBy, Possible, After, Lists, FreshUids, ReconcileSteps;
  }
}
