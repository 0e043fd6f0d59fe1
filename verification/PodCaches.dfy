/** What the cache of the controller manager's pod informer holds after any run, and what it announces. */
module PodCaches {
  import opened PodInformer
  import opened ReplicaSets
  import opened RunningLists

  /** The informer listens to deletions and to pods past their binding. */
  predicate Heard(w: Watch) {
    w.Delete? || (w.Put? && w.pod.phase != Created && w.pod.phase != Bound)
  }

  predicate SaysRunning(w: Watch) {
    w.Put? && (w.pod.phase == Accepted || w.pod.phase == Running)
  }

  predicate Tells(step: Step, uid: string) {
    step.WatchPod? && step.w.uid == uid && Heard(step.w)
  }

  ghost predicate LastTold(steps: seq<Step>, uid: string, k: int) {
    0 <= k < |steps| && Tells(steps[k], uid) && forall j :: k < j < |steps| ==> !Tells(steps[j], uid)
  }

  /** A pod is cached exactly if it was never removed and is running by the last that was heard of it. */
  ghost predicate Shows(steps: seq<Step>, cache: Cache, removed: set<string>, uid: string) {
    if uid in cache
    then uid !in removed
         && exists k :: LastTold(steps, uid, k) && SaysRunning(steps[k].w) && cache[uid] == steps[k].w.pod
    else uid in removed || forall k :: LastTold(steps, uid, k) ==> !SaysRunning(steps[k].w)
  }

  /** Pods are removed by other controllers, and when the API server deletes the pod whose turn it is. */
  predicate Removes(s: Sys, step: Step, uid: string) {
    match step
    case OtherRemove(u) => u == uid
    case DeleteOne(answer) =>
      answer == Deleted && !s.work.Idle? && s.work.plan.asked < |s.work.plan.list| && s.work.plan.list[s.work.plan.asked] == uid
    case _ => false
  }

  lemma StepRemoves(cfg: Config, s: Sys, step: Step, uid: string)
    requires Enabled(cfg, s, step)
    ensures uid in Apply(cfg, s, step).removed <==> uid in s.removed || Removes(s, step, uid)
    ensures
      var t := Apply(cfg, s, step);
      && (!step.WatchPod? ==> t.cache - t.removed == s.cache - t.removed)
      && (Removes(s, step, uid) ==> uid !in t.cache)
  {
    hide Handle, Observed, Lists, Matches, Written, ReconcilePlan, ScalePlan;
  }

  /** For all runs: who is on the list of removed pods. */
  lemma {:induction false} RemovedAre(cfg: Config, s: Sys, steps: seq<Step>, uid: string)
    requires Possible(cfg, s, steps)
    ensures uid in After(cfg, s, steps).removed <==> uid in s.removed || exists k :: RemovedAt(cfg, s, steps, uid, k)
  {
    hide Possible, After, Enabled, Apply, Removes;
    if steps == [] {
      NoStep(cfg, s);
    } else {
      var n := |steps| - 1;
      var front := steps[..n];
      LastStep(cfg, s, steps);
      RemovedAre(cfg, s, front, uid);
      StepRemoves(cfg, After(cfg, s, front), steps[n], uid);
      assert forall k :: 0 <= k < n ==> steps[..k] == front[..k];
      if k :| RemovedAt(cfg, s, front, uid, k) {
        assert RemovedAt(cfg, s, steps, uid, k);
      }
      if Removes(After(cfg, s, front), steps[n], uid) {
        assert RemovedAt(cfg, s, steps, uid, n);
      }
      if k :| RemovedAt(cfg, s, steps, uid, k) && k < n {
        assert RemovedAt(cfg, s, front, uid, k);
      }
    }
  }

  ghost predicate RemovedAt(cfg: Config, s: Sys, steps: seq<Step>, uid: string, k: int) {
    0 <= k < |steps| && Possible(cfg, s, steps[..k]) && Removes(After(cfg, s, steps[..k]), steps[k], uid)
  }

  /** What a watch event sends, told by the pod's running before and after. */
  function Announced(cfg: Config, s: Sys, w: Watch): seq<Event> {
    var before, now := w.uid in s.cache, SaysRunning(w);
    var labels := cfg.labels(w.uid);
    if !Heard(w) || w.uid in s.removed then []
    else if now then [Event(if before then PodUpdate else PodCreate, w.uid, labels)]
    else if before then [Event(PodKilled, w.uid, labels)]
    else []
  }

  lemma WatchAnnounces(cfg: Config, s: Sys, w: Watch)
    requires Sound(cfg, s) && Enabled(cfg, s, WatchPod(w))
    ensures Apply(cfg, s, WatchPod(w)).queue == s.queue + Announced(cfg, s, w)
  {
  }

  lemma WatchShows(cfg: Config, s: Sys, steps: seq<Step>, w: Watch, uid: string)
    requires Sound(cfg, s) && Enabled(cfg, s, WatchPod(w)) && Shows(steps, s.cache, s.removed, uid)
    ensures var t := Apply(cfg, s, WatchPod(w)); Shows(steps + [WatchPod(w)], t.cache, t.removed, uid)
  {
    var t, more := Apply(cfg, s, WatchPod(w)), steps + [WatchPod(w)];
    if Tells(WatchPod(w), uid) {
      assert LastTold(more, uid, |steps|);
      assert forall k :: LastTold(more, uid, k) ==> k == |steps|;
    } else {
      SameTold(steps, WatchPod(w), uid);
      assert uid in t.cache <==> uid in s.cache;
      hide Observed, Apply;
    }
  }

  lemma SameTold(steps: seq<Step>, step: Step, uid: string)
    requires !Tells(step, uid)
    ensures forall k :: LastTold(steps, uid, k) ==> LastTold(steps + [step], uid, k) && steps[k] == (steps + [step])[k]
    ensures forall k :: LastTold(steps + [step], uid, k) ==> LastTold(steps, uid, k)
  {
    var more := steps + [step];
    assert forall k :: 0 <= k < |steps| ==> more[k] == steps[k];
  }

  lemma OtherStepShows(cfg: Config, s: Sys, steps: seq<Step>, step: Step, uid: string)
    requires Enabled(cfg, s, step) && !step.WatchPod? && Shows(steps, s.cache, s.removed, uid)
    ensures var t := Apply(cfg, s, step); Shows(steps + [step], t.cache, t.removed, uid)
  {
    StepRemoves(cfg, s, step, uid);
    SameTold(steps, step, uid);
    hide Apply, Enabled, LastTold;
  }

  /** For all runs from the start: who is cached, and with what. */
  lemma {:induction false} CacheShowsLast(cfg: Config, s: Sys, steps: seq<Step>, uid: string)
    requires Init(s) && Possible(cfg, s, steps)
    ensures var t := After(cfg, s, steps); Shows(steps, t.cache, t.removed, uid)
  {
    if steps != [] {
      var front, last := steps[..|steps| - 1], steps[|steps| - 1];
      hide Shows, Init, Sound, Possible, After, Enabled, Apply;
      LastStep(cfg, s, steps);
      CacheShowsLast(cfg, s, front, uid);
      RunIsSound(cfg, s, front);
      assert steps == front + [last];
      if last.WatchPod? {
        WatchShows(cfg, After(cfg, s, front), front, last.w, uid);
      } else {
        OtherStepShows(cfg, After(cfg, s, front), front, last, uid);
      }
    }
  }
}
