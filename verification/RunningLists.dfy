/**
  What the running list of a ReplicaSet says, whatever the interleaving of watch, handlers and a
  reconcile that lists pods first and writes the status last.
 */
module RunningLists {
  import opened PodInformer
  import opened EventCounts
  import opened ReplicaSets
  import Slices
  import Compare

  // ----- Counting a pod in the running list -----

  function Count(s: seq<string>, u: string): nat {
    multiset(s)[u]
  }

  lemma CountAppend(s: seq<string>, x: string, u: string)
    ensures Count(s + [x], u) == Count(s, u) + if x == u then 1 else 0
  {
    assert multiset(s + [x]) == multiset(s) + multiset{x};
  }

  lemma CountRemoveFirst(s: seq<string>, x: string, u: string)
    ensures Count(Slices.RemoveFirst(s, x), u) == if x == u && Count(s, u) > 0 then Count(s, u) - 1 else Count(s, u)
  {
    Slices.RemoveFirstCounts(s, x);
  }

  lemma CountIsMembership(s: seq<string>, u: string)
    ensures u in s <==> Count(s, u) > 0
  {
    assert u in s <==> u in multiset(s);
  }

  lemma HandleCounts(selector: Labels, st: Status, e: Event, now: int, u: string)
    ensures Count(Handle(selector, st, e, now).running, u)
      == if e.uid == u && Compare.MatchLabelSelector(selector, e.labels) then Bump(Count(st.running, u), e.kind)
         else Count(st.running, u)
  {
    hide Count, Compare.MatchLabelSelector, Slices.RemoveFirst;
    CountAppend(st.running, e.uid, u);
    CountRemoveFirst(st.running, e.uid, u);
    CountIsMembership(st.running, e.uid);
  }

  lemma {:induction false} NoRepeatsByCount(s: seq<string>)
    ensures Slices.NoRepeats(s) <==> forall u :: Count(s, u) <= 1
  {
    hide Count;
    if s == [] {
      forall u
        ensures Count(s, u) == 0
      {
        CountIsMembership(s, u);
      }
    } else {
      var t, last := s[..|s| - 1], s[|s| - 1];
      assert s == t + [last];
      NoRepeatsByCount(t);
      forall u
        ensures Count(s, u) == Count(t, u) + if u == last then 1 else 0
        ensures u in t <==> Count(t, u) > 0
      {
        CountAppend(t, last, u);
        CountIsMembership(t, u);
      }
      assert Slices.NoRepeats(s) <==> Slices.NoRepeats(t) && last !in t;
    }
  }

  // ----- What every step keeps -----

  /** The running list: while a reconcile is under way, the one it is going to write. */
  function Listed(s: Sys): seq<string> {
    if s.work.Reconciling? then s.work.plan.runnings else s.status.running
  }

  /** How often a matching pod will be listed as running once the queue is handled. */
  function Expected(s: Sys, u: string): nat {
    Indicator(u in s.cache) + Indicator(u in s.gone)
  }

  ghost predicate FixedLabels(cfg: Config, s: Sys) {
    && (forall u :: u in s.cache ==> s.cache[u].labels == cfg.labels(u))
    && (forall i :: 0 <= i < |s.queue| ==> s.queue[i].labels == cfg.labels(s.queue[i].uid))
  }

  ghost predicate Tallied(cfg: Config, s: Sys) {
    forall u :: if Matches(cfg, u) then Tally(Count(Listed(s), u), s.queue, u) == Expected(s, u)
                else Count(Listed(s), u) == 0
  }

  /** What holds of cache, events and removals whatever the running list says. */
  ghost predicate Sound(cfg: Config, s: Sys) {
    && Tracks(s.cache, s.removed, s.handled + s.queue) && FixedLabels(cfg, s)
    && s.gone <= s.removed && forall u :: u in s.gone ==> Matches(cfg, u)
  }

  ghost predicate Accurate(cfg: Config, s: Sys) {
    Sound(cfg, s) && Tallied(cfg, s)
  }

  /** An announced change of the cache is the change its event makes to the tally. */
  lemma AnnouncedIsTallied(cfg: Config, s: Sys, c: Cache, more: seq<Event>, uid: string, u: string)
    requires Tallied(cfg, s) && Announces(s.cache, c, more, uid)
    requires more != [] ==> uid !in s.gone
    requires Matches(cfg, u)
    ensures Tally(Count(Listed(s), u), s.queue + more, u) == Indicator(u in c) + Indicator(u in s.gone)
  {
    hide Matches, Count, Listed;
    if more == [] {
      assert s.queue + more == s.queue;
    } else {
      assert more == [more[0]];
      TallyAppend(Count(Listed(s), u), s.queue, more[0], u);
    }
  }

  lemma WatchKeepsLabels(cfg: Config, s: Sys, w: Watch, c: Cache, more: seq<Event>, s': Sys)
    requires FixedLabels(cfg, s) && Announces(s.cache, c, more, w.uid)
    requires w.Put? ==> w.pod.labels == cfg.labels(w.uid)
    requires w.uid in c ==> (w.Put? && c[w.uid] == w.pod) || (w.uid in s.cache && c[w.uid] == s.cache[w.uid])
    requires s'.cache == c && s'.queue == s.queue + more
    ensures FixedLabels(cfg, s')
  {
  }

  lemma WatchKeepsTally(cfg: Config, s: Sys, uid: string, c: Cache, more: seq<Event>, s': Sys)
    requires Tallied(cfg, s) && Announces(s.cache, c, more, uid) && (more != [] ==> uid !in s.gone)
    requires s' == s.(cache := c, queue := s.queue + more, used := s.used + {uid})
    ensures Tallied(cfg, s')
  {
    assert Listed(s') == Listed(s);
    hide Tally, Count, Matches, Listed;
    forall u | Matches(cfg, u)
      ensures Tally(Count(Listed(s), u), s.queue + more, u) == Indicator(u in c) + Indicator(u in s.gone)
    {
      AnnouncedIsTallied(cfg, s, c, more, uid, u);
    }
  }

  lemma WatchKeepsSound(cfg: Config, s: Sys, w: Watch)
    requires Sound(cfg, s) && Enabled(cfg, s, WatchPod(w))
    ensures Sound(cfg, Apply(cfg, s, WatchPod(w)))
    ensures
      var (c, more) := Observed(s.cache, s.removed, w);
      Announces(s.cache, c, more, w.uid) && (more != [] ==> w.uid !in s.gone)
  {
    var (c, more) := Observed(s.cache, s.removed, w);
    var s' := Apply(cfg, s, WatchPod(w));
    ObserveTracks(s.cache, s.removed, s.handled + s.queue, w);
    ObserveAnnounces(s.cache, s.removed, w);
    assert s.handled + (s.queue + more) == s.handled + s.queue + more;
    assert forall u :: u in s.gone ==> Matches(cfg, u) && u in s.removed;
    assert s'.cache == c && s'.queue == s.queue + more;
    hide Observed, FixedLabels, Tracks, Announces, Matches;
    WatchKeepsLabels(cfg, s, w, c, more, s');
  }

  lemma WatchKeepsAccurate(cfg: Config, s: Sys, w: Watch)
    requires Accurate(cfg, s) && Enabled(cfg, s, WatchPod(w))
    ensures Accurate(cfg, Apply(cfg, s, WatchPod(w)))
  {
    WatchKeepsSound(cfg, s, w);
    var (c, more) := Observed(s.cache, s.removed, w);
    var s' := Apply(cfg, s, WatchPod(w));
    assert s' == s.(cache := c, queue := s.queue + more, used := s.used + {w.uid});
    hide Sound, Tallied, Announces, Observed;
    WatchKeepsTally(cfg, s, w.uid, c, more, s');
  }

  lemma HandleKeepsSound(cfg: Config, s: Sys, now: int)
    requires Sound(cfg, s) && Enabled(cfg, s, HandleEvent(now))
    ensures Sound(cfg, Apply(cfg, s, HandleEvent(now)))
  {
    var s' := Apply(cfg, s, HandleEvent(now));
    assert s'.handled + s'.queue == s.handled + s.queue;
    hide Handle, Tracks, Matches;
  }

  lemma HandleKeepsAccurate(cfg: Config, s: Sys, now: int)
    requires Accurate(cfg, s) && Enabled(cfg, s, HandleEvent(now))
    ensures Accurate(cfg, Apply(cfg, s, HandleEvent(now)))
  {
    HandleKeepsSound(cfg, s, now);
    var s' := Apply(cfg, s, HandleEvent(now));
    var e := s.queue[0];
    assert e.labels == cfg.labels(e.uid);
    forall u
      ensures if Matches(cfg, u) then Tally(Count(s'.status.running, u), s'.queue, u) == Expected(s', u)
              else Count(s'.status.running, u) == 0
    {
      HandleCounts(cfg.selector, s.status, e, now, u);
    }
  }

  /** Forgetting pods changes neither side of the tally. */
  lemma ForgetTallies(cfg: Config, s: Sys, uids: set<string>)
    requires Sound(cfg, s)
    ensures Sound(cfg, Forget(cfg, s, uids))
    ensures Tallied(cfg, Forget(cfg, s, uids)) <==> Tallied(cfg, s)
  {
    var t := Forget(cfg, s, uids);
    assert t.handled + t.queue == s.handled + s.queue;
    assert Listed(t) == Listed(s) && t.queue == s.queue;
    assert forall u :: Matches(cfg, u) ==> Expected(t, u) == Expected(s, u);
    hide Tally, Count, Listed, Expected;
  }

  predicate IsOwnWork(step: Step) {
    step.ChangeScale? || step.CreateOne? || step.DeleteOne? || step.WriteStatus?
  }

  /** Neither do the creations, the deletions and the write. */
  lemma OwnWorkTallies(cfg: Config, s: Sys, step: Step)
    requires Sound(cfg, s) && IsOwnWork(step) && Enabled(cfg, s, step)
    ensures Sound(cfg, Apply(cfg, s, step))
    ensures Tallied(cfg, Apply(cfg, s, step)) <==> Tallied(cfg, s)
  {
    var t := Apply(cfg, s, step);
    hide Handle, Observed, Matches, Tally, Count, Expected, Tracks;
    if step.DeleteOne? {
      var uid := s.work.plan.list[s.work.plan.asked];
      var m := s.(work := With(s.work, AskedOne(s.work.plan, step.answer)),
                  lost := s.lost + if step.answer == NoObjects then {uid} else {});
      assert m.handled + m.queue == s.handled + s.queue && Listed(m) == Listed(s);
      hide Forget;
      SameTally(cfg, s, m);
      ForgetTallies(cfg, m, if step.answer == Deleted then {uid} else {});
    } else {
      assert t.handled + t.queue == s.handled + s.queue && Listed(t) == Listed(s);
      SameTally(cfg, s, t);
    }
  }

  lemma SameTally(cfg: Config, s: Sys, t: Sys)
    requires Sound(cfg, s) && Listed(t) == Listed(s) && t.cache == s.cache && t.gone == s.gone && t.removed == s.removed
    requires t.queue == s.queue && t.handled == s.handled
    ensures Sound(cfg, t) && (Tallied(cfg, t) <==> Tallied(cfg, s))
  {
    assert forall u :: Expected(t, u) == Expected(s, u);
    hide Tracks, Matches, Tally, Count, Listed, Expected;
  }

  // ----- The other fields of the status -----

  /**
    A create takes the pod off the pods to run, a killing off the pods to kill, once each; only a
    create restarts the waiting time; events of other pods' ReplicaSets change nothing.
   */
  lemma HandledTakesOff(selector: Labels, st: Status, e: Event, now: int, u: string)
    ensures
      var t, mine := Handle(selector, st, e, now), Compare.MatchLabelSelector(selector, e.labels) && e.uid == u;
      && Count(t.toRun, u) == (if mine && e.kind == PodCreate then OneLess(Count(st.toRun, u)) else Count(st.toRun, u))
      && Count(t.toKill, u) == (if mine && e.kind == PodKilled then OneLess(Count(st.toKill, u)) else Count(st.toKill, u))
    ensures
      var t, mine := Handle(selector, st, e, now), Compare.MatchLabelSelector(selector, e.labels);
      && t.lastUpdate == (if mine && e.kind == PodCreate then now else st.lastUpdate)
      && (!mine ==> t == st)
  {
    hide Slices.RemoveFirst, Compare.MatchLabelSelector, Count;
    CountRemoveFirst(st.toRun, e.uid, u);
    CountRemoveFirst(st.toKill, e.uid, u);
  }

  function OneLess(n: nat): nat { if n == 0 then 0 else n - 1 }

  lemma HandledKeepsCount(selector: Labels, st: Status, e: Event, now: int)
    requires st.count == |st.running|
    ensures Handle(selector, st, e, now).count == |Handle(selector, st, e, now).running|
  {
    hide Slices.RemoveFirst, Compare.MatchLabelSelector;
    if e.uid in st.running {
      Slices.RemoveFirstSize(st.running, e.uid);
    }
  }

  lemma StepKeepsCount(cfg: Config, s: Sys, step: Step)
    requires Enabled(cfg, s, step) && s.status.count == |s.status.running|
    ensures Apply(cfg, s, step).status.count == |Apply(cfg, s, step).status.running|
  {
    if step.HandleEvent? {
      HandledKeepsCount(cfg.selector, s.status, s.queue[0], step.now);
    }
    hide Handle, Observed, Lists;
  }

  /** The number of running replicas is always the length of the running list. */
  lemma {:induction false} RunKeepsCount(cfg: Config, s: Sys, steps: seq<Step>)
    requires Init(s) && Possible(cfg, s, steps)
    ensures After(cfg, s, steps).status.count == |After(cfg, s, steps).status.running|
  {
    hide Possible, After, Enabled, Apply;
    if steps == [] {
      NoStep(cfg, s);
    } else {
      LastStep(cfg, s, steps);
      RunKeepsCount(cfg, s, steps[..|steps| - 1]);
      StepKeepsCount(cfg, After(cfg, s, steps[..|steps| - 1]), steps[|steps| - 1]);
    }
  }

  // ----- Listing pods while events are queued -----

  /**
    No queued event will make a reconciled list wrong: no cached member's first queued event is a
    create, and no removed member's last one leaves it running.
   */
  ghost predicate Clean(cfg: Config, s: Sys) {
    forall u :: Matches(cfg, u) ==>
      !(u in s.cache && BeginsWithCreate(s.queue, u)) && !(u in s.removed && EndsRunning(s.queue, u))
  }

  /** For one pod: listing it exactly if it is cached is right exactly if its queued events are harmless. */
  lemma RelistedRight(cfg: Config, s: Sys, u: string)
    requires Sound(cfg, s) && Matches(cfg, u)
    ensures Tally(Indicator(u in s.cache), s.queue, u) == Indicator(u in s.cache) <==>
      !(u in s.cache && BeginsWithCreate(s.queue, u)) && !(u in s.removed && EndsRunning(s.queue, u))
  {
    var before := LifeOf(s.handled, u);
    var after := LifeFrom(before, s.queue, u);
    LifeSplits(s.handled, s.queue, u);
    if before == Confused {
      ConfusedForGood(s.queue, u);
    }
    BeginsIffDead(before, s.queue, u);
    EndsIffAlive(before, s.queue, u);
    if before == Alive {
      TallyCatchesUp(s.queue, u);
    }
    TallyFollows(before, 0, s.queue, u);
    if before == Dead {
      TallyFollows(before, 1, s.queue, u);
    }
    NotMentioned(before, s.queue, u);
  }

  lemma ListedCount(cfg: Config, s: Sys, runnings: seq<string>, bads: seq<string>, u: string)
    requires Sound(cfg, s) && Lists(cfg, s.cache, runnings, bads)
    ensures Count(runnings, u) == Indicator(u in s.cache && Matches(cfg, u))
  {
    NoRepeatsByCount(runnings);
    CountIsMembership(runnings, u);
  }

  lemma ListingTallies(cfg: Config, s: Sys, s': Sys, runnings: seq<string>, bads: seq<string>)
    requires Sound(cfg, s) && Lists(cfg, s.cache, runnings, bads)
    requires Listed(s') == runnings && s'.cache == s.cache && s'.queue == s.queue && s'.gone == {}
    ensures Tallied(cfg, s') <==> Clean(cfg, s)
  {
    forall u
      ensures Matches(cfg, u) ==>
        (Tally(Count(Listed(s'), u), s'.queue, u) == Expected(s', u) <==>
          !(u in s.cache && BeginsWithCreate(s.queue, u)) && !(u in s.removed && EndsRunning(s.queue, u)))
      ensures !Matches(cfg, u) ==> Count(Listed(s'), u) == 0
    {
      ListedCount(cfg, s, runnings, bads, u);
      if Matches(cfg, u) {
        RelistedRight(cfg, s, u);
      }
    }
    hide Sound, Lists, Tally, Count, Matches, BeginsWithCreate, EndsRunning, Expected, Listed;
  }

  /** Listing the pods is right exactly when the queue is clean; an empty queue always is. */
  lemma ListingIsAccurateIffClean(cfg: Config, s: Sys, step: Step)
    requires Sound(cfg, s) && step.ListPods? && Enabled(cfg, s, step)
    ensures Sound(cfg, Apply(cfg, s, step))
    ensures Accurate(cfg, Apply(cfg, s, step)) <==> Clean(cfg, s)
    ensures s.queue == [] ==> Clean(cfg, s)
  {
    var s' := Apply(cfg, s, step);
    assert s'.handled + s'.queue == s.handled + s.queue && s'.removed == s.removed;
    hide Tallied, Clean, Lists, Tracks, Matches;
    ListingTallies(cfg, s, s', step.runnings, step.bads);
    if s.queue == [] {
      EmptyIsClean(cfg, s);
    }
  }

  lemma EmptyIsClean(cfg: Config, s: Sys)
    requires s.queue == []
    ensures Clean(cfg, s)
  {
  }

  // ----- Whole runs -----

  lemma InitIsAccurate(cfg: Config, s: Sys)
    requires Init(s)
    ensures Accurate(cfg, s)
  {
    assert forall u :: Count(s.status.running, u) == 0;
  }

  lemma StepKeepsSound(cfg: Config, s: Sys, step: Step)
    requires Sound(cfg, s) && Enabled(cfg, s, step)
    ensures Sound(cfg, Apply(cfg, s, step))
  {
    match step
    case WatchPod(w) => WatchKeepsSound(cfg, s, w);
    case HandleEvent(now) => HandleKeepsSound(cfg, s, now);
    case OtherRemove(uid) => ForgetTallies(cfg, s, {uid});
    case ListPods(_, _, _) => ListingIsAccurateIffClean(cfg, s, step);
    case ChangeScale(_) => OwnWorkTallies(cfg, s, step);
    case CreateOne(_) => OwnWorkTallies(cfg, s, step);
    case DeleteOne(_) => OwnWorkTallies(cfg, s, step);
    case WriteStatus(_) => OwnWorkTallies(cfg, s, step);
  }

  lemma {:induction false} RunIsSound(cfg: Config, s: Sys, steps: seq<Step>)
    requires Init(s) && Possible(cfg, s, steps)
    ensures Sound(cfg, After(cfg, s, steps))
  {
    if steps == [] {
      InitIsAccurate(cfg, s);
    } else {
      var front := steps[..|steps| - 1];
      hide Sound, Init;
      RunIsSound(cfg, s, front);
      StepKeepsSound(cfg, After(cfg, s, front), steps[|steps| - 1]);
    }
  }

  lemma StepKeepsAccurate(cfg: Config, s: Sys, step: Step)
    requires Accurate(cfg, s) && Enabled(cfg, s, step) && (step.ListPods? ==> Clean(cfg, s))
    ensures Accurate(cfg, Apply(cfg, s, step))
  {
    match step
    case WatchPod(w) => WatchKeepsAccurate(cfg, s, w);
    case HandleEvent(now) => HandleKeepsAccurate(cfg, s, now);
    case OtherRemove(uid) => ForgetTallies(cfg, s, {uid});
    case ListPods(_, _, _) => ListingIsAccurateIffClean(cfg, s, step);
    case ChangeScale(_) => OwnWorkTallies(cfg, s, step);
    case CreateOne(_) => OwnWorkTallies(cfg, s, step);
    case DeleteOne(_) => OwnWorkTallies(cfg, s, step);
    case WriteStatus(_) => OwnWorkTallies(cfg, s, step);
  }

  /** Whenever pods are listed, the queue is clean. */
  ghost predicate CleanListings(cfg: Config, s: Sys, steps: seq<Step>)
    requires Possible(cfg, s, steps)
  {
    steps == [] ||
    var front, last := steps[..|steps| - 1], steps[|steps| - 1];
    CleanListings(cfg, s, front) && (last.ListPods? ==> Clean(cfg, After(cfg, s, front)))
  }

  lemma {:induction false} RunIsAccurate(cfg: Config, s: Sys, steps: seq<Step>)
    requires Init(s) && Possible(cfg, s, steps) && CleanListings(cfg, s, steps)
    ensures Accurate(cfg, After(cfg, s, steps))
  {
    if steps == [] {
      InitIsAccurate(cfg, s);
    } else {
      var front := steps[..|steps| - 1];
      hide Accurate, Init, Clean;
      RunIsAccurate(cfg, s, front);
      StepKeepsAccurate(cfg, After(cfg, s, front), steps[|steps| - 1]);
    }
  }

  /** A reconcile that nothing interrupts leaves an accurate status exactly when the queue was clean. */
  lemma ReconcileAccurateIffClean(
    cfg: Config, s: Sys, replicas: nat, runnings: seq<string>, bads: seq<string>,
    create: nat -> Creation, answers: string -> Answer, now: int)
    requires Accurate(cfg, s) && s.work.Idle? && Lists(cfg, s.cache, runnings, bads)
    requires FreshUids(create, AtLeastZero(replicas - |runnings|), s.used)
    ensures
      var steps := ReconcileSteps(s.status, replicas, runnings, bads, create, answers, now);
      Possible(cfg, s, steps) && (Accurate(cfg, After(cfg, s, steps)) <==> Clean(cfg, s))
  {
    ReconcileRuns(cfg, s, replicas, runnings, bads, create, answers, now);
    ListingIsAccurateIffClean(cfg, s, ListPods(replicas, runnings, bads));
    var s1 := Apply(cfg, s, ListPods(replicas, runnings, bads));
    var list, made := KillList(s.status, runnings, replicas, bads), MadeBy(create, AtLeastZero(replicas - |runnings|));
    var deleted := DeletedFrom(list, answers);
    var t := Reconciled(cfg, s, replicas, runnings, bads, create, answers, now);
    ForgetTallies(cfg, s1, deleted);
    SameTally(cfg, Forget(cfg, s1, deleted), t);
  }

  lemma {:induction false} HandleAllCounts(cfg: Config, st: Status, events: seq<Event>, now: int, u: string)
    requires forall i :: 0 <= i < |events| ==> events[i].labels == cfg.labels(events[i].uid)
    ensures Count(HandleAll(cfg.selector, st, events, now).running, u)
      == if Matches(cfg, u) then Tally(Count(st.running, u), events, u) else Count(st.running, u)
    decreases |events|
  {
    if events != [] {
      var e := events[0];
      assert e.labels == cfg.labels(e.uid);
      HandleCounts(cfg.selector, st, e, now, u);
      HandleAllCounts(cfg, Handle(cfg.selector, st, e, now), events[1..], now, u);
    }
  }

  /**
    At any time a controller at rest that handles what is queued lists exactly the cached members, and
    the members forgotten since the last listing, each once.
   */
  lemma DrainedListIsExact(cfg: Config, s: Sys, now: int)
    requires Accurate(cfg, s) && s.work.Idle?
    ensures var running := HandleAll(cfg.selector, s.status, s.queue, now).running;
      && Slices.NoRepeats(running)
      && forall u :: u in running <==> u in Members(cfg, s.cache) || u in s.gone
  {
    var running := HandleAll(cfg.selector, s.status, s.queue, now).running;
    forall u
      ensures Count(running, u) <= 1
      ensures u in running <==> u in Members(cfg, s.cache) || u in s.gone
    {
      HandleAllCounts(cfg, s.status, s.queue, now, u);
      CountIsMembership(running, u);
    }
    NoRepeatsByCount(running);
  }

  // ----- A pod whose create event waits -----

  function AnyPod(p: Pod): Config {
    Config(map[], _ => p.labels)
  }

  function AtStart(st: Status): Sys {
    Sys(map[], {}, [], [], st, Idle, {}, {}, {"p"})
  }

  /** Pod p is cached, and its create event is queued. */
  function Watched(p: Pod, st: Status, work: Work): Sys {
    Sys(map["p" := p], {}, [], [Event(PodCreate, "p", p.labels)], st, work, {}, {}, {"p"})
  }

  lemma PodIsWatched(p: Pod, st: Status)
    requires p.phase == Running
    ensures
      var step := WatchPod(Put("p", p));
      Enabled(AnyPod(p), AtStart(st), step) && Apply(AnyPod(p), AtStart(st), step) == Watched(p, st, Idle)
  {
    assert [] + [Event(PodCreate, "p", p.labels)] == [Event(PodCreate, "p", p.labels)];
  }

  lemma PodIsListed(p: Pod, st: Status)
    requires p.phase == Running
    ensures
      var (step, plan) := (ListPods(1, ["p"], []), ReconcilePlan(st, 1, ["p"], []));
      && Enabled(AnyPod(p), Watched(p, st, Idle), step)
      && Apply(AnyPod(p), Watched(p, st, Idle), step) == Watched(p, st, Reconciling(plan))
  {
    assert Lists(AnyPod(p), map["p" := p], ["p"], []);
  }

  /** The run that watches p and then lists it, while the create event still waits. */
  lemma WatchedAndListed(p: Pod, st: Status)
    requires p.phase == Running
    ensures
      var steps := [WatchPod(Put("p", p)), ListPods(1, ["p"], [])];
      && Possible(AnyPod(p), AtStart(st), steps)
      && After(AnyPod(p), AtStart(st), steps) == Watched(p, st, Reconciling(ReconcilePlan(st, 1, ["p"], [])))
  {
    var cfg, s, w, l := AnyPod(p), AtStart(st), WatchPod(Put("p", p)), ListPods(1, ["p"], []);
    NoStep(cfg, s);
    PodIsWatched(p, st);
    PodIsListed(p, st);
    hide Possible, After, Enabled, Apply;
    OneMoreStep(cfg, s, [], w);
    assert [] + [w] == [w];
    OneMoreStep(cfg, s, [w], l);
    assert [w] + [l] == [w, l];
  }

  /** A member whose create event is still queued at a reconcile is listed twice in the end: a run from the start. */
  lemma QueuedCreateIsListedTwice(p: Pod, now: int)
    requires p.phase == Running
    ensures
      var st := Status(0, [], [], [], now);
      var steps := [WatchPod(Put("p", p)), ListPods(1, ["p"], [])] + [WriteStatus(now)] + [HandleEvent(now)];
      && Init(AtStart(st)) && Possible(AnyPod(p), AtStart(st), steps)
      && After(AnyPod(p), AtStart(st), steps).status.running == ["p", "p"]
      && After(AnyPod(p), AtStart(st), steps).cache.Keys == {"p"}
  {
    var st := Status(0, [], [], [], now);
    var cfg, s, steps := AnyPod(p), AtStart(st), [WatchPod(Put("p", p)), ListPods(1, ["p"], [])];
    WatchedAndListed(p, st);
    ListIsWritten(p, now);
    CreateIsHandled(p, now);
    assert Init(s);
    hide Possible, After, Enabled, Apply, Init;
    OneMoreStep(cfg, s, steps, WriteStatus(now));
    OneMoreStep(cfg, s, steps + [WriteStatus(now)], HandleEvent(now));
  }

  lemma ListIsWritten(p: Pod, now: int)
    ensures
      var s := Watched(p, Status(0, [], [], [], now), Reconciling(ReconcilePlan(Status(0, [], [], [], now), 1, ["p"], [])));
      && Enabled(AnyPod(p), s, WriteStatus(now))
      && Apply(AnyPod(p), s, WriteStatus(now)) == Watched(p, Status(1, [], [], ["p"], now), Idle)
  {
    assert ReconcilePlan(Status(0, [], [], [], now), 1, ["p"], []).list == [];
  }

  lemma CreateIsHandled(p: Pod, now: int)
    ensures
      var s := Watched(p, Status(1, [], [], ["p"], now), Idle);
      && Enabled(AnyPod(p), s, HandleEvent(now))
      && Apply(AnyPod(p), s, HandleEvent(now)).status.running == ["p", "p"]
      && Apply(AnyPod(p), s, HandleEvent(now)).cache.Keys == {"p"}
  {
    assert ["p"] + ["p"] == ["p", "p"];
  }

  // ----- Removed pods -----

  ghost predicate Silent(events: seq<Event>, uid: string) {
    forall i :: 0 <= i < |events| ==> events[i].uid != uid
  }

  lemma StepEmits(cfg: Config, s: Sys, step: Step, uid: string) returns (more: seq<Event>)
    requires Enabled(cfg, s, step) && uid in s.removed
    ensures
      var t := Apply(cfg, s, step);
      uid in t.removed && t.handled + t.queue == s.handled + s.queue + more && Silent(more, uid)
  {
    if step.WatchPod? {
      more := Observed(s.cache, s.removed, step.w).1;
    } else {
      more := [];
    }
    assert Apply(cfg, s, step).handled + Apply(cfg, s, step).queue == s.handled + s.queue + more;
  }

  /** No event about a pod is ever emitted after the pod was recorded as removed. */
  lemma {:induction false} NothingAfterRemoval(cfg: Config, s: Sys, steps: seq<Step>, uid: string) returns (more: seq<Event>)
    requires Possible(cfg, s, steps) && uid in s.removed
    ensures
      var t := After(cfg, s, steps);
      uid in t.removed && t.handled + t.queue == s.handled + s.queue + more && Silent(more, uid)
  {
    if steps == [] {
      more := [];
    } else {
      var before, last := steps[..|steps| - 1], steps[|steps| - 1];
      var m := After(cfg, s, before);
      var front := NothingAfterRemoval(cfg, s, before, uid);
      var latest := StepEmits(cfg, m, last, uid);
      assert After(cfg, s, steps) == Apply(cfg, m, last);
      hide Apply, After, Possible, Enabled;
      more := front + latest;
    }
  }
}
