/**
  The ReplicaSet controller (pkg/controllermanager/controller/replicaset_controller) as a pipeline:
  the pod informer's cache, its queue of events, and the status of one ReplicaSet. The informer holds
  no lock, so watch events fall between any two API calls of a reconcile.
 */
module ReplicaSets {
  import opened PodInformer
  import Slices
  import Compare

  datatype Status = Status(count: int, toRun: seq<string>, toKill: seq<string>, running: seq<string>, lastUpdate: int)

  /** What the API server answers to the deletion and to the creation of a pod. */
  datatype Answer = Deleted | NoObjects | Refused

  datatype Creation = NotMade | Made(uid: string)

  // ----- Status handlers -----

  function HandleCreate(st: Status, uid: string, now: int): Status {
    Status(st.count + 1, Slices.RemoveFirst(st.toRun, uid), st.toKill, st.running + [uid], now)
  }

  function HandleUpdate(st: Status, uid: string): Status {
    if uid in st.running then st else st.(count := st.count + 1, running := st.running + [uid])
  }

  function HandleKilled(st: Status, uid: string): Status {
    var killed := st.(toKill := Slices.RemoveFirst(st.toKill, uid));
    if uid in st.running then killed.(count := st.count - 1, running := Slices.RemoveFirst(st.running, uid)) else killed
  }

  function Handle(selector: Labels, st: Status, e: Event, now: int): Status {
    if !Compare.MatchLabelSelector(selector, e.labels) then st
    else match e.kind
      case PodCreate => HandleCreate(st, e.uid, now)
      case PodUpdate => HandleUpdate(st, e.uid)
      case PodKilled => HandleKilled(st, e.uid)
  }

  function HandleAll(selector: Labels, st: Status, events: seq<Event>, now: int): Status
    decreases |events|
  {
    if events == [] then st else HandleAll(selector, Handle(selector, st, events[0], now), events[1..], now)
  }

  // ----- The work of a reconcile and of a change of scale -----

  function AtLeastZero(n: int): nat { if n < 0 then 0 else n }

  function Blanks(n: nat): seq<string> {
    seq(n, _ => "")
  }

  /**
    runnings[:|runnings| - replicas]. With a negative number the slice reaches past its length into
    the capacity, where it finds empty strings.
   */
  function Surplus(runnings: seq<string>, replicas: int): seq<string> {
    if replicas < 0 then runnings + Blanks(-replicas)
    else if replicas < |runnings| then runnings[..|runnings| - replicas]
    else []
  }

  function KillList(st: Status, runnings: seq<string>, replicas: int, bads: seq<string>): seq<string> {
    Slices.Dedup(st.toKill + st.toRun + Surplus(runnings, replicas) + bads)
  }

  /**
    What is under way: pods listed, creations left, pods created, pods to delete and how many of them
    were asked for, the ones of those that stay on the list, and the ones deleted.
   */
  datatype Plan = Plan(
    replicas: nat, runnings: seq<string>, bads: seq<string>, left: nat, created: seq<string>,
    list: seq<string>, asked: nat, kept: seq<string>, deleted: set<string>)

  datatype Work = Idle | Reconciling(plan: Plan) | Scaling(plan: Plan)

  // ----- The pipeline -----

  /** The selector of the ReplicaSet, and the labels each pod keeps for life. */
  datatype Config = Config(selector: Labels, labels: string -> Labels)

  predicate Matches(cfg: Config, uid: string) {
    Compare.MatchLabelSelector(cfg.selector, cfg.labels(uid))
  }

  /**
    gone: matching pods forgotten while cached, since the last listing; lost: pods the API server did
    not know; used: every UID that has occurred so far.
   */
  datatype Sys = Sys(
    cache: Cache, removed: set<string>, handled: seq<Event>, queue: seq<Event>,
    status: Status, work: Work, gone: set<string>, lost: set<string>, used: set<string>)

  function Members(cfg: Config, cache: Cache): set<string> {
    set u | u in cache && Matches(cfg, u)
  }

  /** RecordRemove for each of a set of pods. */
  function Forget(cfg: Config, s: Sys, uids: set<string>): Sys {
    s.(cache := s.cache - uids, removed := s.removed + uids,
       gone := s.gone + (set u | u in uids && u in s.cache && Matches(cfg, u)), used := s.used + uids)
  }

  ghost predicate Init(s: Sys) {
    && s.cache == map[] && s.removed == {} && s.handled == [] && s.queue == [] && s.gone == {} && s.work == Idle
    && s.status.toKill == [] && s.status.running == [] && s.status.count == 0
    && Slices.NoRepeats(s.status.toRun) && forall u :: u in s.status.toRun ==> u in s.used
  }

  /** The last three steps are those of a reconcile or scaling under way, which hold the controller's lock. */
  datatype Step =
    | WatchPod(w: Watch)
    | HandleEvent(now: int)
    | OtherRemove(uid: string)
    | ListPods(replicas: int, runnings: seq<string>, bads: seq<string>)
    | ChangeScale(target: int)
    | CreateOne(creation: Creation)
    | DeleteOne(answer: Answer)
    | WriteStatus(at: int)

  /** runnings and bads list the cached matching pods by phase, in any order. */
  ghost predicate Lists(cfg: Config, cache: Cache, runnings: seq<string>, bads: seq<string>) {
    && (forall u :: u in runnings <==> u in cache && Matches(cfg, u) && IsRunning(cache[u].phase))
    && (forall u :: u in bads <==> u in cache && Matches(cfg, u) && IsBad(cache[u].phase))
    && Slices.NoRepeats(runnings) && Slices.NoRepeats(bads)
  }

  /** A created pod's UID is new. */
  ghost predicate Enabled(cfg: Config, s: Sys, step: Step) {
    match step
    case WatchPod(w) => w.Put? ==> w.pod.labels == cfg.labels(w.uid)
    case OtherRemove(_) => true
    case HandleEvent(_) => s.work.Idle? && s.queue != []
    case ListPods(replicas, runnings, bads) => s.work.Idle? && replicas >= 0 && Lists(cfg, s.cache, runnings, bads)
    case ChangeScale(target) => s.work.Idle? && target >= 0
    case CreateOne(c) => !s.work.Idle? && s.work.plan.left > 0 && (c.Made? ==> c.uid !in s.used)
    case DeleteOne(_) => !s.work.Idle? && s.work.plan.left == 0 && s.work.plan.asked < |s.work.plan.list|
    case WriteStatus(_) => Finished(s.work)
  }

  predicate Finished(w: Work) {
    !w.Idle? && w.plan.left == 0 && w.plan.asked == |w.plan.list|
  }

  function ReconcilePlan(st: Status, replicas: nat, runnings: seq<string>, bads: seq<string>): Plan {
    Plan(replicas, runnings, bads, AtLeastZero(replicas - |runnings|), [], KillList(st, runnings, replicas, bads), 0, [], {})
  }

  function ScalePlan(st: Status, target: nat): Plan {
    Plan(target, st.running, [], AtLeastZero(target - |st.running|), [], Surplus(st.running, target), 0, [], {})
  }

  function CreatedOne(p: Plan, c: Creation): Plan
    requires p.left > 0
  {
    p.(left := p.left - 1, created := p.created + if c.Made? then [c.uid] else [])
  }

  function AskedOne(p: Plan, answer: Answer): Plan
    requires p.asked < |p.list|
  {
    var uid := p.list[p.asked];
    p.(asked := p.asked + 1, kept := p.kept + (if answer == NoObjects then [] else [uid]),
       deleted := p.deleted + if answer == Deleted then {uid} else {})
  }

  function With(w: Work, p: Plan): Work
    requires !w.Idle?
  {
    if w.Reconciling? then Reconciling(p) else Scaling(p)
  }

  function Written(st: Status, w: Work, now: int): Status
    requires !w.Idle?
  {
    var p := w.plan;
    if w.Reconciling? then Status(|p.runnings|, p.created, p.kept, p.runnings, now)
    else st.(toRun := st.toRun + p.created, toKill := st.toKill + p.list, lastUpdate := now)
  }

  function AfterCreation(s: Sys, c: Creation): Sys
    requires !s.work.Idle? && s.work.plan.left > 0
  {
    s.(work := With(s.work, CreatedOne(s.work.plan, c)), used := s.used + if c.Made? then {c.uid} else {})
  }

  function AfterDeletion(cfg: Config, s: Sys, answer: Answer): Sys
    requires !s.work.Idle? && s.work.plan.asked < |s.work.plan.list|
  {
    var uid := s.work.plan.list[s.work.plan.asked];
    Forget(cfg, s.(work := With(s.work, AskedOne(s.work.plan, answer)),
                   lost := s.lost + if answer == NoObjects then {uid} else {}), if answer == Deleted then {uid} else {})
  }

  ghost function Apply(cfg: Config, s: Sys, step: Step): Sys
    requires Enabled(cfg, s, step)
  {
    match step
    case WatchPod(w) =>
      var (c, more) := Observed(s.cache, s.removed, w);
      s.(cache := c, queue := s.queue + more, used := s.used + {w.uid})
    case HandleEvent(now) =>
      s.(handled := s.handled + [s.queue[0]], queue := s.queue[1..], status := Handle(cfg.selector, s.status, s.queue[0], now))
    case OtherRemove(uid) => Forget(cfg, s, {uid})
    case ListPods(replicas, runnings, bads) =>
      s.(work := Reconciling(ReconcilePlan(s.status, replicas, runnings, bads)), gone := {})
    case ChangeScale(target) => s.(work := Scaling(ScalePlan(s.status, target)))
    case CreateOne(c) => AfterCreation(s, c)
    case DeleteOne(answer) => AfterDeletion(cfg, s, answer)
    case WriteStatus(now) => s.(status := Written(s.status, s.work, now), work := Idle)
  }

  // ----- Runs -----

  ghost predicate Possible(cfg: Config, s: Sys, steps: seq<Step>)
    decreases |steps|, 0
  {
    steps == [] ||
    (Possible(cfg, s, steps[..|steps| - 1]) && Enabled(cfg, After(cfg, s, steps[..|steps| - 1]), steps[|steps| - 1]))
  }

  ghost function After(cfg: Config, s: Sys, steps: seq<Step>): Sys
    requires Possible(cfg, s, steps)
    decreases |steps|, 1
  {
    if steps == [] then s else Apply(cfg, After(cfg, s, steps[..|steps| - 1]), steps[|steps| - 1])
  }

  lemma NoStep(cfg: Config, s: Sys)
    ensures Possible(cfg, s, []) && After(cfg, s, []) == s
  {
  }

  lemma LastStep(cfg: Config, s: Sys, steps: seq<Step>)
    requires steps != [] && Possible(cfg, s, steps)
    ensures
      var front, last := steps[..|steps| - 1], steps[|steps| - 1];
      && Possible(cfg, s, front) && Enabled(cfg, After(cfg, s, front), last)
      && After(cfg, s, steps) == Apply(cfg, After(cfg, s, front), last)
  {
    hide Enabled, Apply;
  }

  lemma OneMoreStep(cfg: Config, s: Sys, steps: seq<Step>, step: Step)
    requires Possible(cfg, s, steps) && Enabled(cfg, After(cfg, s, steps), step)
    ensures Possible(cfg, s, steps + [step]) && After(cfg, s, steps + [step]) == Apply(cfg, After(cfg, s, steps), step)
  {
    assert (steps + [step])[..|steps|] == steps;
  }

  lemma {:induction false} RunOn(cfg: Config, s: Sys, steps: seq<Step>, more: seq<Step>)
    requires Possible(cfg, s, steps) && Possible(cfg, After(cfg, s, steps), more)
    ensures Possible(cfg, s, steps + more) && After(cfg, s, steps + more) == After(cfg, After(cfg, s, steps), more)
  {
    hide Possible, After, Enabled, Apply;
    if more == [] {
      assert steps + more == steps;
      NoStep(cfg, After(cfg, s, steps));
    } else {
      var front, last := more[..|more| - 1], more[|more| - 1];
      LastStep(cfg, After(cfg, s, steps), more);
      RunOn(cfg, s, steps, front);
      assert steps + more == steps + front + [last];
      OneMoreStep(cfg, s, steps + front, last);
    }
  }

  predicate InList(w: Work) {
    !w.Idle? ==> w.plan.asked <= |w.plan.list|
  }

  lemma StepStaysInList(cfg: Config, s: Sys, step: Step)
    requires Enabled(cfg, s, step) && InList(s.work)
    ensures InList(Apply(cfg, s, step).work)
  {
    hide Handle, Observed, Lists, KillList, Surplus, Matches;
  }

  lemma {:induction false} RunStaysInList(cfg: Config, s: Sys, steps: seq<Step>)
    requires s.work.Idle? && Possible(cfg, s, steps)
    ensures InList(After(cfg, s, steps).work)
  {
    hide Possible, After, Enabled, Apply;
    if steps == [] {
      NoStep(cfg, s);
    } else {
      LastStep(cfg, s, steps);
      RunStaysInList(cfg, s, steps[..|steps| - 1]);
      StepStaysInList(cfg, After(cfg, s, steps[..|steps| - 1]), steps[|steps| - 1]);
    }
  }

  /** The work under way can go on whatever the API server answers, or be written when all was tried. */
  ghost predicate GoesOn(cfg: Config, s: Sys)
    requires !s.work.Idle?
  {
    var p := s.work.plan;
    if p.left > 0 then forall c: Creation :: (c.Made? ==> c.uid !in s.used) ==> Enabled(cfg, s, CreateOne(c))
    else if p.asked < |p.list| then forall a: Answer :: Enabled(cfg, s, DeleteOne(a))
    else forall now: int :: Enabled(cfg, s, WriteStatus(now))
  }

  /**
    In every run: deletions and removals by others can come at any time, work under way is never stuck,
    and a controller at rest can handle its next event and scale.
   */
  lemma NeverStuck(cfg: Config, s: Sys, steps: seq<Step>)
    requires s.work.Idle? && Possible(cfg, s, steps)
    ensures
      var t := After(cfg, s, steps);
      && (forall u: string :: Enabled(cfg, t, OtherRemove(u)) && Enabled(cfg, t, WatchPod(Delete(u))))
      && (forall u: string, p: Pod :: p.labels == cfg.labels(u) ==> Enabled(cfg, t, WatchPod(Put(u, p))))
      && (!t.work.Idle? ==> GoesOn(cfg, t))
      && (t.work.Idle? ==> forall n: nat :: Enabled(cfg, t, ChangeScale(n)))
      && (t.work.Idle? ==> forall now: int :: t.queue != [] ==> Enabled(cfg, t, HandleEvent(now)))
  {
    RunStaysInList(cfg, s, steps);
    hide After, Possible;
  }

  // ----- A reconcile without interruption -----

  /** What stays on the list: all but the pods the API server no longer has. */
  function StillToKill(list: seq<string>, answers: string -> Answer): seq<string> {
    if list == [] then []
    else
      var front, last := StillToKill(list[..|list| - 1], answers), list[|list| - 1];
      if answers(last) == NoObjects then front else front + [last]
  }

  function DeletedFrom(list: seq<string>, answers: string -> Answer): set<string> {
    set u | u in list && answers(u) == Deleted
  }

  /** The pods made by the first n creations. */
  function MadeBy(create: nat -> Creation, n: nat): seq<string> {
    if n == 0 then [] else MadeBy(create, n - 1) + if create(n - 1).Made? then [create(n - 1).uid] else []
  }

  function NewStatus(runnings: seq<string>, created: seq<string>, list: seq<string>, answers: string -> Answer, now: int): Status {
    Status(|runnings|, created, StillToKill(list, answers), runnings, now)
  }

  function Creations(create: nat -> Creation, n: nat): seq<Step> {
    if n == 0 then [] else Creations(create, n - 1) + [CreateOne(create(n - 1))]
  }

  function Deletions(list: seq<string>, answers: string -> Answer): seq<Step> {
    if list == [] then [] else Deletions(list[..|list| - 1], answers) + [DeleteOne(answers(list[|list| - 1]))]
  }

  /** Each of the first n creations has a UID of its own that is not in use. */
  ghost predicate FreshUids(create: nat -> Creation, n: nat, used: set<string>) {
    && (forall i: nat :: i < n && create(i).Made? ==> create(i).uid !in used)
    && (forall i: nat, j: nat :: i < j < n && create(i).Made? && create(j).Made? ==> create(i).uid != create(j).uid)
  }

  lemma {:induction false} MadeAre(create: nat -> Creation, n: nat, u: string)
    ensures u in MadeBy(create, n) <==> exists i: nat :: i < n && create(i) == Made(u)
  {
    if n > 0 { MadeAre(create, n - 1, u); }
  }

  lemma FreshUidsLess(create: nat -> Creation, n: nat, used: set<string>)
    requires n > 0 && FreshUids(create, n, used)
    ensures FreshUids(create, n - 1, used)
    ensures create(n - 1).Made? ==> create(n - 1).uid !in used && create(n - 1).uid !in MadeBy(create, n - 1)
  {
    if create(n - 1).Made? {
      MadeAre(create, n - 1, create(n - 1).uid);
    }
  }

  function LostFrom(list: seq<string>, answers: string -> Answer): set<string> {
    set u | u in list && answers(u) == NoObjects
  }

  lemma DeletedOneMore(list: seq<string>, idx: nat, answers: string -> Answer)
    requires idx < |list|
    ensures DeletedFrom(list[..idx + 1], answers)
      == DeletedFrom(list[..idx], answers) + if answers(list[idx]) == Deleted then {list[idx]} else {}
  {
    assert list[..idx + 1] == list[..idx] + [list[idx]];
  }

  lemma ForgetTwice(cfg: Config, s: Sys, a: set<string>, b: set<string>)
    ensures Forget(cfg, Forget(cfg, s, a), b) == Forget(cfg, s, a + b)
  {
    var t, r := Forget(cfg, s, a + b), Forget(cfg, Forget(cfg, s, a), b);
    assert r.cache == t.cache && r.removed == t.removed && r.used == t.used;
    assert r.gone == t.gone;
  }

  /** The state after n more creations were tried. */
  function Tried(cfg: Config, s: Sys, create: nat -> Creation, n: nat): Sys
    requires !s.work.Idle? && n <= s.work.plan.left
  {
    var p := s.work.plan;
    s.(work := With(s.work, p.(left := p.left - n, created := p.created + MadeBy(create, n))),
       used := s.used + set u | u in MadeBy(create, n))
  }

  lemma CreatedOneMore(cfg: Config, s: Sys, create: nat -> Creation, n: nat)
    requires !s.work.Idle? && n < s.work.plan.left
    ensures
      var m := Tried(cfg, s, create, n);
      && !m.work.Idle? && m.work.plan.left > 0 && m.used == s.used + (set u | u in MadeBy(create, n))
      && AfterCreation(m, create(n)) == Tried(cfg, s, create, n + 1)
  {
    var c := create(n);
    var t, r := Tried(cfg, s, create, n + 1), AfterCreation(Tried(cfg, s, create, n), c);
    assert MadeBy(create, n + 1) == MadeBy(create, n) + if c.Made? then [c.uid] else [];
    hide MadeBy;
    assert r.work.plan.created == t.work.plan.created;
    assert r.used == t.used;
  }

  lemma {:induction false} CreationsRun(cfg: Config, s: Sys, create: nat -> Creation, n: nat)
    requires !s.work.Idle? && n <= s.work.plan.left && FreshUids(create, n, s.used)
    ensures Possible(cfg, s, Creations(create, n)) && After(cfg, s, Creations(create, n)) == Tried(cfg, s, create, n)
  {
    hide Possible, After, Enabled, Apply, AfterCreation, Tried, FreshUids, MadeBy;
    if n == 0 {
      TriedNone(cfg, s, create);
      NoStep(cfg, s);
    } else {
      FreshUidsLess(create, n, s.used);
      CreationsRun(cfg, s, create, n - 1);
      CreatedOneMore(cfg, s, create, n - 1);
      OneCreation(cfg, s, Creations(create, n - 1), create(n - 1));
    }
  }

  lemma TriedNone(cfg: Config, s: Sys, create: nat -> Creation)
    requires !s.work.Idle?
    ensures Tried(cfg, s, create, 0) == s
  {
    assert s.work.plan.created + [] == s.work.plan.created;
    assert s.used + (set u | u in MadeBy(create, 0)) == s.used;
  }

  lemma OneCreation(cfg: Config, s: Sys, steps: seq<Step>, c: Creation)
    requires Possible(cfg, s, steps)
    requires
      var m := After(cfg, s, steps);
      !m.work.Idle? && m.work.plan.left > 0 && (c.Made? ==> c.uid !in m.used)
    ensures Possible(cfg, s, steps + [CreateOne(c)])
    ensures After(cfg, s, steps + [CreateOne(c)]) == AfterCreation(After(cfg, s, steps), c)
  {
    hide Possible, After, Observed, Handle, Forget, AfterDeletion, AfterCreation, Lists, Finished;
    OneMoreStep(cfg, s, steps, CreateOne(c));
  }

  /** The state after the first k pods of the list were asked for. */
  function Asked(cfg: Config, s: Sys, k: nat, answers: string -> Answer): Sys
    requires !s.work.Idle? && k <= |s.work.plan.list|
  {
    var p := s.work.plan;
    var list := p.list[..k];
    Answered(cfg, s, k, StillToKill(list, answers), DeletedFrom(list, answers), LostFrom(list, answers))
  }

  /** The state with k answers noted: pods kept on the list, deleted ones, unknown ones. */
  function Answered(cfg: Config, s: Sys, k: nat, kept: seq<string>, deleted: set<string>, lost: set<string>): Sys
    requires !s.work.Idle?
  {
    Forget(cfg, s.(work := With(s.work, s.work.plan.(asked := k, kept := kept, deleted := deleted)), lost := s.lost + lost), deleted)
  }

  lemma AnsweredOneMore(cfg: Config, s: Sys, k: nat, kept: seq<string>, deleted: set<string>, lost: set<string>, answer: Answer)
    requires !s.work.Idle? && k < |s.work.plan.list|
    ensures
      var uid := s.work.plan.list[k];
      AfterDeletion(cfg, Answered(cfg, s, k, kept, deleted, lost), answer)
      == Answered(cfg, s, k + 1, kept + (if answer == NoObjects then [] else [uid]),
                  deleted + (if answer == Deleted then {uid} else {}), lost + if answer == NoObjects then {uid} else {})
  {
    var uid := s.work.plan.list[k];
    var more := if answer == Deleted then {uid} else {};
    var p := s.work.plan.(asked := k + 1, kept := kept + (if answer == NoObjects then [] else [uid]), deleted := deleted + more);
    var t := s.(work := With(s.work, p), lost := s.lost + (lost + if answer == NoObjects then {uid} else {}));
    ForgetTwice(cfg, t, deleted, more);
    hide Matches;
    var m := Answered(cfg, s, k, kept, deleted, lost);
    assert AskedOne(m.work.plan, answer) == p;
    assert m.lost + (if answer == NoObjects then {uid} else {}) == t.lost;
  }

  lemma AskedOneMore(cfg: Config, s: Sys, k: nat, answers: string -> Answer)
    requires !s.work.Idle? && k < |s.work.plan.list| && s.work.plan.left == 0
    ensures
      var m := Asked(cfg, s, k, answers);
      && !m.work.Idle? && m.work.plan.left == 0 && m.work.plan.list == s.work.plan.list && m.work.plan.asked == k
      && AfterDeletion(cfg, m, answers(s.work.plan.list[k])) == Asked(cfg, s, k + 1, answers)
  {
    var list := s.work.plan.list;
    var front, uid := list[..k], list[k];
    assert list[..k + 1] == front + [uid] && list[..k + 1][..k] == front;
    DeletedOneMore(list, k, answers);
    assert StillToKill(list[..k + 1], answers) == StillToKill(front, answers) + (if answers(uid) == NoObjects then [] else [uid]);
    assert LostFrom(list[..k + 1], answers) == LostFrom(front, answers) + if answers(uid) == NoObjects then {uid} else {};
    hide StillToKill, DeletedFrom, LostFrom, Answered, AfterDeletion;
    AnsweredOneMore(cfg, s, k, StillToKill(front, answers), DeletedFrom(front, answers), LostFrom(front, answers), answers(uid));
  }

  lemma {:induction false} DeletionsRun(cfg: Config, s: Sys, k: nat, answers: string -> Answer)
    requires !s.work.Idle? && s.work.plan.left == 0 && k <= |s.work.plan.list|
    requires s.work.plan.asked == 0 && s.work.plan.kept == [] && s.work.plan.deleted == {}
    ensures
      var steps := Deletions(s.work.plan.list[..k], answers);
      Possible(cfg, s, steps) && After(cfg, s, steps) == Asked(cfg, s, k, answers)
  {
    var list := s.work.plan.list;
    hide Possible, After, StillToKill, DeletedFrom, LostFrom, Asked, Enabled, Apply;
    if k == 0 {
      assert list[..0] == [];
      AskedNone(cfg, s, answers);
      NoStep(cfg, s);
    } else {
      DeletionsRun(cfg, s, k - 1, answers);
      assert list[..k][..k - 1] == list[..k - 1];
      AskedOneMore(cfg, s, k - 1, answers);
      OneDeletion(cfg, s, Deletions(list[..k - 1], answers), answers(list[k - 1]));
    }
  }

  lemma AskedNone(cfg: Config, s: Sys, answers: string -> Answer)
    requires !s.work.Idle? && s.work.plan.asked == 0 && s.work.plan.kept == [] && s.work.plan.deleted == {}
    ensures Asked(cfg, s, 0, answers) == s
  {
    var t := Asked(cfg, s, 0, answers);
    assert t.cache == s.cache && t.gone == s.gone && t.used == s.used && t.removed == s.removed && t.lost == s.lost;
  }

  lemma OneDeletion(cfg: Config, s: Sys, steps: seq<Step>, answer: Answer)
    requires Possible(cfg, s, steps)
    requires
      var m := After(cfg, s, steps);
      !m.work.Idle? && m.work.plan.left == 0 && m.work.plan.asked < |m.work.plan.list|
    ensures Possible(cfg, s, steps + [DeleteOne(answer)])
    ensures After(cfg, s, steps + [DeleteOne(answer)]) == AfterDeletion(cfg, After(cfg, s, steps), answer)
  {
    hide Possible, After, Observed, Handle, Forget, AfterDeletion, AfterCreation, Lists, Finished;
    OneMoreStep(cfg, s, steps, DeleteOne(answer));
  }

  /** The steps of a reconcile or scaling that no watch event interrupts. */
  function OwnSteps(begin: Step, p: Plan, create: nat -> Creation, answers: string -> Answer, now: int): seq<Step> {
    [begin] + Creations(create, p.left) + Deletions(p.list, answers) + [WriteStatus(now)]
  }

  /** The state in which all creations and deletions were tried. */
  function AllTried(cfg: Config, s: Sys, create: nat -> Creation, answers: string -> Answer): Sys
    requires !s.work.Idle?
  {
    Asked(cfg, Tried(cfg, s, create, s.work.plan.left), |s.work.plan.list|, answers)
  }

  lemma AskedIsFinished(cfg: Config, s: Sys, answers: string -> Answer)
    requires !s.work.Idle? && s.work.plan.left == 0
    ensures Finished(Asked(cfg, s, |s.work.plan.list|, answers).work)
  {
  }

  lemma OwnWorkRuns(cfg: Config, s: Sys, begin: Step, create: nat -> Creation, answers: string -> Answer, now: int)
    requires (begin.ListPods? || begin.ChangeScale?) && Enabled(cfg, s, begin)
    requires FreshUids(create, Apply(cfg, s, begin).work.plan.left, s.used)
    ensures
      var m := Apply(cfg, s, begin);
      var steps, t := OwnSteps(begin, m.work.plan, create, answers, now), AllTried(cfg, m, create, answers);
      Possible(cfg, s, steps) && After(cfg, s, steps) == t.(status := Written(t.status, t.work, now), work := Idle)
  {
    var m := Apply(cfg, s, begin);
    assert m.used == s.used && m.work.plan.asked == 0 && m.work.plan.kept == [] && m.work.plan.deleted == {};
    hide Possible, After, FreshUids, StillToKill, DeletedFrom, LostFrom, KillList, MadeBy, Lists, Matches, Observed, Handle, Forget;
    var p := m.work.plan;
    NoStep(cfg, s);
    OneMoreStep(cfg, s, [], begin);
    assert [] + [begin] == [begin];
    CreationsRun(cfg, m, create, p.left);
    RunOn(cfg, s, [begin], Creations(create, p.left));
    var m2 := Tried(cfg, m, create, p.left);
    DeletionsRun(cfg, m2, |p.list|, answers);
    assert m2.work.plan.list[..|p.list|] == p.list;
    RunOn(cfg, s, [begin] + Creations(create, p.left), Deletions(p.list, answers));
    AskedIsFinished(cfg, m2, answers);
    OneMoreStep(cfg, s, [begin] + Creations(create, p.left) + Deletions(p.list, answers), WriteStatus(now));
  }

  // ----- A whole reconcile -----

  function ReconcileSteps(
    st: Status, replicas: nat, runnings: seq<string>, bads: seq<string>,
    create: nat -> Creation, answers: string -> Answer, now: int): seq<Step>
  {
    OwnSteps(ListPods(replicas, runnings, bads), ReconcilePlan(st, replicas, runnings, bads), create, answers, now)
  }

  /** What it does: the new status, and the deleted pods forgotten. */
  function Reconciled(
    cfg: Config, s: Sys, replicas: nat, runnings: seq<string>, bads: seq<string>,
    create: nat -> Creation, answers: string -> Answer, now: int): Sys
  {
    var list, created := KillList(s.status, runnings, replicas, bads), MadeBy(create, AtLeastZero(replicas - |runnings|));
    Forget(cfg, s.(status := NewStatus(runnings, created, list, answers, now), gone := {},
                   lost := s.lost + LostFrom(list, answers),
                   used := s.used + set u | u in created), DeletedFrom(list, answers))
  }

  lemma WrittenIsReconciled(
    cfg: Config, s: Sys, replicas: nat, runnings: seq<string>, bads: seq<string>,
    create: nat -> Creation, answers: string -> Answer, now: int)
    ensures
      var p := ReconcilePlan(s.status, replicas, runnings, bads);
      var t := AllTried(cfg, s.(work := Reconciling(p), gone := {}), create, answers);
      t.(status := Written(t.status, t.work, now), work := s.work)
      == Reconciled(cfg, s, replicas, runnings, bads, create, answers, now)
  {
    hide StillToKill, DeletedFrom, LostFrom, KillList, MadeBy, Matches;
    var p := ReconcilePlan(s.status, replicas, runnings, bads);
    assert p.list[..|p.list|] == p.list;
    assert [] + MadeBy(create, p.left) == MadeBy(create, p.left);
    var t := AllTried(cfg, s.(work := Reconciling(p), gone := {}), create, answers);
    var r := Reconciled(cfg, s, replicas, runnings, bads, create, answers, now);
    assert t.used == r.used && t.lost == r.lost && t.gone == r.gone;
  }

  lemma ReconcileRuns(
    cfg: Config, s: Sys, replicas: nat, runnings: seq<string>, bads: seq<string>,
    create: nat -> Creation, answers: string -> Answer, now: int)
    requires s.work.Idle? && Lists(cfg, s.cache, runnings, bads)
    requires FreshUids(create, AtLeastZero(replicas - |runnings|), s.used)
    ensures
      var steps := ReconcileSteps(s.status, replicas, runnings, bads, create, answers, now);
      Possible(cfg, s, steps)
      && After(cfg, s, steps) == Reconciled(cfg, s, replicas, runnings, bads, create, answers, now)
  {
    OwnWorkRuns(cfg, s, ListPods(replicas, runnings, bads), create, answers, now);
    hide Possible, After, AllTried, Lists, FreshUids, KillList;
    WrittenIsReconciled(cfg, s, replicas, runnings, bads, create, answers, now);
  }

  // ----- A whole scaling -----

  function ScaleSteps(st: Status, target: nat, create: nat -> Creation, answers: string -> Answer, now: int): seq<Step> {
    OwnSteps(ChangeScale(target), ScalePlan(st, target), create, answers, now)
  }

  function Scaled(cfg: Config, s: Sys, target: nat, create: nat -> Creation, answers: string -> Answer, now: int): Sys {
    var kill, created := Surplus(s.status.running, target), MadeBy(create, AtLeastZero(target - |s.status.running|));
    var st := s.status.(toRun := s.status.toRun + created, toKill := s.status.toKill + kill, lastUpdate := now);
    Forget(cfg, s.(status := st, lost := s.lost + LostFrom(kill, answers), used := s.used + set u | u in created),
           DeletedFrom(kill, answers))
  }

  lemma WrittenIsScaled(cfg: Config, s: Sys, target: nat, create: nat -> Creation, answers: string -> Answer, now: int)
    ensures
      var t := AllTried(cfg, s.(work := Scaling(ScalePlan(s.status, target))), create, answers);
      t.(status := Written(t.status, t.work, now), work := s.work) == Scaled(cfg, s, target, create, answers, now)
  {
    hide StillToKill, DeletedFrom, LostFrom, Surplus, MadeBy, Matches;
    var p := ScalePlan(s.status, target);
    assert p.list[..|p.list|] == p.list;
    assert [] + MadeBy(create, p.left) == MadeBy(create, p.left);
    var t := AllTried(cfg, s.(work := Scaling(p)), create, answers);
    var r := Scaled(cfg, s, target, create, answers, now);
    assert t.used == r.used && t.lost == r.lost && t.gone == r.gone;
  }

  lemma ScaleRuns(cfg: Config, s: Sys, target: nat, create: nat -> Creation, answers: string -> Answer, now: int)
    requires s.work.Idle? && FreshUids(create, AtLeastZero(target - |s.status.running|), s.used)
    ensures
      var steps := ScaleSteps(s.status, target, create, answers, now);
      Possible(cfg, s, steps) && After(cfg, s, steps) == Scaled(cfg, s, target, create, answers, now)
  {
    OwnWorkRuns(cfg, s, ChangeScale(target), create, answers, now);
    hide Possible, After, AllTried, FreshUids, Surplus;
    WrittenIsScaled(cfg, s, target, create, answers, now);
  }
}
