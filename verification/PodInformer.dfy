/**
  The controller manager's pod informer (pkg/controllermanager/informer/pod_informer.go): watch
  events update a cache and are turned into create, update and killed events.
 */
module PodInformer {
  import Compare

  datatype Phase = Created | Bound | Accepted | Pending | Running | Succeeded | Failed | Unknown

  /** pkg/controllermanager/phase */
  predicate NotHandle(p: Phase) { p == Created || p == Bound }

  predicate IsRunning(p: Phase) { p == Accepted || p == Running }

  predicate IsBad(p: Phase) { p == Succeeded || p == Failed || p == Unknown || p == Pending }

  type Labels = Compare.Labels

  datatype Pod = Pod(labels: Labels, phase: Phase)

  type Cache = map<string, Pod>

  /** What the watch reports: a put with or without status, or a deletion by UID alone. */
  datatype Watch =
    | PutNoStatus(uid: string)
    | Put(uid: string, pod: Pod)
    | Delete(uid: string)

  datatype Kind = PodCreate | PodUpdate | PodKilled

  datatype Event = Event(kind: Kind, uid: string, labels: Labels)

  /** informPod: the new cache and the event it sends, if any. */
  function Inform(cache: Cache, w: Watch): (r: (Cache, seq<Event>))
    requires !w.PutNoStatus?
  {
    if w.Delete? then
      if w.uid in cache then (cache - {w.uid}, [Event(PodKilled, w.uid, cache[w.uid].labels)]) else (cache, [])
    else if w.uid !in cache then
      if IsRunning(w.pod.phase) then (cache[w.uid := w.pod], [Event(PodCreate, w.uid, w.pod.labels)]) else (cache, [])
    else
      var was, now := IsRunning(cache[w.uid].phase), IsRunning(w.pod.phase);
      if was && now then (cache[w.uid := w.pod], [Event(PodUpdate, w.uid, w.pod.labels)])
      else if now then (cache[w.uid := w.pod], [Event(PodCreate, w.uid, w.pod.labels)])
      else if was then (cache - {w.uid}, [Event(PodKilled, w.uid, cache[w.uid].labels)])
      else (cache[w.uid := w.pod], [])
  }

  /** The watch loop skips pods that are not started yet and pods recorded as removed. */
  predicate Skipped(removed: set<string>, w: Watch) {
    w.PutNoStatus? || (w.Put? && NotHandle(w.pod.phase)) || w.uid in removed
  }

  function Observed(cache: Cache, removed: set<string>, w: Watch): (Cache, seq<Event>) {
    if Skipped(removed, w) then (cache, []) else Inform(cache, w)
  }

  // ----- The life of a pod as its events tell it -----

  datatype Life = Dead | Alive | Confused

  function Lives(life: Life, kind: Kind): Life {
    match kind
    case PodCreate => if life == Dead then Alive else Confused
    case PodUpdate => if life == Alive then Alive else Confused
    case PodKilled => if life == Alive then Dead else Confused
  }

  /** Reads the events of one pod; not Confused means they are a prefix of (Create Update* Killed)*. */
  function LifeOf(events: seq<Event>, uid: string): Life {
    if events == [] then Dead
    else
      var before, e := LifeOf(events[..|events| - 1], uid), events[|events| - 1];
      if e.uid == uid then Lives(before, e.kind) else before
  }

  /** A session that began with an empty cache: live pods are cached, and cached pods run. */
  ghost predicate Tracks(cache: Cache, removed: set<string>, emitted: seq<Event>) {
    && (forall u :: u in cache ==> IsRunning(cache[u].phase) && u !in removed)
    && (forall u :: LifeOf(emitted, u) != Confused)
    && (forall u :: u !in removed ==> (LifeOf(emitted, u) == Alive <==> u in cache))
  }

  lemma {:induction false} LifeAfter(events: seq<Event>, more: seq<Event>, uid: string)
    requires |more| <= 1
    ensures LifeOf(events + more, uid)
      == if |more| == 1 && more[0].uid == uid then Lives(LifeOf(events, uid), more[0].kind) else LifeOf(events, uid)
  {
    if |more| == 1 {
      assert (events + more)[..|events|] == events;
    } else {
      assert events + more == events;
    }
  }

  lemma ObserveTracks(cache: Cache, removed: set<string>, emitted: seq<Event>, w: Watch)
    requires Tracks(cache, removed, emitted)
    ensures var (c, more) := Observed(cache, removed, w);
      && Tracks(c, removed, emitted + more)
      && |more| <= 1 && forall e :: e in more ==> e.uid == w.uid && e.uid !in removed
  {
    var (c, more) := Observed(cache, removed, w);
    forall u
      ensures LifeOf(emitted + more, u)
        == if |more| == 1 && more[0].uid == u then Lives(LifeOf(emitted, u), more[0].kind) else LifeOf(emitted, u)
    {
      LifeAfter(emitted, more, u);
    }
  }

  /** Which change of the cache each event announces. */
  ghost predicate Announces(cache: Cache, c: Cache, more: seq<Event>, uid: string) {
    && (forall u :: u != uid ==> (u in c <==> u in cache) && (u in c ==> c[u] == cache[u]))
    && |more| <= 1
    && (more == [] ==> (uid in c <==> uid in cache))
    && forall e :: e in more ==> e.uid == uid && match e.kind
      case PodCreate => uid !in cache && uid in c && e.labels == c[uid].labels
      case PodUpdate => uid in cache && uid in c && e.labels == c[uid].labels
      case PodKilled => uid in cache && uid !in c && e.labels == cache[uid].labels
  }

  lemma ObserveAnnounces(cache: Cache, removed: set<string>, w: Watch)
    requires forall u :: u in cache ==> IsRunning(cache[u].phase)
    ensures var (c, more) := Observed(cache, removed, w);
      && Announces(cache, c, more, w.uid)
      && (more != [] ==> w.uid !in removed)
      && (w.uid in c ==> (w.Put? && c[w.uid] == w.pod) || (w.uid in cache && c[w.uid] == cache[w.uid]))
  {
  }

  lemma RemoveTracks(cache: Cache, removed: set<string>, emitted: seq<Event>, uid: string)
    requires Tracks(cache, removed, emitted)
    ensures Tracks(cache - {uid}, removed + {uid}, emitted)
  {
  }

  // ----- The informer -----

  class Informer {
    var podCache: Cache
    var rmCache: set<string>
    /** What has been sent on the event channel of the ReplicaSet controller. */
    var sent: seq<Event>

    constructor ()
      ensures podCache == map[] && rmCache == {} && sent == []
    {
      podCache, rmCache, sent := map[], {}, [];
    }

    method InformAll(e: Event)
      modifies `sent
      ensures sent == old(sent) + [e]
    {
      sent := sent + [e];
    }

    method InformPod(w: Watch)
      requires !w.PutNoStatus?
      modifies `podCache, `sent
      ensures podCache == Inform(old(podCache), w).0 && sent == old(sent) + Inform(old(podCache), w).1
    {
      var exist := w.uid in podCache;
      if w.Delete? {
        if exist {
          var oldPod := podCache[w.uid];
          podCache := podCache - {w.uid};
          InformAll(Event(PodKilled, w.uid, oldPod.labels));
        }
      } else if !exist && IsRunning(w.pod.phase) {
        podCache := podCache[w.uid := w.pod];
        InformAll(Event(PodCreate, w.uid, w.pod.labels));
      } else if exist {
        var oldPod := podCache[w.uid];
        podCache := podCache[w.uid := w.pod];
        var newRunning, oldRunning := IsRunning(w.pod.phase), IsRunning(oldPod.phase);
        if newRunning && oldRunning {
          InformAll(Event(PodUpdate, w.uid, w.pod.labels));
        } else if newRunning && !oldRunning {
          InformAll(Event(PodCreate, w.uid, w.pod.labels));
        } else if !newRunning && oldRunning {
          podCache := podCache - {w.uid};
          assert podCache == old(podCache) - {w.uid};
          InformAll(Event(PodKilled, w.uid, oldPod.labels));
        }
      }
    }

    /** One turn of the watch loop. */
    method Observe(w: Watch)
      modifies `podCache, `sent
      ensures var (c, more) := Observed(old(podCache), rmCache, w);
        podCache == c && sent == old(sent) + more
    {
      if w.PutNoStatus? || (w.Put? && NotHandle(w.pod.phase)) {
        return;
      }
      if w.uid in rmCache {
        return;
      }
      InformPod(w);
    }

    method RecordRemove(uid: string)
      modifies `podCache, `rmCache
      ensures rmCache == old(rmCache) + {uid} && podCache == old(podCache) - {uid}
    {
      rmCache := rmCache + {uid};
      podCache := podCache - {uid};
    }

    /** The cached pods that match, in the arbitrary order of a map iteration. */
    method SelectPods(selector: Labels) returns (uids: seq<string>)
      ensures Selects(podCache, selector, uids)
    {
      uids := [];
      var pending := podCache.Keys;
      while pending != {}
        invariant pending <= podCache.Keys
        invariant forall u :: u in uids <==> u in podCache && u !in pending && Compare.MatchLabelSelector(selector, podCache[u].labels)
        invariant forall i, j :: 0 <= i < j < |uids| ==> uids[i] != uids[j]
      {
        var u :| u in pending;
        pending := pending - {u};
        if Compare.MatchLabelSelector(selector, podCache[u].labels) {
          uids := uids + [u];
        }
      }
    }
  }

  ghost predicate Selects(cache: Cache, selector: Labels, uids: seq<string>) {
    && (forall u :: u in uids <==> u in cache && Compare.MatchLabelSelector(selector, cache[u].labels))
    && (forall i, j :: 0 <= i < j < |uids| ==> uids[i] != uids[j])
  }
}
