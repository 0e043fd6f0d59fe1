/** The pod informer of a node, which suppresses updates that change nothing (pkg/cubelet/informer/podinformer.go). */
module CubeletInformer {
  import opened Compare

  datatype Binding = NoStatus | OnNode(nodeUID: string)

  datatype Pod = Pod(meta: ObjectMeta, spec: PodSpec, status: Binding)

  datatype WatchEvent = Put(pod: Pod) | Delete(pod: Pod)

  datatype Event = Create(pod: Pod) | Update(pod: Pod) | Remove(pod: Pod)

  type Cache = map<string, Pod>

  datatype State = State(cache: Cache, sent: seq<Event>)

  /** The cache never files a pod under another identifier. */
  predicate Filed(c: Cache) {
    forall u :: u in c ==> c[u].meta.uid == u
  }

  function Inform(s: State, e: WatchEvent): State
    requires Filed(s.cache)
  {
    var pod := e.pod;
    var uid := pod.meta.uid;
    match e
    case Delete(_) =>
      if uid in s.cache then State(s.cache - {uid}, s.sent + [Remove(pod)]) else s
    case Put(_) =>
      var cache := s.cache[uid := pod];
      if uid !in s.cache then State(cache, s.sent + [Create(pod)])
      else
        var was := s.cache[uid];
        if ComputeObjectMetaChange(pod.meta, was.meta) || ComputePodSpecChange(pod.spec, was.spec)
        then State(cache, s.sent + [Update(pod)])
        else State(cache, s.sent)
  }

  /** Writes without a status or for another node are skipped; every removal is looked at. */
  predicate Concerns(node: string, e: WatchEvent) {
    e.Delete? || e.pod.status == OnNode(node)
  }

  function Observe(node: string, s: State, e: WatchEvent): State
    requires Filed(s.cache)
  {
    if Concerns(node, e) then Inform(s, e) else s
  }

  lemma ObserveKeepsFiled(node: string, s: State, e: WatchEvent)
    requires Filed(s.cache)
    ensures Filed(Observe(node, s, e).cache)
  {
  }

  function Run(node: string, es: seq<WatchEvent>): (s: State)
    ensures Filed(s.cache)
  {
    if es == [] then State(map[], [])
    else
      var s := Run(node, es[..|es| - 1]);
      ObserveKeepsFiled(node, s, es[|es| - 1]);
      Observe(node, s, es[|es| - 1])
  }

  /** Whether the node hears of a pod in an event: any removal, or a write that binds the pod to this node. */
  predicate Tells(node: string, e: WatchEvent, uid: string) {
    e.pod.meta.uid == uid && match e case Delete(_) => true case Put(p) => p.status.OnNode? && p.status.nodeUID == node
  }

  ghost predicate Latest(node: string, es: seq<WatchEvent>, uid: string, k: int) {
    0 <= k < |es| && Tells(node, es[k], uid) && forall j :: k < j < |es| ==> !Tells(node, es[j], uid)
  }

  /** The cache holds a pod exactly when the latest thing heard of it is a write, and as that write has it. */
  ghost predicate Remembers(node: string, es: seq<WatchEvent>, c: Cache, uid: string) {
    if uid in c then exists k :: Latest(node, es, uid, k) && es[k].Put? && c[uid] == es[k].pod
    else forall k :: Latest(node, es, uid, k) ==> es[k].Delete?
  }

  lemma {:induction false} CacheIsLatest(node: string, es: seq<WatchEvent>, uid: string)
    ensures Remembers(node, es, Run(node, es).cache, uid)
  {
    if es != [] {
      var n := |es| - 1;
      var before := es[..n];
      CacheIsLatest(node, before, uid);
      if Tells(node, es[n], uid) {
        assert Latest(node, es, uid, n);
      } else {
        if k :| Latest(node, es, uid, k) {
          assert Latest(node, before, uid, k);
        }
        if k :| Latest(node, before, uid, k) {
          assert Latest(node, es, uid, k);
        }
      }
    }
  }

  // ----- A consumer of the events -----

  /** The compared fields. */
  datatype Shown = Shown(name: string, labels: Labels, containers: seq<Container>, volumes: seq<Volume>)

  function Show(p: Pod): Shown {
    Shown(p.meta.name, p.meta.labels, p.spec.containers, p.spec.volumes)
  }

  type Seen = map<string, Shown>

  function Consume(v: Seen, e: Event): Seen {
    match e
    case Create(p) => v[p.meta.uid := Show(p)]
    case Update(p) => v[p.meta.uid := Show(p)]
    case Remove(p) => v - {p.meta.uid}
  }

  function Replay(sent: seq<Event>): Seen {
    if sent == [] then map[] else Consume(Replay(sent[..|sent| - 1]), sent[|sent| - 1])
  }

  function Summary(c: Cache): Seen {
    map u | u in c :: Show(c[u])
  }

  /** Each event tells the consumer something: nothing is created twice, updated in vain or removed unseen. */
  predicate Useful(v: Seen, e: Event) {
    var u := e.pod.meta.uid;
    match e
    case Create(_) => u !in v
    case Update(p) => u in v && v[u] != Show(p)
    case Remove(_) => u in v
  }

  predicate AllUseful(sent: seq<Event>) {
    forall k :: 0 <= k < |sent| ==> Useful(Replay(sent[..k]), sent[k])
  }

  lemma SuppressedIff(pod: Pod, was: Pod)
    requires pod.meta.uid == was.meta.uid
    ensures !(ComputeObjectMetaChange(pod.meta, was.meta) || ComputePodSpecChange(pod.spec, was.spec)) <==> Show(pod) == Show(was)
  {
    MapChangeIff(pod.meta.labels, was.meta.labels);
    PodSpecChangeIff(pod.spec, was.spec);
  }

  lemma ReplaySnoc(sent: seq<Event>, e: Event)
    ensures Replay(sent + [e]) == Consume(Replay(sent), e)
    ensures AllUseful(sent) && Useful(Replay(sent), e) ==> AllUseful(sent + [e])
  {
    var more := sent + [e];
    assert more[..|sent|] == sent;
    assert forall k :: 0 <= k < |sent| ==> more[..k] == sent[..k];
  }

  ghost predicate Agrees(s: State) {
    Replay(s.sent) == Summary(s.cache) && AllUseful(s.sent)
  }

  lemma PutAgrees(s: State, pod: Pod, e: Event)
    requires Agrees(s) && Useful(Summary(s.cache), e) && !e.Remove? && e.pod == pod
    ensures Agrees(State(s.cache[pod.meta.uid := pod], s.sent + [e]))
  {
    ReplaySnoc(s.sent, e);
    hide Replay, AllUseful, Show, Useful;
    assert Summary(s.cache[pod.meta.uid := pod]) == Summary(s.cache)[pod.meta.uid := Show(pod)];
  }

  lemma SilentPutAgrees(s: State, pod: Pod)
    requires Agrees(s) && pod.meta.uid in s.cache && Show(pod) == Show(s.cache[pod.meta.uid])
    ensures Agrees(State(s.cache[pod.meta.uid := pod], s.sent))
  {
    hide Replay, AllUseful, Show;
    assert Summary(s.cache[pod.meta.uid := pod]) == Summary(s.cache);
  }

  lemma DeleteAgrees(s: State, pod: Pod)
    requires Agrees(s) && pod.meta.uid in s.cache
    ensures Agrees(State(s.cache - {pod.meta.uid}, s.sent + [Remove(pod)]))
  {
    ReplaySnoc(s.sent, Remove(pod));
    hide Replay, AllUseful, Show;
    assert Summary(s.cache - {pod.meta.uid}) == Summary(s.cache) - {pod.meta.uid};
  }

  lemma ObserveKeepsView(node: string, s: State, e: WatchEvent)
    requires Filed(s.cache) && Agrees(s)
    ensures Agrees(Observe(node, s, e))
  {
    var pod, u := e.pod, e.pod.meta.uid;
    hide Agrees, ComputeObjectMetaChange, ComputePodSpecChange, Show;
    if Concerns(node, e) {
      if e.Delete? {
        if u in s.cache { DeleteAgrees(s, pod); }
      } else if u !in s.cache {
        PutAgrees(s, pod, Create(pod));
      } else {
        SuppressedIff(pod, s.cache[u]);
        if Show(pod) == Show(s.cache[u]) { SilentPutAgrees(s, pod); } else { PutAgrees(s, pod, Update(pod)); }
      }
    }
  }

  /** A consumer of the events alone always sees the cached pods, equal in every compared field. */
  lemma {:induction false} ConsumerSeesCache(node: string, es: seq<WatchEvent>)
    ensures Agrees(Run(node, es))
  {
    if es != [] {
      ConsumerSeesCache(node, es[..|es| - 1]);
      ObserveKeepsView(node, Run(node, es[..|es| - 1]), es[|es| - 1]);
    }
  }

  /** ForceRemove drops a pod behind the consumer's back: agreement survives exactly when it drops nothing. */
  lemma ForceRemoveAgreesIff(s: State, uid: string)
    requires Replay(s.sent) == Summary(s.cache)
    ensures Replay(s.sent) == Summary(s.cache - {uid}) <==> uid !in s.cache
  {
    if uid in s.cache {
      assert uid in Summary(s.cache) && uid !in Summary(s.cache - {uid});
    } else {
      assert s.cache - {uid} == s.cache;
    }
  }

  // ----- The informer object -----

  class PodInformer {
    const nodeUID: string
    var podCache: Cache
    var podEvent: seq<Event>

    ghost predicate Valid()
      reads this
    {
      Filed(podCache)
    }

    ghost function Abs(): State
      reads this
    {
      State(podCache, podEvent)
    }

    constructor (nodeUID: string)
      ensures Valid() && this.nodeUID == nodeUID && Abs() == Run(nodeUID, [])
    {
      this.nodeUID := nodeUID;
      podCache, podEvent := map[], [];
    }

    method InformPod(newPod: Pod, deleted: bool)
      requires Valid()
      modifies this`podCache, this`podEvent
      ensures Valid() && Abs() == Inform(old(Abs()), if deleted then Delete(newPod) else Put(newPod))
    {
      var uid := newPod.meta.uid;
      var exist := uid in podCache;
      if deleted {
        if exist {
          podCache := podCache - {uid};
          podEvent := podEvent + [Remove(newPod)];
        }
      } else if !exist {
        podCache := podCache[uid := newPod];
        podEvent := podEvent + [Create(newPod)];
      } else {
        var oldPod := podCache[uid];
        podCache := podCache[uid := newPod];
        if ComputeObjectMetaChange(newPod.meta, oldPod.meta) || ComputePodSpecChange(newPod.spec, oldPod.spec) {
          podEvent := podEvent + [Update(newPod)];
        }
      }
    }

    /** The watch loop of one session. */
    method Watch(es: seq<WatchEvent>)
      requires Valid() && Abs() == Run(nodeUID, [])
      modifies this`podCache, this`podEvent
      ensures Valid() && Abs() == Run(nodeUID, es)
      ensures Replay(podEvent) == Summary(podCache)
    {
      for k := 0 to |es|
        invariant Valid() && Abs() == Run(nodeUID, es[..k])
      {
        assert es[..k + 1][..k] == es[..k];
        if es[k].Delete? {
          InformPod(es[k].pod, true);
        } else if es[k].pod.status.OnNode? && es[k].pod.status.nodeUID == nodeUID {
          InformPod(es[k].pod, false);
        }
      }
      assert es[..|es|] == es;
      ConsumerSeesCache(nodeUID, es);
    }

    method ForceRemove(uid: string)
      requires Valid()
      modifies this`podCache
      ensures Valid() && podCache == old(podCache) - {uid}
    {
      podCache := podCache - {uid};
    }
  }
}
