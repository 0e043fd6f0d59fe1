/**
  Matching replies with requests in the gateway (pkg/gateway/consumer.go, httphandler.go): request
  handlers, write errors, timeouts and one listener, interleaved step by step.
 */
module Gateway {
  import opened Options

  datatype Reply = Reply(uid: string, payload: string)

  /** A handler, by the point it has reached. */
  datatype Phase =
    | Registered              // its channel is in the map
    | Published               // its request is in the queue, the write has not returned
    | Waiting
    | Answered(reply: Reply)
    | GaveUp                  // a write error or the timeout

  datatype Listener = Idle | Sending(chan: nat, reply: Reply)

  /** Channels are numbered; chanOf is the handlers' own reference to the channel they made. */
  datatype State = State(
    channelMap: map<string, nat>, chanOf: map<string, nat>, phases: map<string, Phase>,
    buffers: map<nat, seq<Reply>>, listener: Listener, got: seq<Reply>, sends: seq<nat>, next: nat)

  datatype Step =
    | Register(uid: string)       // httphandler.go:82-85
    | Publish(uid: string)        // lines 87-92
    | WriteReturns(uid: string)
    | WriteFails(uid: string)     // lines 93-97
    | Timeout(uid: string)        // lines 103-105
    | Receive(uid: string)        // line 107
    | Read(reply: Reply)          // consumer.go:13-29
    | Send                        // line 33

  const CAPACITY: nat := 1

  function Start(): State {
    State(map[], map[], map[], map[], Idle, [], [], 0)
  }

  predicate Known(s: State, u: string) {
    u in s.phases && u in s.chanOf && s.chanOf[u] in s.buffers
  }

  /** Replies come only for requests that were handed to the queue, as often as they like. */
  predicate Enabled(s: State, step: Step) {
    match step
    case Register(u) => u !in s.phases
    case Publish(u) => Known(s, u) && s.phases[u].Registered?
    case WriteReturns(u) => Known(s, u) && s.phases[u].Published?
    case WriteFails(u) => Known(s, u) && (s.phases[u].Registered? || s.phases[u].Published?)
    case Timeout(u) => Known(s, u) && s.phases[u].Waiting?
    case Receive(u) => Known(s, u) && s.phases[u].Waiting? && s.buffers[s.chanOf[u]] != []
    case Read(r) => s.listener.Idle? && Known(s, r.uid) && !s.phases[r.uid].Registered?
    case Send => s.listener.Sending? && s.listener.chan in s.buffers && |s.buffers[s.listener.chan]| < CAPACITY
  }

  function Apply(s: State, step: Step): State
    requires Enabled(s, step)
  {
    match step
    case Register(u) =>
      s.(channelMap := s.channelMap[u := s.next], chanOf := s.chanOf[u := s.next],
         phases := s.phases[u := Registered], buffers := s.buffers[s.next := []], next := s.next + 1)
    case Publish(u) => s.(phases := s.phases[u := Published])
    case WriteReturns(u) => s.(phases := s.phases[u := Waiting])
    case WriteFails(u) => s.(phases := s.phases[u := GaveUp])
    case Timeout(u) => s.(phases := s.phases[u := GaveUp])
    case Receive(u) =>
      var c := s.chanOf[u];
      s.(phases := s.phases[u := Answered(s.buffers[c][0])], buffers := s.buffers[c := s.buffers[c][1..]])
    case Read(r) =>
      s.(channelMap := s.channelMap - {r.uid}, got := s.got + [r],
         listener := if r.uid in s.channelMap then Sending(s.channelMap[r.uid], r) else Idle)
    case Send =>
      var c := s.listener.chan;
      s.(buffers := s.buffers[c := s.buffers[c] + [s.listener.reply]], sends := s.sends + [c], listener := Idle)
  }

  predicate IsRun(steps: seq<Step>)
    decreases |steps|, 0
  {
    steps == [] ||
    (IsRun(steps[..|steps| - 1]) && Enabled(Run(steps[..|steps| - 1]), steps[|steps| - 1]))
  }

  function Run(steps: seq<Step>): State
    requires IsRun(steps)
    decreases |steps|, 1
  {
    if steps == [] then Start() else Apply(Run(steps[..|steps| - 1]), steps[|steps| - 1])
  }

  // ----- Where the first reply to a request is -----

  function First(got: seq<Reply>, u: string): Option<Reply> {
    if got == [] then None
    else if got[0].uid == u then Some(got[0])
    else First(got[1..], u)
  }

  lemma {:induction false} FirstIsEarliest(got: seq<Reply>, u: string)
    ensures First(got, u) == None ==> forall i :: 0 <= i < |got| ==> got[i].uid != u
    ensures
      First(got, u).Some? ==>
      exists i :: 0 <= i < |got| && got[i] == First(got, u).value && got[i].uid == u
                  && forall j :: 0 <= j < i ==> got[j].uid != u
  {
    if got != [] && got[0].uid != u {
      FirstIsEarliest(got[1..], u);
      if First(got[1..], u).Some? {
        var i :| 0 <= i < |got[1..]| && got[1..][i] == First(got[1..], u).value && got[1..][i].uid == u
                 && forall j :: 0 <= j < i ==> got[1..][j].uid != u;
        assert got[i + 1] == got[1..][i];
        forall j | 0 <= j < i + 1 ensures got[j].uid != u {
          if j > 0 { assert got[j] == got[1..][j - 1]; }
        }
      }
    }
  }

  lemma {:induction false} FirstSnoc(got: seq<Reply>, r: Reply, u: string)
    ensures First(got + [r], u) ==
            if First(got, u).Some? then First(got, u) else if r.uid == u then Some(r) else None
  {
    if got != [] {
      assert (got + [r])[1..] == got[1..] + [r];
      FirstSnoc(got[1..], r, u);
    }
  }

  /** What the channel of a request holds: its first reply, from the send until the handler takes it. */
  predicate RightBuffer(s: State, u: string)
    requires Known(s, u)
  {
    var c, first := s.chanOf[u], First(s.got, u);
    if first == None then s.buffers[c] == [] && !s.phases[u].Answered? && c !in s.sends
    else if s.listener == Sending(c, first.value) then s.buffers[c] == [] && !s.phases[u].Answered? && c !in s.sends
    else
      && multiset(s.sends)[c] == 1
      && if s.phases[u].Answered? then s.phases[u].reply == first.value && s.buffers[c] == []
         else s.buffers[c] == [first.value]
  }

  predicate RightEntry(s: State, u: string) {
    && Known(s, u) && s.chanOf[u] < s.next
    && (u in s.channelMap <==> First(s.got, u) == None)
    && (u in s.channelMap ==> s.channelMap[u] == s.chanOf[u])
    && (s.phases[u].Registered? ==> First(s.got, u) == None)
    && RightBuffer(s, u)
  }

  ghost predicate Good(s: State) {
    && s.phases.Keys == s.chanOf.Keys && s.channelMap.Keys <= s.phases.Keys
    && (forall c :: c in s.buffers ==> c < s.next)
    && (forall k :: k in s.sends ==> k < s.next)
    && (forall u :: u in s.phases ==> RightEntry(s, u))
    && (forall u, v :: u in s.chanOf && v in s.chanOf && u != v ==> s.chanOf[u] != s.chanOf[v])
    && (s.listener.Sending? ==>
          var r := s.listener.reply;
          r.uid in s.chanOf && s.chanOf[r.uid] == s.listener.chan && First(s.got, r.uid) == Some(r))
  }

  lemma RegisterKeepsEntry(s: State, u: string, v: string)
    requires Good(s) && u !in s.phases && v in s.phases
    ensures RightEntry(Apply(s, Register(u)), v)
  {
    hide First;
    assert RightEntry(s, v);
  }

  lemma RegisterMakesEntry(s: State, u: string)
    requires Good(s) && u !in s.phases && First(s.got, u) == None
    ensures RightEntry(Apply(s, Register(u)), u)
  {
    hide First, RightEntry;
    assert s.next !in s.sends;
    EntryIsRight(Apply(s, Register(u)), u);
  }

  /** A registered request without a reply, on a channel that is empty and unused. */
  lemma EntryIsRight(t: State, u: string)
    requires Known(t, u) && First(t.got, u) == None && t.phases[u] == Registered && t.chanOf[u] < t.next
    requires u in t.channelMap && t.channelMap[u] == t.chanOf[u] && t.buffers[t.chanOf[u]] == [] && t.chanOf[u] !in t.sends
    ensures RightEntry(t, u)
  {
    hide First;
  }

  lemma RegisterKeepsGood(s: State, u: string)
    requires Good(s) && u !in s.phases && First(s.got, u) == None
    ensures Good(Apply(s, Register(u)))
  {
    hide First, RightBuffer;
    forall v | v in s.chanOf ensures s.chanOf[v] < s.next {
      assert RightEntry(s, v);
    }
    hide RightEntry;
    var t := Apply(s, Register(u));
    forall v | v in t.phases ensures RightEntry(t, v) {
      if v != u {
        RegisterKeepsEntry(s, u, v);
      } else {
        RegisterMakesEntry(s, u);
      }
    }
  }

  lemma PhaseKeepsGood(s: State, u: string, p: Phase)
    requires Good(s) && Known(s, u) && !s.phases[u].Answered? && !p.Answered? && !p.Registered?
    ensures Good(s.(phases := s.phases[u := p]))
  {
    hide First;
    var t := s.(phases := s.phases[u := p]);
    assert RightEntry(s, u);
    forall v | v in t.phases ensures RightEntry(t, v) {
      assert RightEntry(s, v);
    }
  }

  lemma ReceiveKeepsGood(s: State, u: string)
    requires Good(s) && Enabled(s, Receive(u))
    ensures Good(Apply(s, Receive(u)))
  {
    hide First;
    var t := Apply(s, Receive(u));
    assert RightEntry(s, u);
    forall v | v in t.phases ensures RightEntry(t, v) {
      assert RightEntry(s, v);
    }
  }

  lemma ReadKeepsGood(s: State, r: Reply)
    requires Good(s) && Enabled(s, Read(r))
    ensures Good(Apply(s, Read(r)))
  {
    var t := Apply(s, Read(r));
    assert RightEntry(s, r.uid);
    forall v | v in t.phases ensures RightEntry(t, v) {
      assert RightEntry(s, v);
      FirstSnoc(s.got, r, v);
    }
    FirstSnoc(s.got, r, r.uid);
  }

  lemma SendKeepsGood(s: State)
    requires Good(s) && Enabled(s, Send)
    ensures Good(Apply(s, Send))
  {
    hide First;
    var t := Apply(s, Send);
    assert RightEntry(s, s.listener.reply.uid);
    forall v | v in t.phases ensures RightEntry(t, v) {
      assert RightEntry(s, v);
    }
  }

  /** No request identifier is new once a reply carries it. */
  ghost predicate ReadsAreKnown(s: State) {
    forall u :: u !in s.phases ==> First(s.got, u) == None
  }

  lemma StepKeepsGood(s: State, step: Step)
    requires Good(s) && ReadsAreKnown(s) && Enabled(s, step)
    ensures Good(Apply(s, step)) && ReadsAreKnown(Apply(s, step))
  {
    match step {
      case Register(u) => RegisterKeepsGood(s, u);
      case Publish(u) => PhaseKeepsGood(s, u, Published);
      case WriteReturns(u) => PhaseKeepsGood(s, u, Waiting);
      case WriteFails(u) => PhaseKeepsGood(s, u, GaveUp);
      case Timeout(u) => PhaseKeepsGood(s, u, GaveUp);
      case Receive(u) => ReceiveKeepsGood(s, u);
      case Read(r) => ReadKeepsGood(s, r);
      case Send => SendKeepsGood(s);
    }
    hide Good;
    if step.Read? {
      forall u | u !in s.phases ensures First(s.got + [step.reply], u) == None {
        FirstSnoc(s.got, step.reply, u);
      }
    }
  }

  lemma {:induction false} RunIsGood(steps: seq<Step>)
    requires IsRun(steps)
    ensures Good(Run(steps)) && ReadsAreKnown(Run(steps))
  {
    if steps != [] {
      RunIsGood(steps[..|steps| - 1]);
      StepKeepsGood(Run(steps[..|steps| - 1]), steps[|steps| - 1]);
    }
  }

  // ----- What this means -----

  /** In every interleaving the listener can always send: it never waits for a handler. */
  lemma ListenerNeverBlocks(steps: seq<Step>)
    requires IsRun(steps)
    ensures Run(steps).listener.Sending? ==> Enabled(Run(steps), Send)
  {
    RunIsGood(steps);
    var s := Run(steps);
    if s.listener.Sending? {
      assert RightEntry(s, s.listener.reply.uid);
    }
  }

  /** The map holds exactly the requests without a reply so far, those given up on included. */
  lemma MapIsUnanswered(steps: seq<Step>, u: string)
    requires IsRun(steps)
    ensures var s := Run(steps); u in s.channelMap <==> u in s.phases && First(s.got, u) == None
  {
    RunIsGood(steps);
    assert u in Run(steps).phases ==> RightEntry(Run(steps), u);
  }

  /** The first reply to a request finds the request's own channel; later ones find none. */
  lemma FirstReplyFinds(steps: seq<Step>, r: Reply)
    requires IsRun(steps) && Enabled(Run(steps), Read(r))
    ensures
      var s := Run(steps);
      Apply(s, Read(r)).listener == if First(s.got, r.uid) == None then Sending(s.chanOf[r.uid], r) else Idle
  {
    RunIsGood(steps);
    assert RightEntry(Run(steps), r.uid);
  }

  /** Each channel gets at most one message, and a handler answers only with the first reply to its own request. */
  lemma OneMessageEach(steps: seq<Step>, u: string)
    requires IsRun(steps) && u in Run(steps).phases
    ensures
      var s := Run(steps);
      && u in s.chanOf && multiset(s.sends)[s.chanOf[u]] <= 1
      && (s.phases[u].Answered? ==> First(s.got, u) == Some(s.phases[u].reply) && s.phases[u].reply.uid == u)
  {
    RunIsGood(steps);
    var s := Run(steps);
    assert RightEntry(s, u);
    FirstIsEarliest(s.got, u);
    assert s.chanOf[u] !in s.sends ==> multiset(s.sends)[s.chanOf[u]] == 0;
  }

  /** No reply is lost: a waiting handler whose request has a reply can receive it, at the latest after the next send. */
  lemma WaitingIsServed(steps: seq<Step>, u: string)
    requires IsRun(steps) && u in Run(steps).phases && Run(steps).phases[u].Waiting?
    requires First(Run(steps).got, u).Some?
    ensures
      var s := Run(steps);
      Enabled(s, Receive(u)) || (Enabled(s, Send) && Enabled(Apply(s, Send), Receive(u)))
  {
    RunIsGood(steps);
    GoodServes(Run(steps), u);
  }

  lemma GoodServes(s: State, u: string)
    requires Good(s) && u in s.phases && s.phases[u].Waiting? && First(s.got, u).Some?
    ensures Enabled(s, Receive(u)) || (Enabled(s, Send) && Enabled(Apply(s, Send), Receive(u)))
  {
    hide First;
    assert RightEntry(s, u);
  }

  /** Where a handler stands, by what it has done. */
  ghost predicate Stands(steps: seq<Step>, phases: map<string, Phase>, u: string) {
    var published, returned, received := Publish(u) in steps, WriteReturns(u) in steps, Receive(u) in steps;
    var failed := WriteFails(u) in steps || Timeout(u) in steps;
    if u !in phases then Register(u) !in steps && !published && !returned && !received && !failed
    else
      && Register(u) in steps
      && match phases[u]
        case Registered => !published && !returned && !received && !failed
        case Published => published && !returned && !received && !failed
        case Waiting => returned && !received && !failed
        case Answered(_) => returned && received && !failed
        case GaveUp => failed && !received
  }

  lemma StepStands(s: State, steps: seq<Step>, step: Step, u: string)
    requires Enabled(s, step) && Stands(steps, s.phases, u)
    ensures Stands(steps + [step], Apply(s, step).phases, u)
  {
    assert forall x :: x in steps + [step] <==> x in steps || x == step;
  }

  /**
    In every interleaving a handler is answered exactly if it received, and gives up exactly if its
    write failed or its time was out, never both.
   */
  lemma {:induction false} HandlerStands(steps: seq<Step>, u: string)
    requires IsRun(steps)
    ensures Stands(steps, Run(steps).phases, u)
  {
    if steps != [] {
      var front, last := steps[..|steps| - 1], steps[|steps| - 1];
      HandlerStands(front, u);
      StepStands(Run(front), front, last, u);
      assert steps == front + [last];
    }
  }

  /** In every interleaving a handler can go on or give up at any point until it has ended. */
  lemma HandlerCanMove(steps: seq<Step>, u: string)
    requires IsRun(steps) && u in Run(steps).phases
    ensures
      var s := Run(steps);
      match s.phases[u]
      case Registered => Enabled(s, Publish(u)) && Enabled(s, WriteFails(u))
      case Published => Enabled(s, WriteReturns(u)) && Enabled(s, WriteFails(u))
      case Waiting => Enabled(s, Timeout(u))
      case _ => true
  {
    RunIsGood(steps);
    assert RightEntry(Run(steps), u);
  }

  // ----- The gateway object -----

  class Channel {
    const id: nat
    var buffer: seq<Reply>

    constructor (id: nat)
      ensures this.id == id && buffer == []
    {
      this.id := id;
      buffer := [];
    }
  }

  class RuntimeGateway {
    var channelMap: map<string, Channel>
    var made: nat

    /** Channels in the map are different and empty: nothing was sent on them yet. */
    ghost predicate Valid()
      reads this, channelMap.Values
    {
      && (forall u :: u in channelMap ==> channelMap[u].buffer == [] && channelMap[u].id < made)
      && (forall u, v :: u in channelMap && v in channelMap && u != v ==> channelMap[u].id != channelMap[v].id)
    }

    ghost function Numbers(): map<string, nat>
      reads this, channelMap.Values
    {
      map u | u in channelMap :: channelMap[u].id
    }

    constructor ()
      ensures Valid() && channelMap == map[] && made == 0
    {
      channelMap, made := map[], 0;
    }

    method Register(uid: string) returns (channel: Channel)
      requires Valid() && uid !in channelMap
      modifies this
      ensures Valid() && fresh(channel) && channel.buffer == []
      ensures channelMap == old(channelMap)[uid := channel] && made == old(made) + 1
      ensures Numbers() == old(Numbers())[uid := old(made)]
    {
      ghost var before := channelMap;
      channel := new Channel(made);
      made := made + 1;
      channelMap := channelMap[uid := channel];
      assert forall u :: u in before ==> u != uid && before[u] != channel && channelMap[u] == before[u];
    }

    /** One round of the listener; the reply goes to no channel but the one registered under its identifier. */
    method Deliver(msg: Reply) returns (found: bool)
      requires Valid()
      modifies this`channelMap, channelMap.Values
      ensures Valid() && found == (msg.uid in old(channelMap))
      ensures channelMap == old(channelMap) - {msg.uid} && Numbers() == old(Numbers()) - {msg.uid}
      ensures found ==> old(channelMap)[msg.uid].buffer == [msg]
      ensures forall u :: u in old(channelMap) && u != msg.uid ==> old(channelMap)[u].buffer == []
    {
      found := msg.uid in channelMap;
      if found {
        var channel := channelMap[msg.uid];
        channelMap := channelMap - {msg.uid};
        channel.buffer := channel.buffer + [msg];
      }
    }
  }
}
