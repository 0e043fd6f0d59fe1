/**
  The heartbeat client of a node (pkg/apiserver/heartbeat/heartbeat.go). A connection belongs to the
  epoch `lostCnt` had when its dialing began; its reader and its writer race to declare it lost.
 */
module Heartbeat {

  /** A goroutine, by the point it has reached; cnt is the epoch it works for. */
  datatype Thread =
    | Starting                            // updateHeartBeat, before it reads lostCnt
    | Dialing(cnt: nat)
    | Dialed(cnt: nat)                    // connected, flag not yet set
    | Announced(cnt: nat)                 // flag set, maintainHealth not yet started
    | Reading(cnt: nat)
    | Maintaining(cnt: nat)
    | Closing(cnt: nat, reader: bool)     // closeConn, before it takes the lock
    | Retrying

  type Threads = map<nat, Thread>

  datatype State = State(lostCnt: nat, connected: bool, threads: Threads, next: nat, retries: nat, dials: nat)

  datatype Step =
    | ReadCount(t: nat)     // lines 92-94
    | DialOk(t: nat)        // lines 99-109
    | Announce(t: nat)      // lines 111-113
    | StartHealth(t: nat)   // line 117
    | Fail(t: nat)          // a failed read or write, a timeout
    | CloseLocked(t: nat)   // lines 43-51
    | ApiAlive(t: nat)      // lines 130-140

  function InitNode(): State {
    State(0, false, map[0 := Starting], 1, 0, 1)
  }

  predicate Enabled(s: State, step: Step) {
    step.t in s.threads &&
    var th := s.threads[step.t];
    match step
    case ReadCount(_) => th.Starting?
    case DialOk(_) => th.Dialing?
    case Announce(_) => th.Dialed?
    case StartHealth(_) => th.Announced?
    case Fail(_) => th.Reading? || th.Maintaining?
    case CloseLocked(_) => th.Closing?
    case ApiAlive(_) => th.Retrying?
  }

  function Move(s: State, t: nat, th: Thread): State {
    s.(threads := s.threads[t := th])
  }

  function Apply(s: State, step: Step): State
    requires Enabled(s, step)
  {
    var th := s.threads[step.t];
    match step
    case ReadCount(t) => Move(s, t, Dialing(s.lostCnt))
    case DialOk(t) => Move(s, t, Dialed(th.cnt))
    case Announce(t) => Move(s, t, Announced(th.cnt)).(connected := true)
    case StartHealth(t) =>
      s.(threads := s.threads[t := Reading(th.cnt)][s.next := Maintaining(th.cnt)], next := s.next + 1)
    case Fail(t) => Move(s, t, Closing(th.cnt, th.Reading?))
    case CloseLocked(t) =>
      if th.cnt == s.lostCnt then
        State(s.lostCnt + 1, false, (s.threads - {t})[s.next := Retrying], s.next + 1, s.retries + 1, s.dials)
      else s.(threads := s.threads - {t})
    case ApiAlive(t) =>
      s.(threads := (s.threads - {t})[s.next := Starting], next := s.next + 1, dials := s.dials + 1)
  }

  // ----- Ownership of the current epoch -----

  predicate OnConnection(th: Thread) {
    th.Announced? || th.Reading? || (th.Closing? && th.reader)
  }

  /** The retry loop, the dialer or the connection of the current epoch. */
  predicate Owns(th: Thread, lostCnt: nat) {
    || th.Starting? || th.Retrying?
    || ((th.Dialing? || th.Dialed? || OnConnection(th)) && th.cnt == lostCnt)
  }

  predicate IsOwner(s: State, o: nat) {
    o in s.threads && Owns(s.threads[o], s.lostCnt)
  }

  predicate Writer(th: Thread) {
    th.Maintaining? || (th.Closing? && !th.reader)
  }

  /** No epoch is ahead; before its health check starts an epoch cannot have been lost. */
  predicate EpochsFit(s: State) {
    forall t :: t in s.threads ==>
      var th := s.threads[t];
      && t < s.next
      && (th.Dialing? || th.Dialed? || th.Announced? ==> th.cnt == s.lostCnt)
      && (th.Reading? || th.Maintaining? || th.Closing? ==> th.cnt <= s.lostCnt)
  }

  /** The reader of a connection whose health check has been started. */
  predicate Checked(th: Thread) {
    th.Reading? || (th.Closing? && th.reader)
  }

  predicate IsWriter(s: State, t: nat) {
    t in s.threads && Writer(s.threads[t]) && s.threads[t].cnt == s.lostCnt
  }

  /** The connection of the current epoch has exactly one health checker from the moment it is read, and none before. */
  ghost predicate OneWriter(s: State, o: nat)
    requires o in s.threads
  {
    if Checked(s.threads[o])
    then exists w :: IsWriter(s, w) && forall v :: IsWriter(s, v) ==> v == w
    else forall v :: !IsWriter(s, v)
  }

  predicate WasLost(s: State, t: nat) {
    t in s.threads && (Checked(s.threads[t]) || Writer(s.threads[t])) && s.threads[t].cnt < s.lostCnt
  }

  /** Of a lost connection at most one goroutine is left, the reader or the health checker. */
  ghost predicate OneLeft(s: State) {
    forall t, u :: WasLost(s, t) && WasLost(s, u) && s.threads[t].cnt == s.threads[u].cnt ==> t == u
  }

  /** o is the one owner; the flag is up exactly while it is a connection not declared lost. */
  ghost predicate OwnedBy(s: State, o: nat) {
    && IsOwner(s, o) && (forall t :: IsOwner(s, t) ==> t == o)
    && (s.connected <==> OnConnection(s.threads[o]))
    && OneWriter(s, o) && OneLeft(s) && EpochsFit(s)
    && s.retries == s.lostCnt
    && s.dials == s.lostCnt + if s.threads[o].Retrying? then 0 else 1
  }

  /** Who owns the epoch after a step. */
  function NextOwner(s: State, o: nat, step: Step): nat
    requires Enabled(s, step)
  {
    if (step.CloseLocked? && s.threads[step.t].cnt == s.lostCnt) || step.ApiAlive? then s.next else o
  }

  /** A goroutine that moves on and keeps what it owns. */
  lemma MoveKeepsOwner(s: State, o: nat, step: Step)
    requires OwnedBy(s, o) && Enabled(s, step)
    requires step.ReadCount? || step.DialOk? || step.Announce? || step.Fail?
    ensures OwnedBy(Apply(s, step), o)
  {
    var s' := Apply(s, step);
    assert IsOwner(s', step.t) <==> IsOwner(s, step.t);
    assert forall u :: IsOwner(s', u) <==> IsOwner(s, u);
    assert forall u :: IsWriter(s', u) <==> IsWriter(s, u);
    assert forall u :: WasLost(s', u) <==> WasLost(s, u);
    assert Checked(s'.threads[o]) <==> Checked(s.threads[o]);
  }

  lemma StartKeepsOwner(s: State, o: nat, step: Step)
    requires OwnedBy(s, o) && Enabled(s, step) && step.StartHealth?
    ensures OwnedBy(Apply(s, step), o)
  {
    var s' := Apply(s, step);
    assert IsOwner(s, step.t) && step.t == o && !Checked(s.threads[o]);
    assert forall u :: !IsWriter(s, u);
    assert forall u :: IsOwner(s', u) <==> IsOwner(s, u);
    forall u ensures IsWriter(s', u) <==> u == s.next {
      assert !IsWriter(s, u);
    }
    assert IsWriter(s', s.next) && Checked(s'.threads[o]);
    assert forall u :: WasLost(s', u) <==> WasLost(s, u);
  }

  lemma AliveKeepsOwner(s: State, o: nat, step: Step)
    requires OwnedBy(s, o) && Enabled(s, step) && step.ApiAlive?
    ensures OwnedBy(Apply(s, step), s.next)
  {
    assert IsOwner(s, step.t) && step.t == o && !Checked(s.threads[o]);
    assert forall u :: !IsWriter(s, u);
    var s' := Apply(s, step);
    assert forall u :: IsOwner(s', u) ==> u == s.next || IsOwner(s, u);
    forall u ensures !IsWriter(s', u) {
      assert !IsWriter(s, u);
    }
    assert forall u :: WasLost(s', u) <==> WasLost(s, u);
  }

  lemma StepKeepsOwner(s: State, o: nat, step: Step)
    requires OwnedBy(s, o) && Enabled(s, step)
    ensures OwnedBy(Apply(s, step), NextOwner(s, o, step))
  {
    hide OwnedBy;
    if step.CloseLocked? {
      CloseKeepsOwner(s, o, step.t);
    } else if step.StartHealth? {
      StartKeepsOwner(s, o, step);
    } else if step.ApiAlive? {
      AliveKeepsOwner(s, o, step);
    } else {
      MoveKeepsOwner(s, o, step);
    }
  }

  lemma CloseKeepsOwner(s: State, o: nat, t: nat)
    requires OwnedBy(s, o) && Enabled(s, CloseLocked(t))
    ensures OwnedBy(Apply(s, CloseLocked(t)), NextOwner(s, o, CloseLocked(t)))
  {
    if s.threads[t].cnt == s.lostCnt {
      FirstCloseKeepsOwner(s, o, t);
    } else {
      var s' := Apply(s, CloseLocked(t));
      assert forall u :: IsOwner(s', u) <==> IsOwner(s, u);
      assert forall u :: IsWriter(s', u) <==> IsWriter(s, u);
      assert forall u :: WasLost(s', u) ==> WasLost(s, u);
    }
  }

  /** The first close of the current epoch ends one end of the connection and leaves the other one. */
  lemma FirstCloseKeepsOwner(s: State, o: nat, t: nat)
    requires OwnedBy(s, o) && Enabled(s, CloseLocked(t)) && s.threads[t].cnt == s.lostCnt
    ensures OwnedBy(Apply(s, CloseLocked(t)), s.next)
  {
    var s' := Apply(s, CloseLocked(t));
    assert s.threads[t].reader ==> IsOwner(s, t);
    assert !s.threads[t].reader ==> IsWriter(s, t);
    assert Checked(s.threads[o]);
    forall u
      ensures IsOwner(s', u) ==> u == s.next
      ensures u in s.threads ==> !s.threads[u].Dialing? && !s.threads[u].Dialed? && !s.threads[u].Announced?
    {
      assert !IsOwner(s, u) || u == o;
    }
    assert forall u :: !IsWriter(s', u);
    forall u, v | WasLost(s', u) && WasLost(s', v) && s'.threads[u].cnt == s'.threads[v].cnt ensures u == v {
      if s.threads[u].cnt == s.lostCnt {
        assert IsOwner(s, u) || IsWriter(s, u);
        assert IsOwner(s, v) || IsWriter(s, v);
      } else {
        assert WasLost(s, u) && WasLost(s, v);
      }
    }
  }

  /** A late close, from an older epoch, ends its goroutine and leaves flag, counters and all others alone. */
  lemma LateCloseIsSilent(s: State, t: nat)
    requires Enabled(s, CloseLocked(t)) && s.threads[t].cnt != s.lostCnt
    ensures var s' := Apply(s, CloseLocked(t));
      && s'.connected == s.connected && s'.lostCnt == s.lostCnt && s'.retries == s.retries && s'.dials == s.dials
      && t !in s'.threads
      && forall u :: u != t ==> (u in s'.threads <==> u in s.threads) && (u in s.threads ==> s'.threads[u] == s.threads[u])
  {
  }

  // ----- What the goroutines get done -----

  /** No goroutine ever waits for another one. */
  lemma EveryoneCanMove(s: State, t: nat)
    requires t in s.threads
    ensures exists step: Step :: step.t == t && Enabled(s, step)
  {
    var step := match s.threads[t]
      case Starting => ReadCount(t)
      case Dialing(_) => DialOk(t)
      case Dialed(_) => Announce(t)
      case Announced(_) => StartHealth(t)
      case Reading(_) => Fail(t)
      case Maintaining(_) => Fail(t)
      case Closing(_, _) => CloseLocked(t)
      case Retrying => ApiAlive(t);
    assert step.t == t && Enabled(s, step);
  }

  predicate CanRun(s: State, steps: seq<Step>)
    decreases |steps|
  {
    steps == [] || (Enabled(s, steps[0]) && CanRun(Apply(s, steps[0]), steps[1..]))
  }

  function RunAll(s: State, steps: seq<Step>): State
    requires CanRun(s, steps)
    decreases |steps|
  {
    if steps == [] then s else RunAll(Apply(s, steps[0]), steps[1..])
  }

  lemma {:induction false} OneStepMore(s: State, steps: seq<Step>, step: Step)
    requires CanRun(s, steps) && Enabled(RunAll(s, steps), step)
    ensures CanRun(s, steps + [step]) && RunAll(s, steps + [step]) == Apply(RunAll(s, steps), step)
    decreases |steps|
  {
    if steps == [] {
      assert [] + [step] == [step] && [step][1..] == [];
    } else {
      assert (steps + [step])[1..] == steps[1..] + [step];
      OneStepMore(Apply(s, steps[0]), steps[1..], step);
    }
  }

  /**
    After a loss, once the API server is alive: a new goroutine dials for the epoch after the loss,
    raises the flag, and gets a health checker of its own.
   */
  lemma ReconnectsAfterLoss(s: State, o: nat)
    requires OwnedBy(s, o) && s.threads[o].Retrying?
    ensures
      var n := s.next;
      var steps := [ApiAlive(o)] + [ReadCount(n)] + [DialOk(n)] + [Announce(n)] + [StartHealth(n)];
      && CanRun(s, steps)
      && var t := RunAll(s, steps);
      && t.connected && t.lostCnt == s.lostCnt && o !in t.threads
      && n in t.threads && t.threads[n] == Reading(s.lostCnt)
      && n + 1 in t.threads && t.threads[n + 1] == Maintaining(s.lostCnt)
  {
    var n := s.next;
    assert o < n;
    OneStepMore(s, [], ApiAlive(o));
    assert [] + [ApiAlive(o)] == [ApiAlive(o)];
    hide CanRun, RunAll, OwnedBy;
    OneStepMore(s, [ApiAlive(o)], ReadCount(n));
    OneStepMore(s, [ApiAlive(o)] + [ReadCount(n)], DialOk(n));
    OneStepMore(s, [ApiAlive(o)] + [ReadCount(n)] + [DialOk(n)], Announce(n));
    OneStepMore(s, [ApiAlive(o)] + [ReadCount(n)] + [DialOk(n)] + [Announce(n)], StartHealth(n));
  }

  /** Either end of the current connection, when it fails, takes the flag down and starts the retry loop. */
  lemma LossIsNoticed(s: State, o: nat, t: nat)
    requires OwnedBy(s, o) && t in s.threads && (s.threads[t].Reading? || s.threads[t].Maintaining?)
    requires s.threads[t].cnt == s.lostCnt
    ensures
      var steps := [Fail(t)] + [CloseLocked(t)];
      && CanRun(s, steps)
      && var e := RunAll(s, steps);
      && !e.connected && e.lostCnt == s.lostCnt + 1 && t !in e.threads
      && s.next in e.threads && e.threads[s.next].Retrying?
  {
    assert t < s.next;
    OneStepMore(s, [], Fail(t));
    assert [] + [Fail(t)] == [Fail(t)];
    hide CanRun, RunAll, OwnedBy;
    OneStepMore(s, [Fail(t)], CloseLocked(t));
  }

  // ----- Whole interleavings -----

  ghost predicate Run(states: seq<State>, steps: seq<Step>) {
    && |states| == |steps| + 1 && states[0] == InitNode()
    && forall i :: 0 <= i < |steps| ==> Enabled(states[i], steps[i]) && states[i + 1] == Apply(states[i], steps[i])
  }

  /**
    In every interleaving: exactly one owner, as many retries as losses, one health checker for the
    connection being read and none before, and of each lost connection at most one goroutine left.
   */
  lemma {:induction false} AlwaysOwned(states: seq<State>, steps: seq<Step>, n: nat) returns (o: nat)
    requires Run(states, steps) && n <= |steps|
    ensures OwnedBy(states[n], o)
  {
    if n == 0 {
      o := 0;
    } else {
      var before := AlwaysOwned(states, steps, n - 1);
      StepKeepsOwner(states[n - 1], before, steps[n - 1]);
      o := NextOwner(states[n - 1], before, steps[n - 1]);
    }
  }

  /** Both ends of one connection may close it, but only one close of an epoch counts. */
  lemma OneLossPerEpoch(states: seq<State>, steps: seq<Step>, i: nat, j: nat)
    requires Run(states, steps) && i < j < |steps|
    requires steps[i].CloseLocked? && steps[j].CloseLocked?
    requires states[i].threads[steps[i].t].cnt == states[j].threads[steps[j].t].cnt == states[i].lostCnt
    ensures states[j].lostCnt > states[i].lostCnt
    ensures states[j + 1].lostCnt == states[j].lostCnt && states[j + 1].connected == states[j].connected
  {
    CountGrows(states, steps, i + 1, j);
    LateCloseIsSilent(states[j], steps[j].t);
  }

  lemma {:induction false} CountGrows(states: seq<State>, steps: seq<Step>, i: nat, j: nat)
    requires Run(states, steps) && i <= j <= |steps|
    ensures states[i].lostCnt <= states[j].lostCnt
    decreases j
  {
    if i < j {
      CountGrows(states, steps, i, j - 1);
      assert states[j] == Apply(states[j - 1], steps[j - 1]);
    }
  }

  // ----- The goroutines' atomic sections -----

  class Client {
    var lostCnt: nat
    var connected: bool
    var threads: Threads
    var next: nat
    var retries: nat
    var dials: nat

    ghost function Abs(): State
      reads this
    {
      State(lostCnt, connected, threads, next, retries, dials)
    }

    constructor ()
      ensures Abs() == InitNode()
    {
      lostCnt, connected, next, retries, dials := 0, false, 1, 0, 1;
      threads := map[0 := Starting];
    }

    /** go f(): a goroutine at its first statement. */
    method Go(th: Thread)
      modifies `threads, `next
      ensures threads == old(threads)[old(next) := th] && next == old(next) + 1
    {
      threads := threads[next := th];
      next := next + 1;
    }

    /** The locked section of closeConn, after which its goroutine ends. */
    method CloseConn(t: nat)
      requires Enabled(Abs(), CloseLocked(t))
      modifies this
      ensures Abs() == Apply(old(Abs()), CloseLocked(t))
    {
      var cnt := threads[t].cnt;
      threads := threads - {t};
      if lostCnt == cnt {
        lostCnt := lostCnt + 1;
        connected := false;
        retries := retries + 1;
        Go(Retrying);
      }
    }

    method UpdateHeartBeat(t: nat)
      requires t in threads
      requires threads[t].Starting? || threads[t].Dialing? || threads[t].Dialed? || threads[t].Announced?
      modifies this
      ensures old(threads)[t].Starting? ==> Abs() == Apply(old(Abs()), ReadCount(t))
      ensures old(threads)[t].Dialing? ==> Abs() == Apply(old(Abs()), DialOk(t))
      ensures old(threads)[t].Dialed? ==> Abs() == Apply(old(Abs()), Announce(t))
      ensures old(threads)[t].Announced? ==> Abs() == Apply(old(Abs()), StartHealth(t))
    {
      match threads[t] {
        case Starting => threads := threads[t := Dialing(lostCnt)];
        case Dialing(cnt) => threads := threads[t := Dialed(cnt)];
        case Dialed(cnt) =>
          connected := true;
          threads := threads[t := Announced(cnt)];
        case Announced(cnt) =>
          threads := threads[t := Reading(cnt)];
          Go(Maintaining(cnt));
      }
    }

    method RetryConnection(t: nat)
      requires Enabled(Abs(), ApiAlive(t))
      modifies this
      ensures Abs() == Apply(old(Abs()), ApiAlive(t))
    {
      threads := threads - {t};
      dials := dials + 1;
      Go(Starting);
    }

    /** A read error, a write error or a timeout makes its goroutine return into closeConn. */
    method Lose(t: nat)
      requires Enabled(Abs(), Fail(t))
      modifies this
      ensures Abs() == Apply(old(Abs()), Fail(t))
    {
      var th := threads[t];
      threads := threads[t := Closing(th.cnt, th.Reading?)];
    }
  }
}
