/** The autoscaler: the scale decision and the life of its lower ReplicaSet (autoscaler_controller). */
module AutoScaler {
  import opened GoIntegers
  import opened Options
  import opened Quotients
  import Compare

  type Labels = Compare.Labels

  datatype Limit<T> = NoLimit | Limit(lo: T, hi: T)

  /** Times are in nanoseconds. */
  const SECOND: int := 1_000_000_000
  const MIN_SCALE_INTERVAL: int := 20 * SECOND

  datatype Spec = Spec(min: Int32, max: Int32, intervalSec: int, cpu: Limit<real>, memory: Limit<int>)

  datatype Utilization = Utilization(cpu: real, memory: int)

  datatype Status = Status(lastScale: int, rsUid: string, desired: int, actual: int, average: Utilization)

  datatype Usage = Usage(running: bool, cpu: real, memory: int)

  // ----- Utilization of the running pods -----

  function Running(pods: seq<Usage>): nat {
    if pods == [] then 0 else Running(pods[..|pods| - 1]) + if pods[|pods| - 1].running then 1 else 0
  }

  function TotalCpu(pods: seq<Usage>): real {
    if pods == [] then 0.0 else TotalCpu(pods[..|pods| - 1]) + if pods[|pods| - 1].running then pods[|pods| - 1].cpu else 0.0
  }

  function TotalMemory(pods: seq<Usage>): int {
    if pods == [] then 0 else TotalMemory(pods[..|pods| - 1]) + if pods[|pods| - 1].running then pods[|pods| - 1].memory else 0
  }

  function Mean(total: real, n: nat): real
    requires n > 0
  {
    total / n as real
  }

  function Average(pods: seq<Usage>): Utilization {
    var n := Running(pods);
    if n == 0 then Utilization(0.0, 0) else Utilization(Mean(TotalCpu(pods), n), Quo(TotalMemory(pods), n))
  }

  ghost predicate CpuWithin(pods: seq<Usage>, lo: real, hi: real) {
    forall i :: 0 <= i < |pods| && pods[i].running ==> lo <= pods[i].cpu <= hi
  }

  ghost predicate MemoryWithin(pods: seq<Usage>, lo: int, hi: int) {
    forall i :: 0 <= i < |pods| && pods[i].running ==> lo <= pods[i].memory <= hi
  }

  function Product(x: real, n: nat): real {
    x * n as real
  }

  lemma {:induction false} CpuTotalWithin(pods: seq<Usage>, lo: real, hi: real)
    requires CpuWithin(pods, lo, hi)
    ensures Product(lo, Running(pods)) <= TotalCpu(pods) <= Product(hi, Running(pods))
  {
    if pods != [] {
      var front := pods[..|pods| - 1];
      CpuTotalWithin(front, lo, hi);
      OneMore(lo, Running(front));
      OneMore(hi, Running(front));
      hide Product;
    }
  }

  lemma OneMore(x: real, n: nat)
    ensures Product(x, n + 1) == Product(x, n) + x
  {
    var m := n as real;
    assert (n + 1) as real == m + 1.0;
    assert x * (m + 1.0) == x * m + x;
  }

  lemma {:induction false} MemoryTotalWithin(pods: seq<Usage>, low: int, high: int)
    requires MemoryWithin(pods, low, high)
    ensures low * Running(pods) <= TotalMemory(pods) <= high * Running(pods)
  {
    if pods != [] {
      var front := pods[..|pods| - 1];
      MemoryTotalWithin(front, low, high);
      var n := Running(front);
      assert low * (n + 1) == low * n + low && high * (n + 1) == high * n + high;
    }
  }

  /** Counts and totals add up, and a pod that does not run adds nothing. */
  lemma {:induction false} TotalsAdd(a: seq<Usage>, b: seq<Usage>)
    ensures Running(a + b) == Running(a) + Running(b)
    ensures TotalCpu(a + b) == TotalCpu(a) + TotalCpu(b)
    ensures TotalMemory(a + b) == TotalMemory(a) + TotalMemory(b)
  {
    if b == [] {
      assert a + b == a;
    } else {
      var front, last := b[..|b| - 1], b[|b| - 1];
      assert (a + b)[..|a + b| - 1] == a + front && (a + b)[|a + b| - 1] == last;
      TotalsAdd(a, front);
    }
  }

  lemma TotalsOfOne(p: Usage)
    ensures Running([p]) == (if p.running then 1 else 0)
    ensures TotalCpu([p]) == (if p.running then p.cpu else 0.0)
    ensures TotalMemory([p]) == (if p.running then p.memory else 0)
  {
    assert [p][..0] == [];
  }

  /** The recorded averages: totals divided by the number of running pods, memory toward zero; zeros without any. */
  lemma AverageIs(pods: seq<Usage>)
    ensures Running(pods) == 0 ==> Average(pods).cpu == 0.0 && Average(pods).memory == 0
    ensures Running(pods) > 0 ==> Average(pods).cpu * Running(pods) as real == TotalCpu(pods)
    ensures
      Running(pods) > 0 && TotalMemory(pods) >= 0 ==>
      Average(pods).memory * Running(pods) <= TotalMemory(pods) < Average(pods).memory * Running(pods) + Running(pods)
    ensures
      Running(pods) > 0 && TotalMemory(pods) <= 0 ==>
      Average(pods).memory * Running(pods) - Running(pods) < TotalMemory(pods) <= Average(pods).memory * Running(pods)
  {
    var n, t := Running(pods), TotalMemory(pods);
    if n > 0 {
      hide Running, TotalCpu, TotalMemory;
      MeanTimes(TotalCpu(pods), n);
      QuoTimes(t, n);
      hide Mean, Quo;
    }
  }

  lemma MeanTimes(total: real, n: nat)
    requires n > 0
    ensures Mean(total, n) * n as real == total
  {
  }

  lemma QuoTimes(t: int, n: nat)
    requires n > 0
    ensures t >= 0 ==> Quo(t, n) * n <= t < Quo(t, n) * n + n
    ensures t <= 0 ==> Quo(t, n) * n - n < t <= Quo(t, n) * n
  {
    if t >= 0 {
      FloorTimes(t, n);
    } else {
      FloorTimes(-t, n);
      assert Quo(t, n) * n == -((-t) / n * n);
    }
  }

  lemma FloorTimes(t: nat, n: nat)
    requires n > 0
    ensures t / n * n <= t < t / n * n + n
    ensures t == 0 ==> t / n == 0
  {
    assert t == n * (t / n) + t % n;
  }

  /** Averages lie between the smallest and the largest usage of a running pod. */
  lemma AverageWithin(pods: seq<Usage>, lo: real, hi: real, low: int, high: int)
    requires Running(pods) > 0 && CpuWithin(pods, lo, hi) && MemoryWithin(pods, low, high)
    ensures lo <= Average(pods).cpu <= hi && low <= Average(pods).memory <= high
  {
    CpuMeanWithin(pods, lo, hi);
    MemoryMeanWithin(pods, low, high);
    hide CpuWithin, MemoryWithin, Running, TotalCpu, TotalMemory, Quo, Mean;
  }

  lemma CpuMeanWithin(pods: seq<Usage>, lo: real, hi: real)
    requires Running(pods) > 0 && CpuWithin(pods, lo, hi)
    ensures lo <= Mean(TotalCpu(pods), Running(pods)) <= hi
  {
    CpuTotalWithin(pods, lo, hi);
    hide CpuWithin, Running, TotalCpu, Mean, Product;
    MeanWithin(TotalCpu(pods), Running(pods), lo, hi);
  }

  lemma MemoryMeanWithin(pods: seq<Usage>, low: int, high: int)
    requires Running(pods) > 0 && MemoryWithin(pods, low, high)
    ensures low <= Quo(TotalMemory(pods), Running(pods)) <= high
  {
    MemoryTotalWithin(pods, low, high);
    hide MemoryWithin, Running, TotalMemory, Quo;
    QuotientWithin(TotalMemory(pods), Running(pods), low, high);
  }

  lemma MeanWithin(c: real, n: nat, lo: real, hi: real)
    requires n > 0 && Product(lo, n) <= c <= Product(hi, n)
    ensures lo <= Mean(c, n) <= hi
  {
    var d, x := n as real, Mean(c, n);
    assert x * d == c;
    RealSteps(d, x, lo);
    RealSteps(d, hi, x);
  }

  lemma RealSteps(n: real, a: real, b: real)
    requires n > 0.0
    ensures a < b ==> a * n < b * n
  {
    if a < b {
      var d := b - a;
      assert d * n > 0.0 && (a + d) * n == a * n + d * n;
    }
  }

  lemma QuotientWithin(t: int, n: nat, low: int, high: int)
    requires n > 0 && low * n <= t <= high * n
    ensures low <= Quo(t, n) <= high
  {
    if t >= 0 {
      FloorWithin(t, n, low, high);
    } else {
      assert -high * n == -(high * n) && -low * n == -(low * n);
      FloorWithin(-t, n, -high, -low);
    }
  }

  lemma FloorWithin(t: nat, n: nat, low: int, high: int)
    requires n > 0 && low * n <= t <= high * n
    ensures low <= t / n <= high
  {
    var q := t / n;
    assert t == n * q + t % n;
    Steps(n, q, low);
    Steps(n, high, q);
  }

  // ----- The decision -----

  function CpuFlag(limit: Limit<real>, actual: real): int {
    if limit.NoLimit? then 0 else if actual > limit.hi then 1 else if actual < limit.lo then -1 else 0
  }

  function MemoryFlag(limit: Limit<int>, actual: int): int {
    if limit.NoLimit? then 0 else if actual > limit.hi then 1 else if actual < limit.lo then -1 else 0
  }

  /** The longer one of twenty seconds and the interval of the spec. */
  function Gap(spec: Spec): (gap: int)
    ensures gap >= 20_000_000_000 && gap >= spec.intervalSec * 1_000_000_000
    ensures gap == 20_000_000_000 || gap == spec.intervalSec * 1_000_000_000
  {
    if spec.intervalSec * SECOND > MIN_SCALE_INTERVAL then spec.intervalSec * SECOND else MIN_SCALE_INTERVAL
  }

  /** The new number of replicas, if it should change. */
  function ComputeScale(spec: Spec, s: Status, running: nat, average: Utilization, now: int): Option<int> {
    var since := now - s.lastScale;
    if since < MIN_SCALE_INTERVAL || since < spec.intervalSec * SECOND then None
    else if running != s.desired then None
    else
      var flag := CpuFlag(spec.cpu, average.cpu) + MemoryFlag(spec.memory, average.memory);
      if flag > 0 && s.desired < spec.max then Some(s.desired + 1)
      else if flag < 0 && s.desired > spec.min then Some(s.desired - 1)
      else None
  }

  predicate CpuAbove(spec: Spec, average: Utilization) {
    spec.cpu.Limit? && average.cpu > spec.cpu.hi
  }

  predicate CpuBelow(spec: Spec, average: Utilization) {
    spec.cpu.Limit? && average.cpu < spec.cpu.lo && average.cpu <= spec.cpu.hi
  }

  predicate MemoryAbove(spec: Spec, average: Utilization) {
    spec.memory.Limit? && average.memory > spec.memory.hi
  }

  predicate MemoryBelow(spec: Spec, average: Utilization) {
    spec.memory.Limit? && average.memory < spec.memory.lo && average.memory <= spec.memory.hi
  }

  /** 20 seconds and the configured number of seconds have passed, and as many pods run as desired. */
  predicate MayScale(spec: Spec, s: Status, running: nat, now: int) {
    now - s.lastScale >= 20_000_000_000 && now - s.lastScale >= spec.intervalSec * 1_000_000_000 && running == s.desired
  }

  /**
    The exact decision. One more replica: it may scale, there is room, some average is above its upper
    limit and none is below its lower one. One less: the mirror image. Else nothing.
   */
  lemma DecisionIff(spec: Spec, s: Status, running: nat, average: Utilization, now: int)
    ensures
      ComputeScale(spec, s, running, average, now) == Some(s.desired + 1) <==>
      && MayScale(spec, s, running, now) && s.desired < spec.max
      && (CpuAbove(spec, average) || MemoryAbove(spec, average)) && !CpuBelow(spec, average) && !MemoryBelow(spec, average)
    ensures
      ComputeScale(spec, s, running, average, now) == Some(s.desired - 1) <==>
      && MayScale(spec, s, running, now) && s.desired > spec.min
      && (CpuBelow(spec, average) || MemoryBelow(spec, average)) && !CpuAbove(spec, average) && !MemoryAbove(spec, average)
    ensures
      var d := ComputeScale(spec, s, running, average, now);
      d == None || d == Some(s.desired + 1) || d == Some(s.desired - 1)
  {
  }

  // ----- The decision, over the pods' usage -----

  /** Some limit is configured, and every running pod is above each of those that are. */
  ghost predicate Overloaded(spec: Spec, pods: seq<Usage>) {
    && (spec.cpu.Limit? || spec.memory.Limit?)
    && (forall i :: 0 <= i < |pods| && pods[i].running ==>
          (spec.cpu.Limit? ==> pods[i].cpu > spec.cpu.hi) && (spec.memory.Limit? ==> pods[i].memory > spec.memory.hi))
  }

  /** Some limit is configured, and every running pod is below each of those that are. */
  ghost predicate Underloaded(spec: Spec, pods: seq<Usage>) {
    && (spec.cpu.Limit? || spec.memory.Limit?)
    && (forall i :: 0 <= i < |pods| && pods[i].running ==>
          && (spec.cpu.Limit? ==> pods[i].cpu < spec.cpu.lo && pods[i].cpu <= spec.cpu.hi)
          && (spec.memory.Limit? ==> pods[i].memory < spec.memory.lo && pods[i].memory <= spec.memory.hi))
  }

  lemma OverloadScalesUp(spec: Spec, s: Status, pods: seq<Usage>, now: int)
    requires Running(pods) > 0 && Overloaded(spec, pods)
    ensures
      ComputeScale(spec, s, Running(pods), Average(pods), now) == Some(s.desired + 1) <==>
      MayScale(spec, s, Running(pods), now) && s.desired < spec.max
  {
    if spec.cpu.Limit? { CpuAverageBeyond(pods, spec.cpu.hi); }
    if spec.memory.Limit? { MemoryAverageBeyond(pods, spec.memory.hi); }
    DecisionIff(spec, s, Running(pods), Average(pods), now);
    hide Running, Average, ComputeScale;
  }

  lemma UnderloadScalesDown(spec: Spec, s: Status, pods: seq<Usage>, now: int)
    requires Running(pods) > 0 && Underloaded(spec, pods)
    ensures
      ComputeScale(spec, s, Running(pods), Average(pods), now) == Some(s.desired - 1) <==>
      MayScale(spec, s, Running(pods), now) && s.desired > spec.min
  {
    if spec.cpu.Limit? {
      CpuAverageBeyond(pods, spec.cpu.lo);
      CpuAverageBeyond(pods, spec.cpu.hi);
    }
    if spec.memory.Limit? {
      MemoryAverageBeyond(pods, spec.memory.lo);
      MemoryAverageBeyond(pods, spec.memory.hi);
    }
    DecisionIff(spec, s, Running(pods), Average(pods), now);
    hide Running, Average, ComputeScale;
  }

  /** The average is beyond x where all running pods are. */
  lemma CpuAverageBeyond(pods: seq<Usage>, x: real)
    requires Running(pods) > 0
    ensures (forall i :: 0 <= i < |pods| && pods[i].running ==> pods[i].cpu > x) ==> Average(pods).cpu > x
    ensures (forall i :: 0 <= i < |pods| && pods[i].running ==> pods[i].cpu < x) ==> Average(pods).cpu < x
    ensures (forall i :: 0 <= i < |pods| && pods[i].running ==> pods[i].cpu <= x) ==> Average(pods).cpu <= x
  {
    var lo, hi := CpuRange(pods, x);
    CpuMeanWithin(pods, lo, hi);
    if forall i :: 0 <= i < |pods| && pods[i].running ==> pods[i].cpu <= x {
      CpuMeanWithin(pods, lo, x);
    }
    hide Running, Mean, TotalCpu, CpuWithin;
  }

  lemma MemoryAverageBeyond(pods: seq<Usage>, x: int)
    requires Running(pods) > 0
    ensures (forall i :: 0 <= i < |pods| && pods[i].running ==> pods[i].memory > x) ==> Average(pods).memory > x
    ensures (forall i :: 0 <= i < |pods| && pods[i].running ==> pods[i].memory < x) ==> Average(pods).memory < x
    ensures (forall i :: 0 <= i < |pods| && pods[i].running ==> pods[i].memory <= x) ==> Average(pods).memory <= x
  {
    var low, high := MemoryRange(pods, x);
    MemoryMeanWithin(pods, low, high);
    if forall i :: 0 <= i < |pods| && pods[i].running ==> pods[i].memory <= x {
      MemoryMeanWithin(pods, low, x);
    }
    hide Running, Quo, TotalMemory, MemoryWithin;
  }

  /** Finitely many usages beyond x stay beyond by some distance. */
  lemma {:induction false} CpuRange(pods: seq<Usage>, x: real) returns (lo: real, hi: real)
    ensures CpuWithin(pods, lo, hi)
    ensures (forall i :: 0 <= i < |pods| && pods[i].running ==> pods[i].cpu > x) ==> lo > x
    ensures (forall i :: 0 <= i < |pods| && pods[i].running ==> pods[i].cpu < x) ==> hi < x
  {
    if pods == [] {
      lo, hi := x + 1.0, x - 1.0;
    } else {
      var front, last := pods[..|pods| - 1], pods[|pods| - 1];
      lo, hi := CpuRange(front, x);
      assert forall i :: 0 <= i < |front| ==> front[i] == pods[i];
      if last.running {
        lo, hi := if last.cpu < lo then last.cpu else lo, if last.cpu > hi then last.cpu else hi;
      }
    }
  }

  lemma {:induction false} MemoryRange(pods: seq<Usage>, x: int) returns (low: int, high: int)
    ensures MemoryWithin(pods, low, high)
    ensures (forall i :: 0 <= i < |pods| && pods[i].running ==> pods[i].memory > x) ==> low > x
    ensures (forall i :: 0 <= i < |pods| && pods[i].running ==> pods[i].memory < x) ==> high < x
  {
    if pods == [] {
      low, high := x + 1, x - 1;
    } else {
      var front, last := pods[..|pods| - 1], pods[|pods| - 1];
      low, high := MemoryRange(front, x);
      assert forall i :: 0 <= i < |front| ==> front[i] == pods[i];
      if last.running {
        low, high := if last.memory < low then last.memory else low, if last.memory > high then last.memory else high;
      }
    }
  }

  // ----- Runs -----

  /** The autoscaler's status and the ReplicaSets it owns, by identifier. */
  datatype State = State(status: Option<Status>, rss: map<string, Int32>)

  /**
    Make: first creation, or after the ReplicaSet was removed; the ReplicaSet may not be created, or the
    status not be written. Check: decided at `from`, recorded at `to`; the write to the ReplicaSet may
    fail. The status it fills in is the cached one, so whether that is written makes no difference.
   */
  datatype Op =
    | Make(uid: string, at: int, created: bool, written: bool)
    | Check(pods: seq<Usage>, from: int, to: int, scaled: bool)
    | RsRemoved

  predicate Allowed(s: State, op: Op) {
    match op
    case Make(uid, _, _, _) => uid !in s.rss && (s.status.None? || (s.status.value.rsUid !in s.rss && s.status.value.rsUid != uid))
    case Check(_, _, _, _) => s.status.Some?
    case RsRemoved => s.status.Some?
  }

  function Scaling(spec: Spec, s: State, op: Op): Option<int> {
    if op.Check? && s.status.Some? && s.status.value.rsUid in s.rss
    then ComputeScale(spec, s.status.value, Running(op.pods), Average(op.pods), op.from)
    else None
  }

  function Next(spec: Spec, s: State, op: Op): State {
    match op
    case Make(uid, t, created, written) =>
      var n := Wrap32(spec.min);
      if !created then s
      else State(if written then Some(Status(t, uid, n, 0, Utilization(0.0, 0))) else s.status, s.rss[uid := n])
    case RsRemoved =>
      if s.status.None? then s else s.(rss := s.rss - {s.status.value.rsUid})
    case Check(pods, _, t, scaled) =>
      if s.status.None? then s else
      var seen := s.status.value.(actual := Running(pods), average := Average(pods));
      match Scaling(spec, s, op)
      case None => s.(status := Some(seen))
      case Some(d) =>
        State(Some(seen.(desired := d, lastScale := t)), if scaled then s.rss[seen.rsUid := Wrap32(d)] else s.rss)
  }

  /** What a check notes down besides its decision. */
  lemma CheckNotes(spec: Spec, s: State, op: Op)
    requires op.Check? && Allowed(s, op)
    ensures
      var t := Next(spec, s, op);
      && t.status.Some? && t.status.value.rsUid == s.status.value.rsUid
      && t.status.value.actual == Running(op.pods) && t.status.value.average == Average(op.pods)
      && t.rss.Keys == s.rss.Keys
      && forall u :: u in s.rss && u != s.status.value.rsUid ==> t.rss[u] == s.rss[u]
  {
    hide Running, Average, ComputeScale;
  }

  /** What a creation notes down, and that it and a removal leave the other ReplicaSets alone. */
  lemma CreationNotes(spec: Spec, s: State, op: Op)
    requires !op.Check? && Allowed(s, op)
    ensures
      var t := Next(spec, s, op);
      && (op.Make? && op.created ==>
            && op.uid in t.rss && t.rss[op.uid] == spec.min
            && (op.written ==> t.status == Some(Status(op.at, op.uid, spec.min, 0, Utilization(0.0, 0)))))
      && (!(op.Make? && op.created && op.written) ==> t.status == s.status)
      && forall u :: (if op.Make? then u != op.uid || !op.created else u != s.status.value.rsUid) ==>
            (u in t.rss <==> u in s.rss) && (u in t.rss ==> t.rss[u] == s.rss[u])
  {
  }

  datatype Change = Change(decided: int, recorded: int, before: int, after: int, reset: bool)

  function Run(spec: Spec, ops: seq<Op>): State {
    if ops == [] then State(None, map[]) else Next(spec, Run(spec, ops[..|ops| - 1]), ops[|ops| - 1])
  }

  /** How the operation changes the desired number, if it does. */
  function Added(spec: Spec, s: State, op: Op): seq<Change> {
    if op.Make? then if op.created && op.written then [Change(op.at, op.at, 0, spec.min, true)] else []
    else
      match Scaling(spec, s, op)
      case None => []
      case Some(d) => [Change(op.from, op.to, s.status.value.desired, d, false)]
  }

  function Changes(spec: Spec, ops: seq<Op>): seq<Change> {
    if ops == [] then [] else
    var front := ops[..|ops| - 1];
    Changes(spec, front) + Added(spec, Run(spec, front), ops[|ops| - 1])
  }

  ghost predicate Possible(spec: Spec, ops: seq<Op>) {
    forall i :: 0 <= i < |ops| ==> Allowed(Run(spec, ops[..i]), ops[i])
  }

  /** A removed ReplicaSet can be made anew under a new identifier, and the desired number is the minimum again. */
  lemma RecreatedAfterRemoval(spec: Spec, s: State, uid: string, at: int)
    requires s.status.Some? && uid !in s.rss && uid != s.status.value.rsUid
    ensures
      var gone, make := Next(spec, s, RsRemoved), Make(uid, at, true, true);
      && Allowed(s, RsRemoved) && Allowed(gone, make) && Allowed(State(None, s.rss), make)
      && var t := Next(spec, gone, make);
      && t.rss == s.rss - {s.status.value.rsUid} + map[uid := spec.min]
      && t.status.Some? && t.status.value.rsUid == uid && t.status.value.desired == spec.min && t.status.value.lastScale == at
  {
  }

  predicate Makes(op: Op) {
    op.Make? && op.created && op.written
  }

  ghost predicate LastMake(ops: seq<Op>, k: int) {
    0 <= k < |ops| && Makes(ops[k]) && forall j :: k < j < |ops| ==> !Makes(ops[j])
  }

  lemma LastOp(spec: Spec, ops: seq<Op>)
    requires Possible(spec, ops) && ops != []
    ensures
      var front, op := ops[..|ops| - 1], ops[|ops| - 1];
      Possible(spec, front) && Allowed(Run(spec, front), op) && Run(spec, ops) == Next(spec, Run(spec, front), op)
  {
    hide Allowed, Next;
    var front := ops[..|ops| - 1];
    assert forall i :: 0 <= i < |front| ==> ops[..i] == front[..i];
  }

  /** Before its first creation the autoscaler has no status. */
  lemma {:induction false} NothingMadeYet(spec: Spec, ops: seq<Op>)
    requires Possible(spec, ops) && forall i :: 0 <= i < |ops| ==> !Makes(ops[i])
    ensures Run(spec, ops).status == None
  {
    if ops != [] {
      LastOp(spec, ops);
      NothingMadeYet(spec, ops[..|ops| - 1]);
      assert !Makes(ops[|ops| - 1]);
    }
  }

  /** In every run its ReplicaSet is the one made last, and that exists exactly while it was not removed since. */
  lemma {:induction false} ReplicaSetExistsIff(spec: Spec, ops: seq<Op>, k: int)
    requires Possible(spec, ops) && LastMake(ops, k)
    ensures
      var s := Run(spec, ops);
      && s.status.Some? && s.status.value.rsUid == ops[k].uid
      && (ops[k].uid in s.rss <==> NotRemovedSince(ops, k))
  {
    var n := |ops| - 1;
    var front, op := ops[..n], ops[n];
    LastOp(spec, ops);
    OpOnReplicaSet(spec, Run(spec, front), op);
    hide Run, Possible, Next, Allowed;
    if k < n {
      LastMakeBefore(ops, k);
      hide Makes, LastMake, NotRemovedSince;
      ReplicaSetExistsIff(spec, front, k);
    }
  }

  ghost predicate NotRemovedSince(ops: seq<Op>, k: int) {
    forall j :: 0 <= k < j < |ops| ==> !ops[j].RsRemoved?
  }

  lemma LastMakeBefore(ops: seq<Op>, k: int)
    requires LastMake(ops, k) && k < |ops| - 1
    ensures
      var front, op := ops[..|ops| - 1], ops[|ops| - 1];
      && LastMake(front, k) && !Makes(op) && front[k] == ops[k]
      && (NotRemovedSince(ops, k) <==> NotRemovedSince(front, k) && !op.RsRemoved?)
  {
    hide Makes;
    var front := ops[..|ops| - 1];
    assert forall j :: 0 <= j < |front| ==> front[j] == ops[j];
  }

  lemma OpOnReplicaSet(spec: Spec, s: State, op: Op)
    requires Allowed(s, op)
    ensures
      Makes(op) ==>
      var t := Next(spec, s, op); t.status.Some? && t.status.value.rsUid == op.uid && op.uid in t.rss
    ensures
      !Makes(op) && s.status.Some? ==>
      var u, t := s.status.value.rsUid, Next(spec, s, op);
      t.status.Some? && t.status.value.rsUid == u && (u in t.rss <==> u in s.rss && !op.RsRemoved?)
  {
    hide ComputeScale, Average, Running;
  }

  predicate InBounds(spec: Spec, s: State) {
    s.status.Some? ==> spec.min <= s.status.value.desired <= spec.max
  }

  /** The ReplicaSet has the desired number. */
  predicate InStep(s: State) {
    s.status.Some? && s.status.value.rsUid in s.rss ==> s.rss[s.status.value.rsUid] == s.status.value.desired
  }

  /** Each change is a reset, or a step of one that keeps its distance from the change before it. */
  predicate Paced(spec: Spec, log: seq<Change>) {
    forall k :: 0 <= k < |log| && !log[k].reset ==>
      && k > 0
      && log[k].decided - log[k - 1].recorded >= Gap(spec)
      && log[k].before == log[k - 1].after
      && (log[k].after == log[k].before + 1 || log[k].after == log[k].before - 1)
  }

  predicate UpToDate(s: State, log: seq<Change>) {
    (s.status.Some? <==> log != [])
    && (s.status.Some? ==>
          var c := log[|log| - 1];
          s.status.value.desired == c.after && s.status.value.lastScale == c.recorded)
  }

  /** What a decision to scale means. */
  lemma ScaleMeans(spec: Spec, s: Status, running: nat, average: Utilization, now: int)
    requires spec.min <= s.desired <= spec.max
    ensures
      match ComputeScale(spec, s, running, average, now)
      case None => true
      case Some(d) =>
        && spec.min <= d <= spec.max && (d == s.desired + 1 || d == s.desired - 1)
        && now - s.lastScale >= Gap(spec) && running == s.desired
  {
  }

  lemma PacedOneMore(spec: Spec, log: seq<Change>, c: Change)
    requires Paced(spec, log)
    requires c.reset || (log != [] && c.decided - log[|log| - 1].recorded >= Gap(spec) && c.before == log[|log| - 1].after
                         && (c.after == c.before + 1 || c.after == c.before - 1))
    ensures Paced(spec, log + [c])
  {
    hide Gap;
    var more := log + [c];
    assert forall k :: 0 <= k < |log| ==> more[k] == log[k];
  }

  lemma CheckIsPaced(spec: Spec, s: State, op: Op, log: seq<Change>)
    requires InBounds(spec, s) && Allowed(s, op) && op.Check?
    requires UpToDate(s, log) && Paced(spec, log)
    ensures InBounds(spec, Next(spec, s, op)) && UpToDate(Next(spec, s, op), log + Added(spec, s, op))
    ensures Paced(spec, log + Added(spec, s, op))
  {
    hide Average, Running, ComputeScale, Gap, Paced;
    ScaleMeans(spec, s.status.value, Running(op.pods), Average(op.pods), op.from);
    var more := Added(spec, s, op);
    if more == [] {
      assert log + [] == log;
    } else {
      assert more == [more[0]] && more[0].before == s.status.value.desired && !more[0].reset;
      PacedOneMore(spec, log, more[0]);
    }
  }

  lemma NoScaling(spec: Spec, s: State, op: Op)
    ensures !op.Check? ==> Scaling(spec, s, op) == None
  {
  }

  lemma OtherIsPaced(spec: Spec, s: State, op: Op, log: seq<Change>)
    requires spec.min <= spec.max && InBounds(spec, s) && Allowed(s, op) && !op.Check?
    requires UpToDate(s, log) && Paced(spec, log)
    ensures InBounds(spec, Next(spec, s, op)) && UpToDate(Next(spec, s, op), log + Added(spec, s, op))
    ensures Paced(spec, log + Added(spec, s, op))
  {
    hide Paced, Scaling, Running, Average;
    if Makes(op) {
      var c := Change(op.at, op.at, 0, spec.min, true);
      assert Added(spec, s, op) == [c];
      PacedOneMore(spec, log, c);
    } else {
      assert Next(spec, s, op).status == s.status;
      assert Scaling(spec, s, op) == None by { NoScaling(spec, s, op); }
      assert Added(spec, s, op) == [] && log + [] == log;
    }
  }

  /** Over every run, failed writes included, the desired number stays in bounds and moves by paced steps of one. */
  lemma {:induction false} RunIsPaced(spec: Spec, ops: seq<Op>)
    requires spec.min <= spec.max && Possible(spec, ops)
    ensures InBounds(spec, Run(spec, ops)) && UpToDate(Run(spec, ops), Changes(spec, ops))
    ensures Paced(spec, Changes(spec, ops))
  {
    if ops != [] {
      var n := |ops| - 1;
      var front, op := ops[..n], ops[n];
      assert forall i :: 0 <= i < n ==> front[..i] == ops[..i];
      RunIsPaced(spec, front);
      hide Next, Added, InBounds, UpToDate, Paced;
      if op.Check? {
        CheckIsPaced(spec, Run(spec, front), op, Changes(spec, front));
      } else {
        OtherIsPaced(spec, Run(spec, front), op, Changes(spec, front));
      }
    }
  }

  /** A step keeps the ReplicaSet in step exactly when it is no scaling whose write to the ReplicaSet fails. */
  lemma NextInStepIff(spec: Spec, s: State, op: Op)
    requires spec.min <= spec.max && InBounds(spec, s) && InStep(s) && Allowed(s, op)
    ensures InStep(Next(spec, s, op)) <==> !(op.Check? && Scaling(spec, s, op).Some? && !op.scaled)
  {
    hide Average, Running, ComputeScale, Gap;
    if op.Check? {
      ScaleMeans(spec, s.status.value, Running(op.pods), Average(op.pods), op.from);
    }
  }

  /** While the writes to the ReplicaSet succeed, the desired number is always the ReplicaSet's. */
  lemma {:induction false} RunIsInStep(spec: Spec, ops: seq<Op>)
    requires spec.min <= spec.max && Possible(spec, ops)
    requires forall i :: 0 <= i < |ops| && ops[i].Check? ==> ops[i].scaled
    ensures InStep(Run(spec, ops))
  {
    if ops != [] {
      var n := |ops| - 1;
      var front, op := ops[..n], ops[n];
      assert forall i :: 0 <= i < n ==> front[..i] == ops[..i];
      RunIsInStep(spec, front);
      RunIsPaced(spec, front);
      hide Next, InBounds, InStep, UpToDate, Paced;
      NextInStepIff(spec, Run(spec, front), op);
    }
  }

  /** Out of step for good: as long as as many pods run as the ReplicaSet wants, no check scales again. */
  lemma OutOfStepSticks(spec: Spec, s: State, op: Op)
    requires op.Check? && s.status.Some? && s.status.value.rsUid in s.rss && !InStep(s)
    requires Running(op.pods) == s.rss[s.status.value.rsUid]
    ensures Next(spec, s, op).rss == s.rss && !InStep(Next(spec, s, op))
    ensures Next(spec, s, op).status.value.desired == s.status.value.desired
  {
    hide Average, Running;
  }

  // ----- Label maps, which several objects share -----

  class LabelMap {
    var m: Labels

    constructor (m: Labels)
      ensures this.m == m
    {
      this.m := m;
    }
  }

  const PARENT := "cubernetes.replicaset.upper.uid"

  datatype AutoScalerObject = AutoScalerObject(uid: string, name: string, labels: LabelMap?, templateLabels: LabelMap?, spec: Spec)

  datatype ReplicaSet = ReplicaSet(name: string, labels: LabelMap, selector: Labels, templateLabels: LabelMap, replicas: Int32)

  /** Nothing is returned when the template has no label map: the code writes into a nil map. */
  method BuildLowerReplicaSet(a: AutoScalerObject) returns (r: Option<ReplicaSet>)
    modifies if a.labels != null then {a.labels} else {}, if a.templateLabels != null then {a.templateLabels} else {}
    ensures r.Some? <==> a.templateLabels != null
    ensures
      r.Some? ==>
      var rs := r.value;
      && rs.replicas == a.spec.min && rs.name == a.name + "_REPLICA_SET"
      && rs.templateLabels == a.templateLabels && (a.labels != null ==> rs.labels == a.labels)
      && rs.selector == map[PARENT := a.uid]
      && Compare.MatchLabelSelector(rs.selector, rs.templateLabels.m)
      && PARENT in rs.labels.m && rs.labels.m[PARENT] == a.uid
      && a.templateLabels.m.Keys == old(a.templateLabels.m.Keys) + {PARENT}
      && forall k :: k in old(a.templateLabels.m) && k != PARENT ==> a.templateLabels.m[k] == old(a.templateLabels.m[k])
  {
    var labels: LabelMap;
    if a.labels == null {
      labels := new LabelMap(map[]);
    } else {
      labels := a.labels;
    }
    labels.m := labels.m[PARENT := a.uid];
    if a.templateLabels == null {
      return None;
    }
    a.templateLabels.m := a.templateLabels.m[PARENT := a.uid];
    r := Some(ReplicaSet(a.name + "_REPLICA_SET", labels, map[PARENT := a.uid], a.templateLabels, Wrap32(a.spec.min)));
  }

  // ----- The controller object, for one autoscaler -----

  datatype Handled = Done | Failed | Panicked

  class Controller {
    const spec: Spec
    var status: Option<Status>
    var rss: map<string, Int32>

    ghost function Abs(): State
      reads this
    {
      State(status, rss)
    }

    constructor (spec: Spec)
      ensures this.spec == spec && Abs() == Run(spec, [])
    {
      this.spec := spec;
      status, rss := None, map[];
    }

    /** Called with the identifier the new ReplicaSet gets; also when the ReplicaSet was removed. */
    method HandleAutoScalerCreate(a: AutoScalerObject, uid: string, now: int, created: bool, written: bool)
      returns (outcome: Handled)
      requires a.spec == spec
      modifies this`status, this`rss
      modifies if a.labels != null then {a.labels} else {}, if a.templateLabels != null then {a.templateLabels} else {}
      ensures outcome == if a.templateLabels == null then Panicked else if created && written then Done else Failed
      ensures Abs() == if outcome == Panicked then old(Abs()) else Next(spec, old(Abs()), Make(uid, now, created, written))
      ensures outcome != Panicked ==> PARENT in a.templateLabels.m && a.templateLabels.m[PARENT] == a.uid
    {
      var lower := BuildLowerReplicaSet(a);
      if lower.None? {
        return Panicked;
      }
      if !created {
        return Failed;
      }
      var rs := lower.value;
      rss := rss[uid := rs.replicas];
      if !written {
        return Failed;
      }
      status := Some(Status(now, uid, rs.replicas, 0, Utilization(0.0, 0)));
      outcome := Done;
    }

    method CheckAndUpdateAutoScalerStatus(currentPods: seq<Usage>, now: int, later: int, scaled: bool)
      requires status.Some?
      modifies this`status, this`rss
      ensures Abs() == Next(spec, old(Abs()), Check(currentPods, now, later, scaled))
    {
      var runningCount, totalCPU, totalMemory := 0, 0.0, 0;
      for k := 0 to |currentPods|
        invariant runningCount == Running(currentPods[..k])
        invariant totalCPU == TotalCpu(currentPods[..k]) && totalMemory == TotalMemory(currentPods[..k])
      {
        assert currentPods[..k + 1][..k] == currentPods[..k];
        var pod := currentPods[k];
        if pod.running {
          runningCount := runningCount + 1;
          totalCPU := totalCPU + pod.cpu;
          totalMemory := totalMemory + pod.memory;
        }
      }
      assert currentPods[..|currentPods|] == currentPods;
      var s := status.value;
      s := s.(actual := runningCount);
      if runningCount > 0 {
        s := s.(average := Utilization(totalCPU / runningCount as real, Quo(totalMemory, runningCount)));
      } else {
        s := s.(average := Utilization(0.0, 0));
      }
      var scale := ComputeScale(spec, s, runningCount, s.average, now);
      if scale.Some? && s.rsUid in rss {
        if scaled {
          rss := rss[s.rsUid := Wrap32(scale.value)];
        }
        s := s.(desired := scale.value, lastScale := later);
      }
      status := Some(s);
    }
  }
}
