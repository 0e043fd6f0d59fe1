/**
  The sliding-window counter (pkg/tsdb/tsdb.go): per name a sorted list of timestamps, evicted from
  the front. Its window is one second, whatever QueryLastMinute is called.
 */
module Tsdb {

  const SECOND := 1000

  predicate Sorted(s: seq<int>) {
    forall i, j :: 0 <= i < j < |s| ==> s[i] <= s[j]
  }

  predicate Recent(ms: int, now: int) {
    now - ms <= SECOND
  }

  // ----- What the loops compute -----

  function Evict(s: seq<int>, now: int): seq<int> {
    if s == [] || Recent(s[0], now) then s else Evict(s[1..], now)
  }

  /** After the last element not above ms, or in front of all. */
  function InsertSorted(s: seq<int>, ms: int): seq<int> {
    if s == [] || s[|s| - 1] <= ms then s + [ms]
    else InsertSorted(s[..|s| - 1], ms) + [s[|s| - 1]]
  }

  // ----- The history it stands for -----

  /** Timestamps ever inserted that are at most a second old: the count the query promises. */
  function CountRecent(history: seq<int>, now: int): nat {
    if history == [] then 0
    else CountRecent(history[..|history| - 1], now) + if now - history[|history| - 1] <= 1000 then 1 else 0
  }

  /** The recent ones of a history, in insertion order. */
  function RecentOf(history: seq<int>, now: int): seq<int> {
    if history == [] then []
    else
      var front, last := RecentOf(history[..|history| - 1], now), history[|history| - 1];
      if Recent(last, now) then front + [last] else front
  }

  /** A sorted list, complete for every timestamp still recent at `last`, and holding no other. */
  ghost predicate Represents(s: seq<int>, history: seq<int>, last: int) {
    && Sorted(s)
    && (forall ms :: Times(s, ms) <= Times(history, ms))
    && (forall ms :: Recent(ms, last) ==> Times(s, ms) == Times(history, ms))
  }

  /** How often a timestamp occurs. */
  function Times(s: seq<int>, ms: int): nat {
    multiset(s)[ms]
  }

  lemma TimesAppend(s: seq<int>, x: int, ms: int)
    ensures Times(s + [x], ms) == Times(s, ms) + if x == ms then 1 else 0
  {
    assert multiset(s + [x]) == multiset(s) + multiset{x};
  }

  lemma TimesTail(s: seq<int>, ms: int)
    requires s != []
    ensures Times(s, ms) == Times(s[1..], ms) + if s[0] == ms then 1 else 0
  {
    assert s == [s[0]] + s[1..];
  }

  lemma SameTimesSameSize(a: seq<int>, b: seq<int>)
    requires forall ms :: Times(a, ms) == Times(b, ms)
    ensures |a| == |b|
  {
    forall ms
      ensures multiset(a)[ms] == multiset(b)[ms]
    {
      assert Times(a, ms) == Times(b, ms);
    }
    assert multiset(a) == multiset(b);
    assert |multiset(a)| == |a| && |multiset(b)| == |b|;
  }

  lemma TimesIsMembership(s: seq<int>, ms: int)
    ensures Times(s, ms) > 0 <==> ms in s
  {
    assert ms in s <==> ms in multiset(s);
  }

  lemma {:induction false} EvictKeeps(s: seq<int>, now: int, ms: int)
    requires Sorted(s)
    ensures Sorted(Evict(s, now))
    ensures Times(Evict(s, now), ms) == if Recent(ms, now) then Times(s, ms) else 0
  {
    hide Times;
    TimesIsMembership(s, ms);
    if s != [] && !Recent(s[0], now) {
      TimesTail(s, ms);
      EvictKeeps(s[1..], now, ms);
    }
  }

  lemma SortedSnoc(s: seq<int>, last: int)
    requires Sorted(s) && forall x :: x in s ==> x <= last
    ensures Sorted(s + [last])
  {
    forall i, j | 0 <= i < j < |s + [last]|
      ensures (s + [last])[i] <= (s + [last])[j]
    {
      assert s[i] in s;
    }
  }

  lemma {:induction false} InsertSortedKeeps(s: seq<int>, ms: int, x: int)
    requires Sorted(s)
    ensures Times(InsertSorted(s, ms), x) == Times(s, x) + if x == ms then 1 else 0
  {
    hide Times;
    if s == [] || s[|s| - 1] <= ms {
      TimesAppend(s, ms, x);
    } else {
      var front, last := s[..|s| - 1], s[|s| - 1];
      assert s == front + [last];
      InsertSortedKeeps(front, ms, x);
      TimesAppend(front, last, x);
      TimesAppend(InsertSorted(front, ms), last, x);
    }
  }

  lemma {:induction false} InsertStaysSorted(s: seq<int>, ms: int)
    requires Sorted(s)
    ensures Sorted(InsertSorted(s, ms))
    ensures forall x :: x in InsertSorted(s, ms) ==> x in s || x == ms
  {
    if s == [] || s[|s| - 1] <= ms {
      SortedSnoc(s, ms);
    } else {
      var front, last := s[..|s| - 1], s[|s| - 1];
      assert s == front + [last];
      InsertStaysSorted(front, ms);
      SortedSnoc(InsertSorted(front, ms), last);
    }
  }

  lemma {:induction false} RecentOfCounts(history: seq<int>, now: int, ms: int)
    ensures |RecentOf(history, now)| == CountRecent(history, now)
    ensures Times(RecentOf(history, now), ms) == if Recent(ms, now) then Times(history, ms) else 0
  {
    if history != [] {
      var front, last := history[..|history| - 1], history[|history| - 1];
      RecentOfCounts(front, now, ms);
      assert history == front + [last];
      TimesAppend(front, last, ms);
      TimesAppend(RecentOf(front, now), last, ms);
    }
  }

  /** What is left after eviction is what the query counts. */
  lemma EvictedIsCount(s: seq<int>, history: seq<int>, last: int, now: int)
    requires Represents(s, history, last) && last <= now
    ensures Represents(Evict(s, now), history, now)
    ensures |Evict(s, now)| == CountRecent(history, now)
  {
    hide Times;
    forall ms
      ensures Sorted(Evict(s, now))
      ensures Times(Evict(s, now), ms) == if Recent(ms, now) then Times(history, ms) else 0
      ensures Times(RecentOf(history, now), ms) == Times(Evict(s, now), ms)
      ensures |RecentOf(history, now)| == CountRecent(history, now)
    {
      EvictKeeps(s, now, ms);
      RecentOfCounts(history, now, ms);
    }
    SameTimesSameSize(Evict(s, now), RecentOf(history, now));
  }

  lemma InsertRepresents(s: seq<int>, history: seq<int>, last: int, ms: int)
    requires Represents(s, history, last)
    ensures Represents(InsertSorted(s, ms), history + [ms], last)
  {
    hide Times;
    InsertStaysSorted(s, ms);
    forall x
      ensures Times(InsertSorted(s, ms), x) == Times(s, x) + if x == ms then 1 else 0
      ensures Times(history + [ms], x) == Times(history, x) + if x == ms then 1 else 0
    {
      InsertSortedKeeps(s, ms, x);
      TimesAppend(history, ms, x);
    }
  }

  // ----- Whole runs -----

  type Db = map<string, seq<int>>

  datatype Op = Insert(now: int, ms: int, name: string) | Query(at: int, of: string)

  function Time(op: Op): int {
    if op.Insert? then op.now else op.at
  }

  function Name(op: Op): string {
    if op.Insert? then op.name else op.of
  }

  function Series(db: Db, name: string): seq<int> {
    if name in db then db[name] else []
  }

  function Apply(db: Db, op: Op): Db {
    match op
    case Insert(now, ms, name) => db[name := InsertSorted(Evict(Series(db, name), now), ms)]
    case Query(at, of) => if of in db then db[of := Evict(db[of], at)] else db
  }

  function Answer(db: Db, name: string, now: int): nat {
    |Evict(Series(db, name), now)|
  }

  function Run(ops: seq<Op>): Db {
    if ops == [] then map[] else Apply(Run(ops[..|ops| - 1]), ops[|ops| - 1])
  }

  /** Everything a run inserted under a name. */
  function History(ops: seq<Op>, name: string): seq<int> {
    if ops == [] then []
    else
      var last := ops[|ops| - 1];
      History(ops[..|ops| - 1], name) + if last.Insert? && last.name == name then [last.ms] else []
  }

  predicate Monotone(ops: seq<Op>, now: int) {
    (forall i, j :: 0 <= i < j < |ops| ==> Time(ops[i]) <= Time(ops[j]))
    && forall i :: 0 <= i < |ops| ==> Time(ops[i]) <= now
  }

  lemma OlderStillRepresents(s: seq<int>, history: seq<int>, last: int, now: int)
    requires Represents(s, history, last) && last <= now
    ensures Represents(s, history, now)
  {
  }

  lemma {:induction false} RunRepresents(ops: seq<Op>, now: int, name: string)
    requires Monotone(ops, now)
    ensures Represents(Series(Run(ops), name), History(ops, name), now)
  {
    if ops != [] {
      var front, op := ops[..|ops| - 1], ops[|ops| - 1];
      var s, h, t := Series(Run(front), name), History(front, name), Time(op);
      RunRepresents(front, t, name);
      if Name(op) == name {
        EvictedIsCount(s, h, t, t);
        if op.Insert? {
          InsertRepresents(Evict(s, t), h, t, op.ms);
        }
        assert op.Query? ==> h + [] == h;
      } else {
        assert h + [] == h;
      }
      OlderStillRepresents(Series(Run(ops), name), History(ops, name), t, now);
    }
  }

  /** In any run on a non-decreasing clock a query counts all recent insertions under its name. */
  lemma QueryCountsHistory(ops: seq<Op>, now: int, name: string)
    requires Monotone(ops, now)
    ensures Sorted(Series(Run(ops), name))
    ensures Answer(Run(ops), name, now) == CountRecent(History(ops, name), now)
  {
    RunRepresents(ops, now, name);
    EvictedIsCount(Series(Run(ops), name), History(ops, name), now, now);
  }

  lemma EvictedAreRecent(s: seq<int>, now: int)
    requires Sorted(s)
    ensures Sorted(Evict(s, now)) && forall ms :: ms in Evict(s, now) ==> now - ms <= 1000
  {
    EvictKeeps(s, now, now);
    forall ms | ms in Evict(s, now)
      ensures now - ms <= 1000
    {
      EvictKeeps(s, now, ms);
      TimesIsMembership(Evict(s, now), ms);
    }
  }

  /** Every operation leaves its series without old timestamps, and the other series alone. */
  lemma LeavesRecent(ops: seq<Op>, op: Op, name: string)
    requires Monotone(ops, Time(op))
    ensures
      var before, after := Series(Run(ops), name), Series(Run(ops + [op]), name);
      if Name(op) == name then forall ms :: ms in after ==> Time(op) - ms <= 1000 || (op.Insert? && ms == op.ms)
      else after == before
  {
    assert (ops + [op])[..|ops|] == ops;
    RunRepresents(ops, Time(op), name);
    var s := Series(Run(ops), name);
    EvictedAreRecent(s, Time(op));
    hide Represents, Monotone, Evict, Sorted;
    if op.Insert? {
      InsertStaysSorted(Evict(s, op.now), op.ms);
    }
  }

  // ----- The store -----

  class TimeSeries {
    var series: seq<int>

    constructor ()
      ensures series == []
    {
      series := [];
    }

    method EvictFront(curTime: int)
      modifies this
      ensures series == Evict(old(series), curTime)
    {
      while |series| > 0 && curTime - series[0] > SECOND
        invariant Evict(series, curTime) == Evict(old(series), curTime)
        decreases |series|
      {
        series := series[1..];
      }
    }

    /** Walks from the back to the first element not above ms. */
    method Add(ms: int)
      modifies this
      ensures series == InsertSorted(old(series), ms)
    {
      if |series| == 0 {
        series := [ms];
        return;
      }
      var it := |series| - 1;
      assert series[..it + 1] == series && InsertSorted(series, ms) + [] == InsertSorted(series, ms);
      while true
        invariant 0 <= it < |series| && series == old(series)
        invariant InsertSorted(series, ms) == InsertSorted(series[..it + 1], ms) + series[it + 1..]
        decreases it
      {
        assert series[..it + 1][..it] == series[..it];
        if series[it] <= ms {
          series := series[..it + 1] + [ms] + series[it + 1..];
          break;
        }
        assert [series[it]] + series[it + 1..] == series[it..];
        if it == 0 {
          series := [ms] + series;
          break;
        }
        it := it - 1;
      }
    }
  }

  class Store {
    var db: map<string, TimeSeries>

    /** No two names share a series. */
    ghost predicate Valid()
      reads this
    {
      forall m, n :: m in db && n in db && m != n ==> db[m] != db[n]
    }

    ghost function Abs(): Db
      reads this, db.Values
    {
      map n | n in db :: db[n].series
    }

    constructor ()
      ensures Valid() && Abs() == map[] && fresh(this)
    {
      db := map[];
    }

    method InsertMs(ms: int, name: string, curTime: int)
      requires Valid()
      modifies this, db.Values
      ensures Valid() && Abs() == Apply(old(Abs()), Insert(curTime, ms, name))
    {
      if name !in db {
        var ts := new TimeSeries();
        db := db[name := ts];
      }
      var ts := db[name];
      ts.EvictFront(curTime);
      ts.Add(ms);
    }

    method QueryLastMinute(name: string, curTime: int) returns (stat: nat)
      requires Valid()
      modifies db.Values
      ensures Valid() && Abs() == Apply(old(Abs()), Query(curTime, name))
      ensures stat == Answer(old(Abs()), name, curTime)
    {
      if name !in db {
        return 0;
      }
      db[name].EvictFront(curTime);
      stat := |db[name].series|;
    }
  }
}
