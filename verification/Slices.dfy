/** Sequences without repeats and removal from them, and the slice helpers of pkg/controllermanager/utils/utils.go. */
module Slices {

  predicate NoRepeats<T(==)>(s: seq<T>) {
    forall i, j :: 0 <= i < j < |s| ==> s[i] != s[j]
  }

  /** The first occurrence of each element, in order. */
  function Dedup(s: seq<string>): seq<string> {
    if s == [] then []
    else
      var front, last := Dedup(s[..|s| - 1]), s[|s| - 1];
      if last in front then front else front + [last]
  }

  function FirstIndex(s: seq<string>, x: string): nat
    requires x in s
  {
    if s[0] == x then 0 else 1 + FirstIndex(s[1..], x)
  }

  function RemoveFirst<T(==)>(s: seq<T>, x: T): seq<T> {
    if s == [] then []
    else if s[0] == x then s[1..]
    else [s[0]] + RemoveFirst(s[1..], x)
  }

  /** The elements whose index is not among the removed ones. */
  function Without(s: seq<string>, removed: seq<int>): seq<string> {
    if s == [] then []
    else if |s| - 1 in removed then Without(s[..|s| - 1], removed)
    else Without(s[..|s| - 1], removed) + [s[|s| - 1]]
  }

  lemma {:induction false} DedupIsSet(s: seq<string>)
    ensures NoRepeats(Dedup(s))
    ensures forall x :: x in Dedup(s) <==> x in s
  {
    if s != [] {
      DedupIsSet(s[..|s| - 1]);
      assert s == s[..|s| - 1] + [s[|s| - 1]];
    }
  }

  lemma {:induction false} FirstIndexOfPrefix(s: seq<string>, last: string, x: string)
    requires x in s
    ensures FirstIndex(s + [last], x) == FirstIndex(s, x) < |s|
  {
    if s[0] != x {
      assert (s + [last])[1..] == s[1..] + [last];
      FirstIndexOfPrefix(s[1..], last, x);
    }
  }

  lemma {:induction false} FirstIndexOfLast(s: seq<string>, last: string)
    requires last !in s
    ensures FirstIndex(s + [last], last) == |s|
  {
    if s != [] {
      assert (s + [last])[1..] == s[1..] + [last];
      FirstIndexOfLast(s[1..], last);
    }
  }

  /** Deduplication keeps the order of first occurrences. */
  lemma {:induction false} DedupKeepsOrder(s: seq<string>, i: nat, j: nat)
    requires i < j < |Dedup(s)|
    ensures Dedup(s)[i] in s && Dedup(s)[j] in s
    ensures FirstIndex(s, Dedup(s)[i]) < FirstIndex(s, Dedup(s)[j])
  {
    DedupIsSet(s);
    var t, last := s[..|s| - 1], s[|s| - 1];
    assert s == t + [last];
    DedupIsSet(t);
    FirstIndexOfPrefix(t, last, Dedup(s)[i]);
    if j < |Dedup(t)| {
      DedupKeepsOrder(t, i, j);
      FirstIndexOfPrefix(t, last, Dedup(s)[j]);
    } else {
      FirstIndexOfLast(t, last);
    }
  }

  /** The method's loop index `j` never passes the element being read. */
  method RemoveDuplication(arr: array<string>) returns (j: nat)
    modifies arr
    ensures j <= arr.Length
    ensures arr[..j] == Dedup(old(arr[..]))
    ensures arr[j..] == old(arr[j..])
  {
    var seen := {};
    j := 0;
    for i := 0 to arr.Length
      invariant j <= i
      invariant arr[..j] == Dedup(old(arr[..])[..i])
      invariant arr[j..] == old(arr[..])[j..]
      invariant forall x :: x in seen <==> x in arr[..j]
    {
      ghost var s := old(arr[..]);
      assert s[..i + 1][..i] == s[..i] && arr[i] == s[i];
      var v := arr[i];
      if v !in seen {
        seen := seen + {v};
        arr[j] := v;
        j := j + 1;
      }
    }
    assert old(arr[..])[..arr.Length] == old(arr[..]);
  }

  predicate Ascending(s: seq<int>) {
    forall i, j :: 0 <= i < j < |s| ==> s[i] < s[j]
  }

  /** The first m indices ascend and are indices of the list, and the next one does not go on like that. */
  ghost predicate Usable(length: nat, toRemove: seq<int>, m: nat) {
    && m <= |toRemove| && Ascending(toRemove[..m]) && (forall i :: 0 <= i < m ==> 0 <= toRemove[i] < length)
    && (m < |toRemove| ==> toRemove[m] >= length || toRemove[m] < 0 || (m > 0 && toRemove[m] <= toRemove[m - 1]))
  }

  /** Whatever the indices are: those before the first one out of order are removed. */
  method RemoveMultiIndex(orig: seq<string>, toRemove: seq<int>) returns (result: seq<string>)
    ensures exists m: nat :: Usable(|orig|, toRemove, m) && result == Without(orig, toRemove[..m])
    ensures Ascending(toRemove) && (forall k :: k in toRemove ==> 0 <= k) ==> result == Without(orig, toRemove)
  {
    result := [];
    var rest := toRemove;
    ghost var r := 0;
    for idx := 0 to |orig|
      invariant r <= |toRemove| && rest == toRemove[r..]
      invariant Usable(idx, toRemove, r)
      invariant result == Without(orig[..idx], toRemove[..r])
    {
      assert orig[..idx + 1][..idx] == orig[..idx];
      if |rest| > 0 && rest[0] == idx {
        OneMoreUsed(orig[..idx], toRemove, r);
        rest := rest[1..];
        r := r + 1;
      } else {
        NotAmong(toRemove, r, idx);
        result := result + [orig[idx]];
      }
    }
    assert orig[..|orig|] == orig;
    UsableIsAll(orig, toRemove, r);
  }

  lemma NotAmong(toRemove: seq<int>, r: nat, idx: nat)
    requires Usable(idx, toRemove, r) && (r < |toRemove| ==> toRemove[r] != idx)
    ensures idx !in toRemove[..r] && Usable(idx + 1, toRemove, r)
  {
  }

  lemma OneMoreUsed(front: seq<string>, toRemove: seq<int>, r: nat)
    requires Usable(|front|, toRemove, r) && r < |toRemove| && toRemove[r] == |front|
    ensures Usable(|front| + 1, toRemove, r + 1) && |front| in toRemove[..r + 1]
    ensures Without(front, toRemove[..r + 1]) == Without(front, toRemove[..r])
  {
    assert toRemove[..r + 1] == toRemove[..r] + [toRemove[r]];
    SameWithout(front, toRemove[..r], toRemove[..r + 1]);
  }

  /** Indices past the end make no difference. */
  lemma {:induction false} SameWithout(s: seq<string>, a: seq<int>, b: seq<int>)
    requires forall k :: 0 <= k < |s| ==> (k in a <==> k in b)
    ensures Without(s, a) == Without(s, b)
  {
    if s != [] { SameWithout(s[..|s| - 1], a, b); }
  }

  lemma UsableIsAll(orig: seq<string>, toRemove: seq<int>, m: nat)
    requires Usable(|orig|, toRemove, m)
    ensures Ascending(toRemove) && (forall k :: k in toRemove ==> 0 <= k) ==> Without(orig, toRemove[..m]) == Without(orig, toRemove)
  {
    if Ascending(toRemove) && (forall k :: k in toRemove ==> 0 <= k) {
      assert m < |toRemove| ==> toRemove[m] in toRemove;
      forall i | m <= i < |toRemove| ensures toRemove[i] >= |orig| {
        assert i > m ==> toRemove[m] < toRemove[i];
      }
      SameWithout(orig, toRemove[..m], toRemove);
    }
  }

  lemma {:induction false} RemoveFirstCounts<T>(s: seq<T>, x: T)
    ensures multiset(RemoveFirst(s, x)) == multiset(s) - multiset{x}
  {
    if s != [] {
      assert s == [s[0]] + s[1..];
      if s[0] != x {
        RemoveFirstCounts(s[1..], x);
      }
    }
  }

  lemma RemoveFirstSize<T>(s: seq<T>, x: T)
    requires x in s
    ensures |RemoveFirst(s, x)| == |s| - 1
  {
    RemoveFirstCounts(s, x);
    assert |multiset(s)| == |s| && |multiset(RemoveFirst(s, x))| == |RemoveFirst(s, x)|;
  }

  lemma DistinctConcat<T>(a: seq<T>, b: seq<T>)
    requires NoRepeats(a) && NoRepeats(b) && forall x :: x in a ==> x !in b
    ensures NoRepeats(a + b)
  {
    forall i, j | 0 <= i < j < |a + b|
      ensures (a + b)[i] != (a + b)[j]
    {
      if i < |a| <= j {
        assert a[i] in a && b[j - |a|] in b;
      }
    }
  }

  lemma {:induction false} RemoveFirstOfDistinct(s: seq<string>, x: string)
    requires NoRepeats(s)
    ensures NoRepeats(RemoveFirst(s, x))
    ensures forall u :: u in RemoveFirst(s, x) <==> u in s && u != x
  {
    if s != [] && s[0] != x {
      RemoveFirstOfDistinct(s[1..], x);
      assert s == [s[0]] + s[1..];
      DistinctConcat([s[0]], RemoveFirst(s[1..], x));
    }
  }

  lemma {:induction false} RemoveFirstIsPart(s: seq<string>, x: string)
    ensures forall u :: u in RemoveFirst(s, x) ==> u in s
  {
    if s != [] && s[0] != x {
      RemoveFirstIsPart(s[1..], x);
    }
  }

  lemma {:induction false} SpliceIsRemoveFirst(list: seq<string>, idx: nat)
    requires idx < |list| && list[idx] !in list[..idx]
    ensures list[..idx] + list[idx + 1..] == RemoveFirst(list, list[idx])
  {
    if idx > 0 {
      var rest := list[1..];
      assert rest[..idx - 1] == list[..idx][1..] && rest[idx - 1..][1..] == list[idx + 1..];
      assert list[0] in list[..idx];
      SpliceIsRemoveFirst(rest, idx - 1);
      assert list[..idx] + list[idx + 1..] == [list[0]] + (rest[..idx - 1] + rest[idx..]);
    }
  }

  lemma {:induction false} AbsentIsNotRemoved<T>(list: seq<T>, x: T)
    requires x !in list
    ensures RemoveFirst(list, x) == list
  {
    if list != [] {
      AbsentIsNotRemoved(list[1..], x);
      assert list == [list[0]] + list[1..];
    }
  }

  function Elements(s: seq<string>): set<string> {
    set x | x in s
  }

  lemma {:induction false} SizeOfDistinct(s: seq<string>)
    requires NoRepeats(s)
    ensures |Elements(s)| == |s|
  {
    if s != [] {
      SizeOfDistinct(s[1..]);
      assert Elements(s) == {s[0]} + Elements(s[1..]);
    }
  }

  /** Taking the first k of distinct elements leaves the others. */
  lemma SplitDistinct(s: seq<string>, k: nat)
    requires NoRepeats(s) && k <= |s|
    ensures Elements(s) - Elements(s[..k]) == Elements(s[k..]) && |Elements(s[k..])| == |s| - k
    ensures |Elements(s)| == |s|
  {
    SizeOfDistinct(s);
    SizeOfDistinct(s[k..]);
    assert s == s[..k] + s[k..];
  }
}
