/** Counting a pod's entries in a running list, event by event, against the life its events describe. */
module EventCounts {
  import opened PodInformer

  /** What one event does to the number of times a matching pod is in the running list. */
  function Bump(m: nat, kind: Kind): nat {
    match kind
    case PodCreate => m + 1
    case PodUpdate => if m == 0 then 1 else m
    case PodKilled => if m == 0 then 0 else m - 1
  }

  function Tally(m: nat, events: seq<Event>, uid: string): nat
    decreases |events|
  {
    if events == [] then m
    else Tally(if events[0].uid == uid then Bump(m, events[0].kind) else m, events[1..], uid)
  }

  lemma {:induction false} TallyAppend(m: nat, events: seq<Event>, e: Event, uid: string)
    ensures Tally(m, events + [e], uid)
      == var before := Tally(m, events, uid); if e.uid == uid then Bump(before, e.kind) else before
    decreases |events|
  {
    if events == [] {
      assert events + [e] == [e];
    } else {
      assert (events + [e])[1..] == events[1..] + [e];
      TallyAppend(if events[0].uid == uid then Bump(m, events[0].kind) else m, events[1..], e, uid);
    }
  }

  function Indicator(b: bool): nat { if b then 1 else 0 }

  function LifeFrom(life: Life, events: seq<Event>, uid: string): Life
    decreases |events|
  {
    if events == [] then life
    else LifeFrom(if events[0].uid == uid then Lives(life, events[0].kind) else life, events[1..], uid)
  }

  lemma {:induction false} LifeFromAppend(life: Life, events: seq<Event>, e: Event, uid: string)
    ensures LifeFrom(life, events + [e], uid)
      == if e.uid == uid then Lives(LifeFrom(life, events, uid), e.kind) else LifeFrom(life, events, uid)
    decreases |events|
  {
    if events == [] {
      assert events + [e] == [e];
    } else {
      assert (events + [e])[1..] == events[1..] + [e];
      LifeFromAppend(if events[0].uid == uid then Lives(life, events[0].kind) else life, events[1..], e, uid);
    }
  }

  lemma {:induction false} LifeSplits(handled: seq<Event>, queue: seq<Event>, uid: string)
    ensures LifeOf(handled + queue, uid) == LifeFrom(LifeOf(handled, uid), queue, uid)
    decreases |queue|
  {
    if queue == [] {
      assert handled + queue == handled;
    } else {
      var front, last := queue[..|queue| - 1], queue[|queue| - 1];
      assert queue == front + [last] && handled + queue == (handled + front) + [last];
      LifeAfter(handled + front, [last], uid);
      LifeSplits(handled, front, uid);
      LifeFromAppend(LifeOf(handled, uid), front, last, uid);
    }
  }

  predicate Mentions(events: seq<Event>, uid: string) {
    exists i :: 0 <= i < |events| && events[i].uid == uid
  }

  lemma MentionsSplits(events: seq<Event>, uid: string)
    requires events != []
    ensures Mentions(events, uid) <==> events[0].uid == uid || Mentions(events[1..], uid)
    ensures Mentions(events, uid) <==> events[|events| - 1].uid == uid || Mentions(events[..|events| - 1], uid)
  {
    var rest, front := events[1..], events[..|events| - 1];
    forall i | 0 <= i < |events| && events[i].uid == uid
      ensures events[0].uid == uid || Mentions(rest, uid)
      ensures events[|events| - 1].uid == uid || Mentions(front, uid)
    {
      assert i > 0 ==> rest[i - 1].uid == uid;
      assert i < |front| ==> front[i].uid == uid;
    }
    if i :| 0 <= i < |rest| && rest[i].uid == uid {
      assert events[i + 1].uid == uid;
    }
  }

  /** The first queued event of the pod is a create. */
  predicate BeginsWithCreate(events: seq<Event>, uid: string)
    decreases |events|
  {
    events != [] && if events[0].uid == uid then events[0].kind == PodCreate else BeginsWithCreate(events[1..], uid)
  }

  /** The last queued event of the pod is a create or an update. */
  predicate EndsRunning(events: seq<Event>, uid: string) {
    events != [] &&
    var last := events[|events| - 1];
    if last.uid == uid then last.kind != PodKilled else EndsRunning(events[..|events| - 1], uid)
  }

  lemma {:induction false} ConfusedForGood(events: seq<Event>, uid: string)
    ensures LifeFrom(Confused, events, uid) == Confused
    decreases |events|
  {
    if events != [] {
      ConfusedForGood(events[1..], uid);
    }
  }

  /** A count that agrees with the pod's life, or is ahead of it by d, stays so. */
  lemma {:induction false} TallyFollows(life: Life, d: nat, events: seq<Event>, uid: string)
    requires life != Confused && LifeFrom(life, events, uid) != Confused
    ensures Tally(Indicator(life == Alive) + d, events, uid) == Indicator(LifeFrom(life, events, uid) == Alive) + d
    decreases |events|
  {
    if events != [] {
      var next := if events[0].uid == uid then Lives(life, events[0].kind) else life;
      if next == Confused {
        ConfusedForGood(events[1..], uid);
      }
      TallyFollows(next, d, events[1..], uid);
    }
  }

  /** A live pod that is not listed gets listed by its first update, and its killing does no harm. */
  lemma {:induction false} TallyCatchesUp(events: seq<Event>, uid: string)
    requires LifeFrom(Alive, events, uid) != Confused
    ensures Tally(0, events, uid) == Indicator(Mentions(events, uid) && LifeFrom(Alive, events, uid) == Alive)
    decreases |events|
  {
    if events != [] {
      var rest := events[1..];
      if events[0].uid == uid {
        if events[0].kind == PodCreate {
          ConfusedForGood(rest, uid);
        }
        TallyFollows(Lives(Alive, events[0].kind), 0, rest, uid);
        assert Mentions(events, uid);
      } else {
        TallyCatchesUp(rest, uid);
        MentionsSplits(events, uid);
      }
    }
  }

  lemma {:induction false} BeginsIffDead(life: Life, events: seq<Event>, uid: string)
    requires life != Confused && LifeFrom(life, events, uid) != Confused
    ensures BeginsWithCreate(events, uid) <==> Mentions(events, uid) && life == Dead
    decreases |events|
  {
    if events != [] {
      var rest := events[1..];
      if events[0].uid == uid {
        if Lives(life, events[0].kind) == Confused {
          ConfusedForGood(rest, uid);
        }
        assert Mentions(events, uid);
      } else {
        BeginsIffDead(life, rest, uid);
        MentionsSplits(events, uid);
      }
    }
  }

  lemma {:induction false} EndsIffAlive(life: Life, events: seq<Event>, uid: string)
    requires LifeFrom(life, events, uid) != Confused
    ensures EndsRunning(events, uid) <==> Mentions(events, uid) && LifeFrom(life, events, uid) == Alive
    decreases |events|
  {
    if events != [] {
      var front, last := events[..|events| - 1], events[|events| - 1];
      assert events == front + [last];
      LifeFromAppend(life, front, last, uid);
      if last.uid == uid {
        assert Mentions(events, uid);
      } else {
        EndsIffAlive(life, front, uid);
        MentionsSplits(events, uid);
      }
    }
  }

  lemma {:induction false} NotMentioned(life: Life, events: seq<Event>, uid: string)
    ensures !Mentions(events, uid) ==> LifeFrom(life, events, uid) == life
    decreases |events|
  {
    if events != [] {
      MentionsSplits(events, uid);
      if events[0].uid != uid {
        NotMentioned(life, events[1..], uid);
      }
    }
  }
}
