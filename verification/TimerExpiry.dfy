/** `getExpired`: which timers one poll collects, and what it leaves behind.

    One round of the collecting loop takes the root out and, for a periodic
    timer, pushes it back one interval later.  `Collect` repeats rounds until the
    root is not before `now`. */
module TimerExpiry {
  import opened TimerHeap

  predicate Due(e: Entry, now: int) {
    e.ts < now
  }

  /** The loop guard of `getExpired`. */
  predicate RootDue(s: seq<Entry>, now: int) {
    |s| > 0 && Due(s[0], now)
  }

  function Reschedule(e: Entry): Entry {
    e.(ts := e.ts + e.interval)
  }

  /** One iteration of the collecting loop; the collected entry is `s[0]`. */
  function Round(s: seq<Entry>): seq<Entry>
    requires |s| > 0
  {
    if s[0].interval != 0 then Push(Pop(s), Reschedule(s[0])) else Pop(s)
  }

  lemma RoundAgain(s: seq<Entry>, next: Entry)
    requires |s| > 0 && s[0].interval != 0 && next == s[0].(ts := s[0].ts + s[0].interval)
    ensures Round(s) == Push(Pop(s), next)
  {
    hide Push, Pop;
  }

  lemma RoundOnce(s: seq<Entry>)
    requires |s| > 0 && s[0].interval == 0
    ensures Round(s) == Pop(s)
  {
    hide Push, Pop;
  }

  /** Exactly the root changes: it leaves, or its next instant takes its place. */
  lemma RoundEntries(s: seq<Entry>)
    requires |s| > 0
    ensures multiset(Round(s)) == multiset(s) - multiset{s[0]}
                                  + if s[0].interval != 0 then multiset{Reschedule(s[0])} else multiset{}
  {
    hide Push, Pop;
  }

  /** No timer that is already due has a negative interval. */
  ghost predicate Settles(s: seq<Entry>, now: int) {
    forall e :: e in s && Due(e, now) ==> e.interval >= 0
  }

  // ---------- termination ----------

  function Weight(e: Entry, now: int): nat {
    if Due(e, now) then now - e.ts else 0
  }

  /** How late the pending timers are altogether. */
  ghost function Lateness(s: seq<Entry>, now: int): nat {
    if s == [] then 0 else Weight(s[0], now) + Lateness(s[1..], now)
  }

  lemma {:induction false} LatenessOfUpdate(s: seq<Entry>, i: nat, e: Entry, now: int)
    requires i < |s|
    ensures Lateness(s[i := e], now) == Lateness(s, now) - Weight(s[i], now) + Weight(e, now)
  {
    if i > 0 {
      LatenessOfUpdate(s[1..], i - 1, e, now);
      assert s[i := e][1..] == s[1..][i - 1 := e];
    } else {
      assert s[0 := e][1..] == s[1..];
    }
  }

  lemma {:induction false} LatenessOfAppend(s: seq<Entry>, e: Entry, now: int)
    ensures Lateness(s + [e], now) == Lateness(s, now) + Weight(e, now)
  {
    if s == [] {
      assert s + [e] == [e];
    } else {
      LatenessOfAppend(s[1..], e, now);
      assert (s + [e])[1..] == s[1..] + [e];
    }
  }

  lemma LatenessOfSwap(s: seq<Entry>, i: nat, j: nat, now: int)
    requires i < |s| && j < |s|
    ensures Lateness(Swap(s, i, j), now) == Lateness(s, now)
  {
    LatenessOfUpdate(s, i, s[j], now);
    LatenessOfUpdate(s[i := s[j]], j, s[i], now);
  }

  lemma {:induction false} LatenessOfSiftUp(s: seq<Entry>, j: nat, now: int)
    requires j < |s|
    ensures Lateness(SiftUp(s, j), now) == Lateness(s, now)
    decreases j
  {
    if j != 0 && Less(s[j], s[Parent(j)]) {
      LatenessOfSwap(s, Parent(j), j, now);
      LatenessOfSiftUp(Swap(s, Parent(j), j), Parent(j), now);
    }
  }

  lemma {:induction false} LatenessOfSiftDown(s: seq<Entry>, i: nat, n: nat, now: int)
    requires i <= n <= |s|
    ensures Lateness(SiftDown(s, i, n), now) == Lateness(s, now)
    decreases n - i
  {
    if 2 * i + 1 < n {
      var j := SmallerChild(s, i, n);
      if Less(s[j], s[i]) {
        LatenessOfSwap(s, i, j, now);
        LatenessOfSiftDown(Swap(s, i, j), j, n, now);
      }
    }
  }

  lemma LatenessOfPush(s: seq<Entry>, e: Entry, now: int)
    ensures Lateness(Push(s, e), now) == Lateness(s, now) + Weight(e, now)
  {
    LatenessOfAppend(s, e, now);
    LatenessOfSiftUp(s + [e], |s|, now);
  }

  lemma LatenessOfPop(s: seq<Entry>, now: int)
    requires |s| > 0
    ensures Lateness(Pop(s), now) == Lateness(s, now) - Weight(s[0], now)
  {
    hide SiftDown, Swap, Pop, Lateness;
    var n := |s| - 1;
    LatenessOfSwap(s, 0, n, now);
    LatenessOfSiftDown(Swap(s, 0, n), 0, n, now);
    PopShape(s);
    LatenessOfAppend(Pop(s), s[0], now);
  }

  lemma RoundMembers(s: seq<Entry>, e: Entry)
    requires |s| > 0 && e in Round(s)
    ensures e in s || (s[0].interval != 0 && e == Reschedule(s[0]))
  {
    hide Round;
    RoundEntries(s);
    assert e in multiset(Round(s));
  }

  lemma RoundSettles(s: seq<Entry>, now: int)
    requires RootDue(s, now) && Settles(s, now)
    ensures Settles(Round(s), now)
  {
    hide Round;
    forall e | e in Round(s) && Due(e, now)
      ensures e.interval >= 0
    {
      RoundMembers(s, e);
    }
  }

  lemma RoundLowersLateness(s: seq<Entry>, now: int)
    requires RootDue(s, now) && Settles(s, now)
    ensures Settles(Round(s), now)
    ensures Lateness(Round(s), now) < Lateness(s, now)
  {
    hide Push, Pop, Lateness;
    RoundSettles(s, now);
    LatenessOfPop(s, now);
    LatenessOfPush(Pop(s), Reschedule(s[0]), now);
  }

  datatype Collected = Collected(fired: seq<Entry>, rest: seq<Entry>)

  /** The whole collecting loop at clock reading `now`. */
  function Collect(s: seq<Entry>, now: int): Collected
    requires Settles(s, now)
    decreases Lateness(s, now)
  {
    if !RootDue(s, now) then Collected([], s)
    else
      RoundLowersLateness(s, now);
      var c := Collect(Round(s), now);
      c.(fired := [s[0]] + c.fired)
  }

  // ---------- what fires ----------

  /** The `k`-th instant of timer `e`. */
  function At(e: Entry, k: nat): Entry {
    e.(ts := e.ts + k * e.interval)
  }

  /** `x` is an instant of the due timer `e` that lies before `now`. */
  ghost predicate Fires(e: Entry, x: Entry, now: int) {
    Due(e, now) && Due(x, now) && exists k: nat :: x == At(e, k)
  }

  /** `x` is what timer `e` has become once everything before `now` was
      collected: untouched when not due, gone when due and one-shot, otherwise
      moved to its first instant that is not before `now`. */
  ghost predicate Remains(e: Entry, x: Entry, now: int) {
    if Due(e, now) then
      e.interval > 0 && now <= x.ts < now + e.interval && exists k: nat :: x == At(e, k)
    else x == e
  }

  /** By instant, and by id where instants are equal. */
  ghost predicate StrictlySorted(s: seq<Entry>) {
    forall i, j :: 0 <= i < j < |s| ==> s[i].ts < s[j].ts || (s[i].ts == s[j].ts && s[i].id < s[j].id)
  }

  /** Every entry occurs once, and no two entries share an id. */
  ghost predicate UniqueIds(m: multiset<Entry>) {
    && (forall e :: e in m ==> m[e] == 1)
    && (forall e, f :: e in m && f in m && e.id == f.id ==> e == f)
  }

  lemma AtNext(e: Entry, k: nat)
    ensures At(Reschedule(e), k) == At(e, k + 1)
    ensures At(e, 0) == e
  {
    assert e.interval + k * e.interval == (k + 1) * e.interval;
  }

  lemma FiresUnfolds(e: Entry, x: Entry, now: int)
    requires Due(e, now) && e.interval >= 0
    ensures Fires(e, x, now) <==> x == e || (e.interval != 0 && Fires(Reschedule(e), x, now))
  {
    AtNext(e, 0);
    if Fires(e, x, now) {
      var k: nat :| x == At(e, k);
      if k > 0 {
        AtNext(e, k - 1);
        assert e.interval != 0 ==> 0 <= (k - 1) * e.interval;
        assert x == At(Reschedule(e), k - 1);
      }
    }
    if e.interval != 0 && Fires(Reschedule(e), x, now) {
      var k: nat :| x == At(Reschedule(e), k);
      AtNext(e, k);
      assert x == At(e, k + 1);
    }
  }

  lemma RemainsUnfolds(e: Entry, x: Entry, now: int)
    requires Due(e, now) && e.interval > 0
    ensures Remains(e, x, now) <==> Remains(Reschedule(e), x, now)
  {
    AtNext(e, 0);
    if Remains(e, x, now) {
      var k: nat :| x == At(e, k);
      assert k != 0;
      AtNext(e, k - 1);
      assert x == At(Reschedule(e), k - 1);
      assert k - 1 == 0 || (k - 1) * e.interval >= e.interval;
    }
    if Remains(Reschedule(e), x, now) {
      if Due(Reschedule(e), now) {
        var k: nat :| x == At(Reschedule(e), k);
        AtNext(e, k);
        assert x == At(e, k + 1);
      } else {
        assert x == At(e, 1);
      }
    }
  }

  lemma FiresAfter(root: Entry, e: Entry, x: Entry, now: int)
    requires Less(root, e) && e.interval >= 0 && Fires(e, x, now)
    ensures Less(root, x)
  {
    var k: nat :| x == At(e, k);
    assert k * e.interval >= 0;
  }

  /** `t` holds the entries of `s` with the root replaced by its next instant, or
      dropped when it is a one-shot timer. */
  ghost predicate Stepped(s: seq<Entry>, t: seq<Entry>)
    requires |s| > 0
  {
    forall e :: e in t <==> (e in s && e != s[0]) || (s[0].interval != 0 && e == Reschedule(s[0]))
  }

  lemma RoundStepped(s: seq<Entry>)
    requires |s| > 0 && UniqueIds(multiset(s))
    ensures Stepped(s, Round(s)) && UniqueIds(multiset(Round(s)))
  {
    hide Round;
    RoundEntries(s);
    var m := multiset(Round(s));
    assert multiset(s)[s[0]] == 1;
    forall e
      ensures e in Round(s) <==> e in m
      ensures e in m <==> (e in multiset(s) && e != s[0]) || (s[0].interval != 0 && e == Reschedule(s[0]))
    {
    }
  }

  lemma RoundOrders(s: seq<Entry>)
    requires |s| > 0 && HeapOrdered(s)
    ensures HeapOrdered(Round(s))
  {
    PopOrders(s);
    if s[0].interval != 0 {
      PushOrders(Pop(s), Reschedule(s[0]));
    }
  }

  lemma NothingDueBelowRoot(s: seq<Entry>, now: int, e: Entry)
    requires HeapOrdered(s) && !RootDue(s, now) && e in s
    ensures !Due(e, now)
  {
    var k :| 0 <= k < |s| && s[k] == e;
    RootIsMinimum(s, k);
  }

  lemma RootBelowOthers(s: seq<Entry>, e: Entry)
    requires |s| > 0 && HeapOrdered(s) && UniqueIds(multiset(s)) && e in s && e != s[0]
    ensures Less(s[0], e)
  {
    var k :| 0 <= k < |s| && s[k] == e;
    RootIsMinimum(s, k);
    assert s[0] in s;
  }

  /** `fired` is exactly what must fire out of `s` before `now`. */
  ghost predicate FiredExactly(s: seq<Entry>, now: int, fired: seq<Entry>) {
    forall x :: x in fired <==> exists e :: e in s && Fires(e, x, now)
  }

  ghost predicate RestExactly(s: seq<Entry>, now: int, rest: seq<Entry>) {
    forall x :: x in rest <==> exists e :: e in s && Remains(e, x, now)
  }

  lemma FiredStep(s: seq<Entry>, t: seq<Entry>, now: int, fired: seq<Entry>)
    requires RootDue(s, now) && s[0].interval >= 0 && Stepped(s, t)
    requires FiredExactly(t, now, fired)
    ensures FiredExactly(s, now, [s[0]] + fired)
  {
    var root := s[0];
    forall x
      ensures x in [root] + fired <==> exists e :: e in s && Fires(e, x, now)
    {
      FiresUnfolds(root, x, now);
      if x in fired {
        var e :| e in t && Fires(e, x, now);
        assert (e in s && Fires(e, x, now)) || Fires(root, x, now);
      }
      if e :| e in s && Fires(e, x, now) {
        assert x == root || (e in t && Fires(e, x, now)) || (Reschedule(root) in t && Fires(Reschedule(root), x, now));
      }
    }
  }

  lemma RestStep(s: seq<Entry>, t: seq<Entry>, now: int, rest: seq<Entry>)
    requires RootDue(s, now) && s[0].interval >= 0 && Stepped(s, t)
    requires RestExactly(t, now, rest)
    ensures RestExactly(s, now, rest)
  {
    var root := s[0];
    forall x
      ensures x in rest <==> exists e :: e in s && Remains(e, x, now)
    {
      if root.interval > 0 {
        RemainsUnfolds(root, x, now);
      }
      if x in rest {
        var e :| e in t && Remains(e, x, now);
        assert (e in s && Remains(e, x, now)) || Remains(root, x, now);
      }
      if e :| e in s && Remains(e, x, now) {
        assert (e in t && Remains(e, x, now)) || (Reschedule(root) in t && Remains(Reschedule(root), x, now));
      }
    }
  }

  /** `c` is the right outcome of a poll of `s` at `now`: the collected entries are
      exactly the instants before `now`, strictly sorted by (instant, id), and the
      heap holds exactly what must remain, in order, with nothing due. */
  ghost predicate PolledExactly(s: seq<Entry>, now: int, c: Collected) {
    && StrictlySorted(c.fired)
    && FiredExactly(s, now, c.fired)
    && RestExactly(s, now, c.rest)
    && HeapOrdered(c.rest) && UniqueIds(multiset(c.rest)) && !RootDue(c.rest, now)
  }

  lemma PolledStep(s: seq<Entry>, t: seq<Entry>, now: int, c: Collected)
    requires RootDue(s, now) && Settles(s, now) && HeapOrdered(s) && UniqueIds(multiset(s)) && Stepped(s, t)
    requires PolledExactly(t, now, c)
    ensures PolledExactly(s, now, c.(fired := [s[0]] + c.fired))
  {
    hide FiredExactly, RestExactly, HeapOrdered, UniqueIds, Stepped, StrictlySorted;
    FiredStep(s, t, now, c.fired);
    RestStep(s, t, now, c.rest);
    forall x | x in c.fired
      ensures Less(s[0], x)
    {
      RootFiresFirst(s, t, now, c.fired, x);
    }
    PrependSorted(s[0], c.fired);
  }

  lemma PrependSorted(first: Entry, s: seq<Entry>)
    requires StrictlySorted(s) && forall x :: x in s ==> Less(first, x)
    ensures StrictlySorted([first] + s)
  {
    var all := [first] + s;
    forall i, j | 0 <= i < j < |all|
      ensures all[i].ts < all[j].ts || (all[i].ts == all[j].ts && all[i].id < all[j].id)
    {
      assert all[j] == s[j - 1] && s[j - 1] in s;
      assert i > 0 ==> all[i] == s[i - 1];
    }
  }

  /** `getExpired` is exact on every heap-ordered queue. */
  lemma {:induction false} CollectExact(s: seq<Entry>, now: int)
    requires Settles(s, now) && HeapOrdered(s) && UniqueIds(multiset(s))
    ensures PolledExactly(s, now, Collect(s, now))
    decreases Lateness(s, now)
  {
    hide Round, PolledExactly, HeapOrdered, UniqueIds, Stepped, Settles;
    if !RootDue(s, now) {
      NothingFires(s, now);
    } else {
      RoundLowersLateness(s, now);
      RoundOrders(s);
      RoundStepped(s);
      CollectExact(Round(s), now);
      PolledStep(s, Round(s), now, Collect(Round(s), now));
    }
  }

  lemma NothingFires(s: seq<Entry>, now: int)
    requires HeapOrdered(s) && UniqueIds(multiset(s)) && !RootDue(s, now)
    ensures PolledExactly(s, now, Collected([], s))
  {
    forall e | e in s
      ensures !Due(e, now)
    {
      NothingDueBelowRoot(s, now, e);
    }
    forall x | x in s
      ensures exists e :: e in s && Remains(e, x, now)
    {
      assert Remains(x, x, now);
    }
  }

  lemma RootFiresFirst(s: seq<Entry>, t: seq<Entry>, now: int, fired: seq<Entry>, x: Entry)
    requires RootDue(s, now) && Settles(s, now) && HeapOrdered(s) && UniqueIds(multiset(s))
    requires Stepped(s, t) && FiredExactly(t, now, fired) && x in fired
    ensures Less(s[0], x)
  {
    var e :| e in t && Fires(e, x, now);
    if e in s && e != s[0] {
      RootBelowOthers(s, e);
    }
    FiresAfter(s[0], e, x, now);
  }

  // ---------- polling often or seldom ----------

  lemma SettlesEarlier(s: seq<Entry>, now1: int, now2: int)
    requires now1 <= now2 && Settles(s, now2)
    ensures Settles(s, now1)
  {
  }

  lemma CollectUnfolds(s: seq<Entry>, now: int)
    requires Settles(s, now)
    ensures !RootDue(s, now) ==> Collect(s, now) == Collected([], s)
    ensures RootDue(s, now) ==>
      && Settles(Round(s), now) && Lateness(Round(s), now) < Lateness(s, now)
      && Collect(s, now) == Collected([s[0]] + Collect(Round(s), now).fired, Collect(Round(s), now).rest)
  {
    hide Round, Lateness, Settles;
    if RootDue(s, now) {
      RoundLowersLateness(s, now);
    }
  }

  /** Polling at `now1` and again at `now2` collects, in the same order, what one
      poll at `now2` collects, and leaves the very same heap array.  Heap order is
      not needed. */
  lemma {:induction false} PollTwice(s: seq<Entry>, now1: int, now2: int)
    requires now1 <= now2 && Settles(s, now2)
    ensures Settles(s, now1) && Settles(Collect(s, now1).rest, now2)
    ensures var early := Collect(s, now1);
            var late := Collect(early.rest, now2);
            Collect(s, now2) == Collected(early.fired + late.fired, late.rest)
    decreases Lateness(s, now2)
  {
    hide Round, Lateness, Settles, Collect;
    SettlesEarlier(s, now1, now2);
    CollectUnfolds(s, now1);
    CollectUnfolds(s, now2);
    if RootDue(s, now1) {
      PollTwice(Round(s), now1, now2);
      var early := Collect(Round(s), now1).fired;
      var late := Collect(Collect(Round(s), now1).rest, now2).fired;
      assert [s[0]] + (early + late) == ([s[0]] + early) + late;
    } else {
      var late := Collect(s, now2).fired;
      assert [] + late == late;
    }
  }

  // ---------- when the loop ends ----------

  /** The first `n` iterations of the loop, or fewer when the guard fails earlier. */
  function CollectUpTo(s: seq<Entry>, now: int, n: nat): Collected
    decreases n
  {
    if n == 0 || !RootDue(s, now) then Collected([], s)
    else
      var c := CollectUpTo(Round(s), now, n - 1);
      c.(fired := [s[0]] + c.fired)
  }

  /** The loop ends after at most `n` iterations. */
  predicate EndsWithin(s: seq<Entry>, now: int, n: nat) {
    !RootDue(CollectUpTo(s, now, n).rest, now)
  }

  /** One iteration: with the guard met the bound is positive and falls. */
  lemma UpToUnfolds(s: seq<Entry>, now: int, n: nat)
    requires EndsWithin(s, now, n)
    ensures !RootDue(s, now) ==> CollectUpTo(s, now, n) == Collected([], s)
    ensures RootDue(s, now) ==>
      && n > 0 && EndsWithin(Round(s), now, n - 1)
      && CollectUpTo(s, now, n) ==
         Collected([s[0]] + CollectUpTo(Round(s), now, n - 1).fired, CollectUpTo(Round(s), now, n - 1).rest)
  {
    hide Round;
  }

  /** What is collected so far goes in front of what is still to come. */
  lemma CollectedSoFar(te: seq<Entry>, x: Entry, fired: seq<Entry>)
    ensures te + ([x] + fired) == (te + [x]) + fired
  {
  }

  lemma {:induction false} CollectEnds(s: seq<Entry>, now: int) returns (n: nat)
    requires Settles(s, now)
    ensures EndsWithin(s, now, n)
    decreases Lateness(s, now)
  {
    hide Round, Settles, Lateness;
    if !RootDue(s, now) {
      n := 0;
    } else {
      RoundLowersLateness(s, now);
      n := CollectEnds(Round(s), now);
      n := n + 1;
    }
  }

  /** Iterations enough to end are the whole loop. */
  lemma {:induction false} UpToIsCollect(s: seq<Entry>, now: int, n: nat)
    requires Settles(s, now) && EndsWithin(s, now, n)
    ensures CollectUpTo(s, now, n) == Collect(s, now)
    decreases n
  {
    hide Round, Settles, Lateness, Collect;
    CollectUnfolds(s, now);
    if RootDue(s, now) {
      UpToIsCollect(Round(s), now, n - 1);
    }
  }

  lemma {:induction false} NegativeIntervalNeverEnds(s: seq<Entry>, now: int, e: Entry, n: nat)
    requires HeapOrdered(s) && e in s && Due(e, now) && e.interval < 0
    ensures !EndsWithin(s, now, n)
    decreases n
  {
    hide Round, HeapOrdered;
    if !RootDue(s, now) {
      NothingDueBelowRoot(s, now, e);
    } else if n > 0 {
      RoundOrders(s);
      RoundEntries(s);
      var e' := if e == s[0] then Reschedule(e) else e;
      assert e' in multiset(Round(s));
      NegativeIntervalNeverEnds(Round(s), now, e', n - 1);
    }
  }

  /** On an ordered heap the loop of `getExpired` ends if and only if no timer that
      is already due has a negative interval. */
  lemma EndsExactlyWhenSettles(s: seq<Entry>, now: int)
    requires HeapOrdered(s)
    ensures Settles(s, now) <==> exists n: nat :: EndsWithin(s, now, n)
  {
    if Settles(s, now) {
      var n := CollectEnds(s, now);
    } else {
      var e :| e in s && Due(e, now) && e.interval < 0;
      forall n: nat
        ensures !EndsWithin(s, now, n)
      {
        NegativeIntervalNeverEnds(s, now, e, n);
      }
    }
  }
}
