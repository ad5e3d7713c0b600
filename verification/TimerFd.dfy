/** The programming of the timerfd by AddTimer and getExpired. */
module TimerFd {
  import opened TimerHeap
  import opened TimerExpiry
  import opened TimerQueue

  /** After AddTimer on an ordered queue the timerfd is armed: it expires one nanosecond
      from now when some pending timer, the new one included, has come, and otherwise
      exactly at the first pending instant. */
  lemma ArmedAfterAdd(q: Queue, triggerAt: int, interval: int, f: nat, now: int)
    requires HeapOrdered(q.heap)
    ensures var q' := Add(q, triggerAt, interval, f, now);
      && !q'.armed.Disarmed()
      && ((exists e :: e in q'.heap && e.ts <= now) ==> q'.armed.Delay() == 1)
      && ((forall e :: e in q'.heap ==> now < e.ts) ==>
            (forall e :: e in q'.heap ==> now + q'.armed.Delay() <= e.ts)
            && (exists e :: e in q'.heap && now + q'.armed.Delay() == e.ts))
  {
    hide Push;
    PushOrders(q.heap, Entry(q.counter + 1, triggerAt, interval, f));
    var h := Add(q, triggerAt, interval, f, now).heap;
    assert h[0] in h;
    forall e | e in h
      ensures h[0].ts <= e.ts
    {
      var k :| 0 <= k < |h| && h[k] == e;
      RootIsMinimum(h, k);
    }
  }

  /** The clock reading `again` precedes every instant that a poll at `now` leaves
      pending. */
  ghost predicate InTime(heap: seq<Entry>, now: int, again: int) {
    forall e, x :: e in heap && Remains(e, x, now) ==> again < x.ts
  }

  /** getExpired leaves a timer pending exactly when some timer is not due or is
      periodic; then the timerfd is armed if and only if the second clock reading
      precedes what each timer of the queue next becomes, and it expires exactly at
      the first of these instants. */
  lemma ArmedAfterPoll(q: Queue, now: int, again: int)
    requires HeapOrdered(q.heap) && UniqueIds(multiset(q.heap)) && Settles(q.heap, now)
    ensures var q' := Poll(q, now, again);
      && (q'.heap == [] <==> forall e :: e in q.heap ==> Due(e, now) && e.interval == 0)
      && (q'.heap == [] ==> q'.armed == q.armed)
      && (q'.heap != [] ==> (!q'.armed.Disarmed() <==> InTime(q.heap, now, again)))
      && (q'.heap != [] && InTime(q.heap, now, again) ==>
            (forall e, x :: e in q.heap && Remains(e, x, now) ==> again + q'.armed.Delay() <= x.ts)
            && (exists e, x :: e in q.heap && Remains(e, x, now) && again + q'.armed.Delay() == x.ts))
  {
    hide Collect, FiredExactly, HeapOrdered, UniqueIds, StrictlySorted, Remains, ToTimespec;
    CollectExact(q.heap, now);
    var h := Collect(q.heap, now).rest;
    if h == [] {
      forall e | e in q.heap
        ensures Due(e, now) && e.interval == 0
      {
        if !(Due(e, now) && e.interval == 0) {
          NextOf(q.heap, e, now, h);
        }
      }
    } else {
      RootOfRest(q.heap, now, h);
      var e :| e in q.heap && Remains(e, h[0], now);
      RemainsMeans(e, h[0], now);
    }
  }

  lemma RemainsMeans(e: Entry, x: Entry, now: int)
    requires Remains(e, x, now)
    ensures !(Due(e, now) && e.interval == 0)
  {
  }

  /** A timer that is not due or is periodic stays pending. */
  lemma NextOf(s: seq<Entry>, e: Entry, now: int, h: seq<Entry>)
    requires e in s && Settles(s, now) && !(Due(e, now) && e.interval == 0) && RestExactly(s, now, h)
    ensures h != [] && Live(h, e.id)
  {
    if Due(e, now) {
      var k := (now - e.ts + e.interval - 1) / e.interval;
      InstantAtOrAfter(now - e.ts, e.interval);
      var x := At(e, k);
      assert Remains(e, x, now);
      assert x in h;
    } else {
      assert Remains(e, e, now);
      assert e in h;
    }
  }

  lemma InstantAtOrAfter(late: nat, interval: int)
    requires interval > 0
    ensures var k := (late + interval - 1) / interval; k >= 0 && late <= k * interval < late + interval
  {
    var n := late + interval - 1;
    assert n == (n / interval) * interval + n % interval;
  }

  lemma RootOfRest(s: seq<Entry>, now: int, h: seq<Entry>)
    requires RestExactly(s, now, h) && HeapOrdered(h) && h != []
    ensures h[0] in h && exists e :: e in s && Remains(e, h[0], now)
    ensures forall e, x :: e in s && Remains(e, x, now) ==> h[0].ts <= x.ts
  {
    hide Remains, HeapOrdered;
    assert h[0] in h;
    forall e, x | e in s && Remains(e, x, now)
      ensures h[0].ts <= x.ts
    {
      assert x in h;
      var k :| 0 <= k < |h| && h[k] == x;
      RootIsMinimum(h, k);
    }
  }

  /** A late second clock reading leaves a pending timer with a disarmed timerfd: one
      periodic timer at 5, every 10, polled at 10 with the second reading at 15. */
  lemma PollCanDisarm()
    ensures var q := Add(NEW_QUEUE, 5, 10, 0, 0);
      && q.heap == [Entry(1, 5, 10, 0)] && HeapOrdered(q.heap) && Settles(q.heap, 10)
      && Poll(q, 10, 15).heap == [Entry(1, 15, 10, 0)]
      && Poll(q, 10, 15).armed.Disarmed()
  {
    var s := [Entry(1, 5, 10, 0)];
    var t := [Entry(1, 15, 10, 0)];
    assert Push([], s[0]) == s;
    assert Pop(s) == [];
    assert Push([], t[0]) == t;
    assert Round(s) == t;
    CollectUnfolds(s, 10);
    CollectUnfolds(t, 10);
  }

  // ---------- reading the timerfd ----------

  /** The timerfd since timerfd_settime(2) was last called, at `setAt`: an expiry from before
      that call is forgotten, read or not. */
  datatype Timerfd = Timerfd(setAt: int, value: Timespec)

  /** It has expired by `t`; reading it earlier gives EAGAIN, which the read callback of the
      timer channel takes for a reason to panic. */
  predicate Expired(fd: Timerfd, t: int) {
    !fd.value.Disarmed() && fd.setAt + fd.value.Delay() <= t
  }

  /** Poll reported the timerfd, but a handler before that of the timer channel calls
      AddTimer at `now`.  The read at `t` then panics if and only if no timer, the new one
      included, is due by `t`, or no time has passed at all. */
  lemma ReadPanicsIff(q: Queue, triggerAt: int, interval: int, f: nat, now: int, t: int)
    requires HeapOrdered(q.heap) && now <= t
    ensures !Expired(Timerfd(now, Add(q, triggerAt, interval, f, now).armed), t) <==>
            t == now || (t < triggerAt && forall e :: e in q.heap ==> t < e.ts)
  {
    hide Push;
    var x := Entry(q.counter + 1, triggerAt, interval, f);
    var h := Push(q.heap, x);
    PushOrders(q.heap, x);
    PushedEntries(q.heap, x);
    assert h[0] in h && x in h;
    forall e | e in h
      ensures h[0].ts <= e.ts
    {
      var k :| 0 <= k < |h| && h[k] == e;
      RootIsMinimum(h, k);
    }
  }

  /** A timer for 10 is added and cancelled again.  At 12 the timerfd has expired; a handler
      that adds a timer for 100 just then makes the read at 13 panic. */
  lemma CancelledExpiryPanics()
    ensures var q := Add(NEW_QUEUE, 10, 0, 0, 0);
            var left := Cancel(q, 1);
      && left.heap == [] && left.armed == q.armed
      && Expired(Timerfd(0, left.armed), 12)
      && !Expired(Timerfd(12, Add(left, 100, 0, 0, 12).armed), 13)
  {
    var q := Add(NEW_QUEUE, 10, 0, 0, 0);
    assert q.heap == [Entry(1, 10, 0, 0)];
    assert q.heap[..0] == [] && Without([], 1) == [];
    ReadPanicsIff(Cancel(q, 1), 100, 0, 0, 12, 13);
  }
}
