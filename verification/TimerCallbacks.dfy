/** The callbacks of one poll.  getExpired first collects every due timer and only then
    are the callbacks called, one after the other, so a callback that cancels a timer
    comes too late for what was already collected. */
module TimerCallbacks {
  import opened TimerHeap
  import opened TimerExpiry
  import opened TimerQueue
  import opened TimerFd
  import opened TimerCancel
  import opened TimerRuns

  /** What a callback may do with the queue it runs on. */
  datatype Act =
    | AddAct(triggerAt: int, interval: int, f: nat, now: int)
    | CancelAct(id: int)

  function Perform(q: Queue, act: Act): Queue {
    match act
    case AddAct(at, interval, f, now) => Add(q, at, interval, f, now)
    case CancelAct(id) => Cancel(q, id)
  }

  function PerformAll(q: Queue, acts: seq<Act>): Queue
    decreases |acts|
  {
    if acts == [] then q else PerformAll(Perform(q, acts[0]), acts[1..])
  }

  /** The queue after these callbacks; callback `i` does `acts[i]`. */
  function CallAll(q: Queue, acts: seq<seq<Act>>): Queue
    decreases |acts|
  {
    if acts == [] then q
    else
      var n := |acts| - 1;
      PerformAll(CallAll(q, acts[..n]), acts[n])
  }

  predicate Spares(acts: seq<Act>, id: int) {
    forall i :: 0 <= i < |acts| ==> acts[i] != CancelAct(id)
  }

  lemma {:induction false} SparedStaysLive(q: Queue, acts: seq<Act>, id: int)
    requires id <= q.counter && Spares(acts, id)
    ensures var q' := PerformAll(q, acts); id <= q'.counter && (Live(q'.heap, id) <==> Live(q.heap, id))
    decreases |acts|
  {
    hide Push, Without, ToTimespec, Live;
    if acts != [] {
      var q1 := Perform(q, acts[0]);
      assert acts[0] != CancelAct(id);
      ActSpares(q, acts[0], id);
      SparedStaysLive(q1, acts[1..], id);
    }
  }

  lemma ActSpares(q: Queue, act: Act, id: int)
    requires id <= q.counter && act != CancelAct(id)
    ensures var q' := Perform(q, act); id <= q'.counter && (Live(q'.heap, id) <==> Live(q.heap, id))
  {
    hide Push, Without, ToTimespec;
    match act
    case AddAct(at, interval, f, now) => PushMembers(q.heap, Entry(q.counter + 1, at, interval, f));
    case CancelAct(other) => WithoutMembers(q.heap, other);
  }

  /** A cancel takes the timer out, and what callbacks add later has other ids. */
  lemma ActKeepsDead(q: Queue, act: Act, id: int)
    requires id <= q.counter && (act == CancelAct(id) || !Live(q.heap, id))
    ensures var q' := Perform(q, act); id <= q'.counter && !Live(q'.heap, id)
  {
    hide Push, Without, ToTimespec;
    match act
    case AddAct(at, interval, f, now) => PushMembers(q.heap, Entry(q.counter + 1, at, interval, f));
    case CancelAct(other) => WithoutMembers(q.heap, other);
  }

  /** A callback that adds a timer gets a new id, and the timer is pending. */
  lemma ActAdds(q: Queue, at: int, interval: int, f: nat, now: int)
    ensures var q' := Perform(q, AddAct(at, interval, f, now));
      && q'.counter == q.counter + 1
      && forall e :: e in q'.heap <==> e in q.heap || e == Entry(q.counter + 1, at, interval, f)
  {
    hide Push, ToTimespec;
    PushMembers(q.heap, Entry(q.counter + 1, at, interval, f));
  }

  lemma {:induction false} CancelledByActs(q: Queue, acts: seq<Act>, id: int)
    requires id <= q.counter && (CancelAct(id) in acts || !Live(q.heap, id))
    ensures var q' := PerformAll(q, acts); id <= q'.counter && !Live(q'.heap, id)
    decreases |acts|
  {
    hide Perform, Live;
    if acts != [] {
      var q1 := Perform(q, acts[0]);
      if acts[0] == CancelAct(id) || !Live(q.heap, id) {
        ActKeepsDead(q, acts[0], id);
      } else {
        ActSpares(q, acts[0], id);
        assert CancelAct(id) in acts[1..];
      }
      CancelledByActs(q1, acts[1..], id);
    }
  }

  /** Once a callback of the batch has cancelled a timer, it is gone when the batch is done:
      no later poll collects it. */
  lemma {:induction false} CancelledAfterBatch(q: Queue, acts: seq<seq<Act>>, id: int)
    requires id <= q.counter && ((exists i :: 0 <= i < |acts| && CancelAct(id) in acts[i]) || !Live(q.heap, id))
    ensures var q' := CallAll(q, acts); id <= q'.counter && !Live(q'.heap, id)
    decreases |acts|
  {
    hide PerformAll, Live;
    if acts != [] {
      var n := |acts| - 1;
      if CancelAct(id) in acts[n] {
        CallsKeepCounter(q, acts[..n]);
      } else {
        if i :| 0 <= i < |acts| && CancelAct(id) in acts[i] {
          assert CancelAct(id) in acts[..n][i];
        }
        CancelledAfterBatch(q, acts[..n], id);
      }
      CancelledByActs(CallAll(q, acts[..n]), acts[n], id);
    }
  }

  lemma {:induction false} ActsKeepCounter(q: Queue, acts: seq<Act>)
    ensures PerformAll(q, acts).counter >= q.counter
    decreases |acts|
  {
    hide Push, Without, ToTimespec;
    if acts != [] {
      ActsKeepCounter(Perform(q, acts[0]), acts[1..]);
    }
  }

  lemma {:induction false} CallsKeepCounter(q: Queue, acts: seq<seq<Act>>)
    ensures CallAll(q, acts).counter >= q.counter
    decreases |acts|
  {
    hide PerformAll;
    if acts != [] {
      var n := |acts| - 1;
      CallsKeepCounter(q, acts[..n]);
      ActsKeepCounter(CallAll(q, acts[..n]), acts[n]);
    }
  }

  predicate AllSpare(acts: seq<seq<Act>>, id: int) {
    forall i :: 0 <= i < |acts| ==> Spares(acts[i], id)
  }

  lemma {:induction false} LiveBetweenCallbacks(q: Queue, acts: seq<seq<Act>>, id: int)
    requires id <= q.counter && AllSpare(acts, id)
    ensures var q' := CallAll(q, acts); id <= q'.counter && (Live(q'.heap, id) <==> Live(q.heap, id))
    decreases |acts|
  {
    hide PerformAll, Spares, Live;
    if acts != [] {
      var n := |acts| - 1;
      LiveBetweenCallbacks(q, acts[..n], id);
      SparedStaysLive(CallAll(q, acts[..n]), acts[n], id);
    }
  }

  /** After the poll an id is live exactly if it was and was not a due one-shot. */
  lemma LiveAfterPoll(s: seq<Entry>, now: int, rest: seq<Entry>, id: int)
    requires Settles(s, now) && RestExactly(s, now, rest)
    ensures Live(rest, id) <==> exists e :: e in s && e.id == id && !(Due(e, now) && e.interval == 0)
  {
    hide Settles;
    if Live(rest, id) {
      var x :| x in rest && x.id == id;
      var e :| e in s && Remains(e, x, now);
      assert e.id == id;
    }
    if e :| e in s && e.id == id && !(Due(e, now) && e.interval == 0) {
      NextOf(s, e, now, rest);
    }
  }

  /** The id is collected again behind entry `i` exactly if one of its instants before
      `now` comes behind that entry. */
  lemma CollectedLaterIff(s: seq<Entry>, now: int, te: seq<Entry>, i: nat, id: int)
    requires StrictlySorted(te) && FiredExactly(s, now, te) && i < |te|
    ensures (exists j :: i < j < |te| && te[j].id == id) <==>
            exists e, x :: e in s && e.id == id && Fires(e, x, now) && Less(te[i], x)
  {
    if j :| i < j < |te| && te[j].id == id {
      assert te[j] in te;
      var e :| e in s && Fires(e, te[j], now);
      assert e.id == id && Less(te[i], te[j]);
    }
    if e, x :| e in s && e.id == id && Fires(e, x, now) && Less(te[i], x) {
      assert x in te;
      var j :| 0 <= j < |te| && te[j] == x;
      assert j < i ==> Less(te[j], te[i]);
    }
  }

  /** The callbacks before that of collected entry `i` do `acts`; it cancels `id`, the first
      in the batch to do so.
      CancelTimer answers true and the timer is nevertheless called later in the batch
      if and only if it is periodic and another of its instants before `now` comes
      behind that entry. */
  lemma StaleCallbackIff(q: Queue, now: int, again: int, acts: seq<seq<Act>>, i: nat, id: int)
    requires HeapOrdered(q.heap) && UniqueIds(multiset(q.heap)) && Settles(q.heap, now) && id <= q.counter
    requires i == |acts| < |Collect(q.heap, now).fired| && AllSpare(acts, id)
    ensures var te := Collect(q.heap, now).fired;
            var meanwhile := CallAll(Poll(q, now, again), acts);
      && (Live(meanwhile.heap, id) && (exists j :: i < j < |te| && te[j].id == id)) <==>
          (exists e, x :: e in q.heap && e.id == id && e.interval > 0 && Fires(e, x, now) && Less(te[i], x))
  {
    hide Collect, FiredExactly, RestExactly, HeapOrdered, UniqueIds, StrictlySorted, CallAll, Live, ToTimespec, DelayUntil, Fires;
    CollectExact(q.heap, now);
    var te, rest := Collect(q.heap, now).fired, Collect(q.heap, now).rest;
    LiveBetweenCallbacks(Poll(q, now, again), acts, id);
    LiveAfterPoll(q.heap, now, rest, id);
    CollectedLaterIff(q.heap, now, te, i, id);
    if Live(rest, id) && exists j :: i < j < |te| && te[j].id == id {
      var e :| e in q.heap && e.id == id && !(Due(e, now) && e.interval == 0);
      var f, x :| f in q.heap && f.id == id && Fires(f, x, now) && Less(te[i], x);
      OneOfEachId(q.heap, e, f);
      FiresDue(f, x, now);
    }
  }

  lemma OneOfEachId(s: seq<Entry>, e: Entry, f: Entry)
    requires UniqueIds(multiset(s)) && e in s && f in s && e.id == f.id
    ensures e == f
  {
  }

  lemma FiresDue(e: Entry, x: Entry, now: int)
    requires Fires(e, x, now)
    ensures Due(e, now)
  {
  }

  lemma OneTimer(e: Entry, now: int)
    requires e.interval > 0
    ensures HeapOrdered([e]) && UniqueIds(multiset([e])) && Settles([e], now) && Push([], e) == [e]
  {
    assert [] + [e] == [e];
  }

  lemma SecondInstant(e: Entry, now: int)
    requires e.interval > 0 && e.ts + e.interval < now
    ensures Due(e, now) && Fires(e, At(e, 1), now) && Less(e, At(e, 1))
  {
  }

  lemma FirstCollected(e: Entry, now: int)
    requires e.interval > 0 && Due(e, now)
    ensures Settles([e], now) && Collect([e], now).fired != [] && Collect([e], now).fired[0] == e
  {
    hide Round, Lateness, Collect;
    OneTimer(e, now);
    CollectUnfolds([e], now);
  }

  /** A lone periodic timer that is late by more than its interval, whose callback
      cancels it: the answer is true, and the callback is called once more. */
  lemma CancelledCallbackRuns(at: int, interval: int, f: nat, clock: int, now: int, again: int)
    requires interval > 0 && at + interval < now
    ensures var q := Add(NEW_QUEUE, at, interval, f, clock);
      && Settles(q.heap, now)
      && var te := Collect(q.heap, now).fired;
         && te != [] && te[0].id == 1 && Live(Poll(q, now, again).heap, 1)
         && exists j :: 0 < j < |te| && te[j].id == 1
  {
    hide Collect, Push, ToTimespec, DelayUntil, HeapOrdered, UniqueIds, Settles, Fires, Live;
    var e := Entry(1, at, interval, f);
    var q := Add(NEW_QUEUE, at, interval, f, clock);
    OneTimer(e, now);
    SecondInstant(e, now);
    FirstCollected(e, now);
    assert e in q.heap;
    StaleCallbackIff(q, now, again, [], 0, 1);
  }
}
