/** What holds of the timer queue over whole runs: an account of every firing, and heap
    order. */
module TimerRuns {
  import opened TimerHeap
  import opened TimerExpiry
  import opened TimerQueue
  import opened TimerCancel

  datatype Op =
    | AddOp(triggerAt: int, interval: int, f: nat, now: int)
    | CancelOp(id: int)
    | PollOp(now: int, again: int)

  /** An entry handed to the caller, and the clock reading of the poll that did it. */
  datatype Firing = Firing(entry: Entry, clock: int)

  /** The queue together with what happened so far: the entry each id was issued
      with, the ids cancelled while live, and every firing. */
  datatype History = History(q: Queue, origin: map<int, Entry>, cancelled: set<int>, log: seq<Firing>)

  const NEW_HISTORY := History(NEW_QUEUE, map[], {}, [])

  ghost predicate NonNegative(s: seq<Entry>) {
    forall e :: e in s ==> e.interval >= 0
  }

  function Stamp(fired: seq<Entry>, now: int): (r: seq<Firing>)
    ensures |r| == |fired|
  {
    if fired == [] then [] else [Firing(fired[0], now)] + Stamp(fired[1..], now)
  }

  ghost function Step(h: History, op: Op): History
    requires NonNegative(h.q.heap)
  {
    match op
    case AddOp(at, interval, f, now) =>
      var q := Add(h.q, at, interval, f, now);
      h.(q := q, origin := h.origin[q.counter := Entry(q.counter, at, interval, f)])
    case CancelOp(id) =>
      h.(q := Cancel(h.q, id), cancelled := h.cancelled + if Live(h.q.heap, id) then {id} else {})
    case PollOp(now, again) =>
      h.(q := Poll(h.q, now, again), log := h.log + Stamp(Collect(h.q.heap, now).fired, now))
  }

  predicate Proper(op: Op) {
    op.AddOp? ==> op.interval >= 0
  }

  /** What has fired for this id, in order. */
  ghost function FiredOf(log: seq<Firing>, id: int): seq<Entry> {
    if log == [] then []
    else
      var last := log[|log| - 1].entry;
      FiredOf(log[..|log| - 1], id) + if last.id == id then [last] else []
  }

  /** The account of one id, issued as `o`: its firings are exactly its first instants
      in order, none skipped and none repeated; while live it waits for the next
      one; and it is live unless it was cancelled or was a one-shot that fired. */
  ghost predicate Account(heap: seq<Entry>, o: Entry, cancelled: bool, fired: seq<Entry>) {
    && (forall k :: 0 <= k < |fired| ==> fired[k] == At(o, k))
    && (o.interval == 0 ==> |fired| <= 1)
    && (forall e :: e in heap && e.id == o.id ==>
          !cancelled && e == At(o, |fired|) && (o.interval == 0 ==> |fired| == 0))
    && (Live(heap, o.id) || cancelled || (o.interval == 0 && |fired| == 1))
  }

  ghost predicate Issued(h: History) {
    && h.q.counter >= 0
    && (forall id :: id in h.origin <==> 1 <= id <= h.q.counter)
    && (forall id :: id in h.origin ==> h.origin[id].id == id && h.origin[id].interval >= 0)
    && (forall e :: e in h.q.heap ==> e.id in h.origin && e.interval >= 0)
    && (forall i :: 0 <= i < |h.log| ==> h.log[i].entry.id in h.origin)
    && h.cancelled <= h.origin.Keys
    && UniqueIds(multiset(h.q.heap))
  }

  ghost predicate Accounts(h: History) {
    forall id :: id in h.origin ==>
      Account(h.q.heap, h.origin[id], id in h.cancelled, FiredOf(h.log, id))
  }

  /** Nothing was collected at or before its own instant. */
  ghost predicate NeverEarly(log: seq<Firing>) {
    forall i :: 0 <= i < |log| ==> log[i].entry.ts < log[i].clock
  }

  ghost predicate Ledger(h: History) {
    Issued(h) && Accounts(h) && NeverEarly(h.log)
  }

  lemma FiredOfAppend(log: seq<Firing>, x: Firing, id: int)
    ensures FiredOf(log + [x], id) == FiredOf(log, id) + if x.entry.id == id then [x.entry] else []
  {
    assert (log + [x])[..|log|] == log;
  }

  lemma {:induction false} NothingFiredYet(log: seq<Firing>, id: int)
    requires forall i :: 0 <= i < |log| ==> log[i].entry.id != id
    ensures FiredOf(log, id) == []
  {
    if log != [] {
      NothingFiredYet(log[..|log| - 1], id);
    }
  }

  /** Only the pending entries of an id matter to its account. */
  lemma AccountSame(s: seq<Entry>, t: seq<Entry>, o: Entry, cancelled: bool, fired: seq<Entry>)
    requires forall e: Entry :: e.id == o.id ==> (e in s <==> e in t)
    requires Account(s, o, cancelled, fired)
    ensures Account(t, o, cancelled, fired)
  {
    if Live(s, o.id) {
      var e :| e in s && e.id == o.id;
      assert e in t;
    }
  }

  lemma PushMembers(s: seq<Entry>, x: Entry)
    ensures forall e :: e in Push(s, x) <==> e in s || e == x
    ensures UniqueIds(multiset(s)) && (forall e :: e in s ==> e.id != x.id) ==> UniqueIds(multiset(Push(s, x)))
  {
    hide Push;
    PushedEntries(s, x);
    var m := multiset(Push(s, x));
    forall e
      ensures m[e] == multiset(s)[e] + if e == x then 1 else 0
    {
    }
  }

  lemma AddKeepsLedger(h: History, op: Op)
    requires Ledger(h) && op.AddOp? && Proper(op) && NonNegative(h.q.heap)
    ensures Ledger(Step(h, op))
  {
    hide Push, UniqueIds, Account;
    var x := Entry(h.q.counter + 1, op.triggerAt, op.interval, op.f);
    var h' := Step(h, op);
    PushMembers(h.q.heap, x);
    forall id | id in h'.origin
      ensures Account(h'.q.heap, h'.origin[id], id in h'.cancelled, FiredOf(h'.log, id))
    {
      if id == x.id {
        NothingFiredYet(h.log, id);
        FreshAccount(h'.q.heap, x, id in h'.cancelled);
      } else {
        AccountSame(h.q.heap, h'.q.heap, h.origin[id], id in h.cancelled, FiredOf(h.log, id));
      }
    }
  }

  lemma FreshAccount(s: seq<Entry>, x: Entry, cancelled: bool)
    requires x in s && !cancelled && forall e :: e in s && e.id == x.id ==> e == x
    ensures Account(s, x, cancelled, [])
  {
    assert At(x, 0) == x;
  }

  lemma CancelKeepsIssued(h: History, id: int)
    requires Issued(h) && NonNegative(h.q.heap)
    ensures Issued(Step(h, CancelOp(id)))
  {
    hide Without;
    WithoutMembers(h.q.heap, id);
    WithoutMultiset(h.q.heap, id);
  }

  lemma CancelKeepsLedger(h: History, id: int)
    requires Ledger(h) && NonNegative(h.q.heap)
    ensures Ledger(Step(h, CancelOp(id)))
  {
    hide Account, Without, Issued;
    var h' := Step(h, CancelOp(id));
    WithoutMembers(h.q.heap, id);
    CancelKeepsIssued(h, id);
    forall k | k in h'.origin
      ensures Account(h'.q.heap, h'.origin[k], k in h'.cancelled, FiredOf(h'.log, k))
    {
      assert h.origin[k].id == k by { IssuedId(h, k); }
      if k == id {
        CancelledAccount(h.q.heap, h'.q.heap, h.origin[k], k in h.cancelled, FiredOf(h.log, k));
      } else {
        AccountSame(h.q.heap, h'.q.heap, h.origin[k], k in h.cancelled, FiredOf(h.log, k));
      }
    }
  }

  lemma IssuedId(h: History, id: int)
    requires Issued(h) && id in h.origin
    ensures h.origin[id].id == id && h.origin[id].interval >= 0
  {
  }

  lemma CancelledAccount(s: seq<Entry>, t: seq<Entry>, o: Entry, cancelled: bool, fired: seq<Entry>)
    requires Account(s, o, cancelled, fired)
    requires forall e :: e in t ==> e.id != o.id
    ensures Account(t, o, cancelled || Live(s, o.id), fired)
  {
  }

  // ---------- polling keeps the accounts ----------

  /** One iteration of the collecting loop, with its firing written down. */
  ghost function PollRound(h: History, now: int): History
    requires |h.q.heap| > 0
  {
    h.(q := h.q.(heap := Round(h.q.heap)), log := h.log + [Firing(h.q.heap[0], now)])
  }

  lemma RoundKeepsIssued(h: History, now: int)
    requires Issued(h) && RootDue(h.q.heap, now)
    ensures Issued(PollRound(h, now)) && Stepped(h.q.heap, Round(h.q.heap))
  {
    hide Round, UniqueIds;
    RoundStepped(h.q.heap);
    assert h.q.heap[0] in h.q.heap;
  }

  lemma RootAccount(s: seq<Entry>, t: seq<Entry>, o: Entry, cancelled: bool, fired: seq<Entry>)
    requires |s| > 0 && s[0].id == o.id && UniqueIds(multiset(s)) && Stepped(s, t)
    requires Account(s, o, cancelled, fired)
    ensures Account(t, o, cancelled, fired + [s[0]])
  {
    hide At;
    var root := s[0];
    assert root in s;
    assert root == At(o, |fired|);
    NextInstant(o, |fired|);
    forall e | e in t && e.id == o.id
      ensures o.interval != 0 && e == Reschedule(root)
    {
      assert e in s ==> e == root;
    }
    if o.interval != 0 {
      assert Reschedule(root) in t;
    }
  }

  lemma NextInstant(o: Entry, k: nat)
    ensures Reschedule(At(o, k)) == At(o, k + 1)
    ensures At(o, k).id == o.id && At(o, k).interval == o.interval
  {
    assert k * o.interval + o.interval == (k + 1) * o.interval;
  }

  lemma RoundKeepsLedger(h: History, now: int)
    requires Ledger(h) && RootDue(h.q.heap, now)
    ensures Ledger(PollRound(h, now))
  {
    hide Round, UniqueIds, Account, Issued, FiredOf;
    var h' := PollRound(h, now);
    RoundKeepsIssued(h, now);
    RootIssued(h);
    forall id | id in h'.origin
      ensures Account(h'.q.heap, h'.origin[id], id in h'.cancelled, FiredOf(h'.log, id))
    {
      IssuedId(h, id);
      FiredOfAppend(h.log, Firing(h.q.heap[0], now), id);
      if id == h.q.heap[0].id {
        RootAccount(h.q.heap, h'.q.heap, h.origin[id], id in h.cancelled, FiredOf(h.log, id));
      } else {
        assert FiredOf(h'.log, id) == FiredOf(h.log, id) + [] == FiredOf(h.log, id);
        SteppedElsewhere(h.q.heap, h'.q.heap, id);
        AccountSame(h.q.heap, h'.q.heap, h.origin[id], id in h.cancelled, FiredOf(h.log, id));
      }
    }
  }

  lemma RootIssued(h: History)
    requires Issued(h) && |h.q.heap| > 0
    ensures UniqueIds(multiset(h.q.heap))
  {
  }

  lemma SteppedElsewhere(s: seq<Entry>, t: seq<Entry>, id: int)
    requires |s| > 0 && Stepped(s, t) && id != s[0].id
    ensures forall e: Entry :: e.id == id ==> (e in s <==> e in t)
  {
  }

  lemma LedgerSettles(h: History, now: int)
    requires Ledger(h)
    ensures NonNegative(h.q.heap) && Settles(h.q.heap, now)
  {
  }

  /** The history after the whole collecting loop. */
  ghost function Polled(h: History, now: int): History
    requires Settles(h.q.heap, now)
  {
    var c := Collect(h.q.heap, now);
    h.(q := h.q.(heap := c.rest), log := h.log + Stamp(c.fired, now))
  }

  lemma {:induction false} CollectKeepsLedger(h: History, now: int)
    requires Ledger(h) && Settles(h.q.heap, now)
    ensures Ledger(Polled(h, now))
    decreases Lateness(h.q.heap, now)
  {
    hide Round, Ledger, Lateness, Settles, Collect;
    CollectUnfolds(h.q.heap, now);
    if RootDue(h.q.heap, now) {
      var h' := PollRound(h, now);
      RoundKeepsLedger(h, now);
      CollectKeepsLedger(h', now);
      var fired := Collect(h'.q.heap, now).fired;
      var all := [h.q.heap[0]] + fired;
      assert all[1..] == fired;
      assert h.log + Stamp(all, now) == h'.log + Stamp(fired, now);
      assert Polled(h, now) == Polled(h', now);
    } else {
      assert h.log + Stamp([], now) == h.log;
      assert Polled(h, now) == h;
    }
  }

  lemma PollKeepsLedger(h: History, now: int, again: int)
    requires Ledger(h) && NonNegative(h.q.heap)
    ensures Ledger(Step(h, PollOp(now, again)))
  {
    hide Account, UniqueIds, Collect;
    LedgerSettles(h, now);
    CollectKeepsLedger(h, now);
  }

  // ---------- whole runs ----------

  predicate AllProper(ops: seq<Op>) {
    forall i :: 0 <= i < |ops| ==> Proper(ops[i])
  }

  /** The history after performing `ops` on a new queue, in order. */
  ghost function Run(ops: seq<Op>): (h: History)
    requires AllProper(ops)
    ensures Ledger(h)
  {
    hide Step, Ledger;
    StartLedger();
    if ops == [] then NEW_HISTORY
    else
      var n := |ops| - 1;
      var h := Run(ops[..n]);
      StepKeepsLedger(h, ops[n]);
      Step(h, ops[n])
  }

  lemma StartLedger()
    ensures Ledger(NEW_HISTORY)
  {
  }

  lemma StepKeepsLedger(h: History, op: Op)
    requires Ledger(h) && Proper(op)
    ensures NonNegative(h.q.heap) && Ledger(Step(h, op))
  {
    hide Ledger, Step;
    LedgerSettles(h, 0);
    match op
    case AddOp(_, _, _, _) => AddKeepsLedger(h, op);
    case CancelOp(id) => CancelKeepsLedger(h, id);
    case PollOp(now, again) => PollKeepsLedger(h, now, again);
  }

  /** In every run, even once cancelling has lost heap order: the live ids are the
      issued ones minus the cancelled ones minus the one-shots that fired. */
  lemma LiveExactly(ops: seq<Op>, id: int)
    requires AllProper(ops)
    ensures var h := Run(ops);
      Live(h.q.heap, id) <==>
        && 1 <= id <= h.q.counter
        && id !in h.cancelled
        && !(h.origin[id].interval == 0 && FiredOf(h.log, id) != [])
  {
    hide Run, FiredOf, UniqueIds;
    var h := Run(ops);
    if id in h.origin {
      assert Account(h.q.heap, h.origin[id], id in h.cancelled, FiredOf(h.log, id));
    }
  }

  /** In every run the firings of an id are its first instants, in order, each
      once, and each after its instant. */
  lemma FiringsExact(ops: seq<Op>, id: int)
    requires AllProper(ops) && 1 <= id <= Run(ops).q.counter
    ensures var h := Run(ops);
      && id in h.origin
      && (forall k :: 0 <= k < |FiredOf(h.log, id)| ==> FiredOf(h.log, id)[k] == At(h.origin[id], k))
      && (forall i :: 0 <= i < |h.log| ==> h.log[i].entry.ts < h.log[i].clock)
  {
    hide Run, FiredOf, UniqueIds;
  }

  lemma RunLast(ops: seq<Op>, op: Op)
    requires AllProper(ops) && Proper(op)
    ensures AllProper(ops + [op]) && NonNegative(Run(ops).q.heap)
    ensures Run(ops + [op]) == Step(Run(ops), op)
  {
    hide Step, Ledger;
    LedgerSettles(Run(ops), 0);
    assert (ops + [op])[..|ops|] == ops;
  }

  /** Once an id was cancelled while live, no later poll collects it. */
  lemma {:induction false} CancelledStaysSilent(ops: seq<Op>, more: seq<Op>, id: int)
    requires AllProper(ops + more)
    requires AllProper(ops) && id in Run(ops).cancelled
    ensures id in Run(ops + more).cancelled
    ensures FiredOf(Run(ops + more).log, id) == FiredOf(Run(ops).log, id)
    decreases |more|
  {
    hide Run, Step, Ledger, FiredOf;
    if more == [] {
      assert ops + more == ops;
    } else {
      var n := |more| - 1;
      var early := ops + more[..n];
      assert forall i :: 0 <= i < |early| ==> early[i] == (ops + more)[i];
      CancelledStaysSilent(ops, more[..n], id);
      assert ops + more == early + [more[n]];
      assert Proper((ops + more)[|early|]);
      RunLast(early, more[n]);
      StepKeepsSilence(Run(early), more[n], id);
    }
  }

  lemma StepKeepsSilence(h: History, op: Op, id: int)
    requires Ledger(h) && NonNegative(h.q.heap) && id in h.cancelled
    ensures id in Step(h, op).cancelled && FiredOf(Step(h, op).log, id) == FiredOf(h.log, id)
  {
    hide Ledger, FiredOf, Collect, Settles;
    LedgerSettles(h, 0);
    if op.PollOp? {
      LedgerSettles(h, op.now);
      CollectKeepsSilence(h, op.now, id);
    }
  }

  lemma {:induction false} CollectKeepsSilence(h: History, now: int, id: int)
    requires Ledger(h) && Settles(h.q.heap, now) && id in h.cancelled
    ensures FiredOf(Polled(h, now).log, id) == FiredOf(h.log, id)
    decreases Lateness(h.q.heap, now)
  {
    hide Round, Ledger, Lateness, Settles, Collect, FiredOf;
    CollectUnfolds(h.q.heap, now);
    if RootDue(h.q.heap, now) {
      var root := h.q.heap[0];
      var h' := PollRound(h, now);
      RoundKeepsLedger(h, now);
      CancelledNotLive(h, id);
      FiredOfAppend(h.log, Firing(root, now), id);
      assert FiredOf(h'.log, id) == FiredOf(h.log, id) + [] == FiredOf(h.log, id);
      CollectKeepsSilence(h', now, id);
      var fired := Collect(h'.q.heap, now).fired;
      assert ([root] + fired)[1..] == fired;
      assert h.log + Stamp([root] + fired, now) == h'.log + Stamp(fired, now);
    } else {
      assert h.log + Stamp([], now) == h.log;
    }
  }

  lemma CancelledNotLive(h: History, id: int)
    requires Ledger(h) && id in h.cancelled && |h.q.heap| > 0
    ensures h.q.heap[0].id != id
  {
    hide FiredOf, UniqueIds;
    assert h.q.heap[0] in h.q.heap;
    assert id in h.origin;
    assert Account(h.q.heap, h.origin[id], true, FiredOf(h.log, id));
  }

  /** Every cancel of the run meets, at its time, the condition of CancelKeepsOrderIff. */
  ghost predicate Orderly(ops: seq<Op>)
    requires AllProper(ops)
    decreases |ops|
  {
    ops == [] ||
    var n := |ops| - 1;
    Orderly(ops[..n]) && (ops[n].CancelOp? ==> CancelFits(Run(ops[..n]).q.heap, ops[n].id))
  }

  /** The heap is ordered after every operation of the run. */
  ghost predicate AlwaysOrdered(ops: seq<Op>)
    requires AllProper(ops)
    decreases |ops|
  {
    HeapOrdered(Run(ops).q.heap) && (ops == [] || AlwaysOrdered(ops[..|ops| - 1]))
  }

  /** A run keeps the heap ordered throughout if and only if every cancel in it meets the
      condition; so every run of AddTimer and getExpired alone does. */
  lemma {:induction false} RunKeepsOrder(ops: seq<Op>)
    requires AllProper(ops)
    ensures AlwaysOrdered(ops) <==> Orderly(ops)
    decreases |ops|
  {
    hide Run, UniqueIds, Ledger, HeapOrdered, Push, Collect, Step, CancelFits;
    if ops == [] {
      RunOfNothing();
    } else {
      var n := |ops| - 1;
      assert ops == ops[..n] + [ops[n]];
      RunKeepsOrder(ops[..n]);
      RunLast(ops[..n], ops[n]);
      if AlwaysOrdered(ops[..n]) {
        OrderedNow(ops[..n]);
        StepKeepsOrder(Run(ops[..n]), ops[n]);
      }
    }
  }

  lemma OrderedNow(ops: seq<Op>)
    requires AllProper(ops) && AlwaysOrdered(ops)
    ensures HeapOrdered(Run(ops).q.heap)
  {
  }

  /** At every point of such a run ids are distinct, and the root has the least instant of
      all pending timers and, among those of that instant, the least id. */
  lemma RootIsNext(ops: seq<Op>)
    requires AllProper(ops) && Orderly(ops)
    ensures UniqueIds(multiset(Run(ops).q.heap))
    ensures var h := Run(ops).q.heap;
      forall e :: e in h ==> h[0].ts < e.ts || (h[0].ts == e.ts && h[0].id <= e.id)
  {
    hide Run, UniqueIds, Ledger, HeapOrdered, Orderly;
    LedgerUnique(Run(ops));
    RunKeepsOrder(ops);
    OrderedNow(ops);
    RootBelowAll(Run(ops).q.heap);
  }

  lemma RunOfNothing()
    ensures Run([]) == NEW_HISTORY && HeapOrdered(NEW_HISTORY.q.heap)
  {
  }

  lemma RootBelowAll(s: seq<Entry>)
    requires HeapOrdered(s)
    ensures forall e :: e in s ==> s[0].ts < e.ts || (s[0].ts == e.ts && s[0].id <= e.id)
  {
    forall e | e in s
      ensures s[0].ts < e.ts || (s[0].ts == e.ts && s[0].id <= e.id)
    {
      var k :| 0 <= k < |s| && s[k] == e;
      RootIsMinimum(s, k);
    }
  }

  lemma StepKeepsOrder(h: History, op: Op)
    requires Ledger(h) && NonNegative(h.q.heap) && HeapOrdered(h.q.heap)
    ensures HeapOrdered(Step(h, op).q.heap) <==> (op.CancelOp? ==> CancelFits(h.q.heap, op.id))
  {
    hide HeapOrdered, Push, Collect, Ledger, FiredExactly, RestExactly, StrictlySorted, UniqueIds, CancelFits, Without;
    LedgerUnique(h);
    match op
    case AddOp(at, interval, f, _) =>
      PushOrders(h.q.heap, Entry(h.q.counter + 1, at, interval, f));
    case CancelOp(id) =>
      CancelFitsIff(h.q.heap, id);
    case PollOp(now, _) =>
      LedgerSettles(h, now);
      CollectExact(h.q.heap, now);
  }

  lemma LedgerUnique(h: History)
    requires Ledger(h)
    ensures UniqueIds(multiset(h.q.heap))
  {
  }

  /** In a run whose cancels keep order, a poll at `now` leaves no instant before `now`
      uncollected: the next instant of every issued timer is not before `now`, or the
      timer was cancelled, or it was a one-shot that has fired. */
  lemma PollMissesNothing(ops: seq<Op>, now: int, again: int, id: int)
    requires AllProper(ops) && Orderly(ops)
    requires AllProper(ops + [PollOp(now, again)])
    requires 1 <= id <= Run(ops).q.counter
    ensures var h := Run(ops + [PollOp(now, again)]);
      && id in h.origin
      && var fired := FiredOf(h.log, id);
         || now <= At(h.origin[id], |fired|).ts
         || id in h.cancelled
         || (h.origin[id].interval == 0 && fired == [h.origin[id]])
  {
    hide Run, Ledger, Collect, HeapOrdered, UniqueIds, FiredOf, FiredExactly, RestExactly, StrictlySorted, Orderly;
    var h := Run(ops);
    RunKeepsOrder(ops);
    OrderedNow(ops);
    RunLast(ops, PollOp(now, again));
    LedgerSettles(h, now);
    LedgerUnique(h);
    CollectExact(h.q.heap, now);
    NothingDue(Run(ops + [PollOp(now, again)]), now, id);
  }

  lemma NothingDue(h: History, now: int, id: int)
    requires Ledger(h) && 1 <= id <= h.q.counter
    requires HeapOrdered(h.q.heap) && !RootDue(h.q.heap, now)
    ensures id in h.origin
    ensures var fired := FiredOf(h.log, id);
      || now <= At(h.origin[id], |fired|).ts
      || id in h.cancelled
      || (h.origin[id].interval == 0 && fired == [h.origin[id]])
  {
    hide FiredOf, UniqueIds, HeapOrdered, At;
    var fired := FiredOf(h.log, id);
    var o := h.origin[id];
    assert Account(h.q.heap, o, id in h.cancelled, fired);
    if Live(h.q.heap, id) {
      var e :| e in h.q.heap && e.id == id;
      NothingDueBelowRoot(h.q.heap, now, e);
    } else if id !in h.cancelled {
      AtNext(o, 0);
      assert fired == [fired[0]];
    }
  }
}
