/** The timer queue: `AddTimer`, `CancelTimer`, `getExpired` and the programming of
    the timerfd.  Clock readings are parameters, in nanoseconds. */
module TimerQueue {
  import opened TimerHeap
  import opened TimerExpiry

  const NANOS := 1_000_000_000

  /** The `it_value` handed to timerfd_settime(2); all zero disarms the timer. */
  datatype Timespec = Timespec(sec: int, nsec: int) {
    function Delay(): int {
      sec * NANOS + nsec
    }

    predicate Disarmed() {
      sec == 0 && nsec == 0
    }
  }

  function ToTimespec(nanos: nat): (t: Timespec)
    ensures t.Delay() == nanos == t.sec * 1_000_000_000 + t.nsec && 0 <= t.nsec < 1_000_000_000
    ensures t.Disarmed() <==> nanos == 0
  {
    Timespec(nanos / NANOS, nanos % NANOS)
  }

  /** Nanoseconds from `now` to `earliest`, or `floor` when that instant has come. */
  function DelayUntil(earliest: int, now: int, floor: nat): nat {
    if now < earliest then earliest - now else floor
  }

  datatype Queue = Queue(counter: int, heap: seq<Entry>, armed: Timespec)

  const NEW_QUEUE := Queue(0, [], Timespec(0, 0))

  /** AddTimer: a fresh id, a heap push, and the timerfd set for the root with a
      floor of one nanosecond. */
  function Add(q: Queue, triggerAt: int, interval: int, f: nat, now: int): Queue {
    var h := Push(q.heap, Entry(q.counter + 1, triggerAt, interval, f));
    Queue(q.counter + 1, h, ToTimespec(DelayUntil(h[0].ts, now, 1)))
  }

  /** The array `CancelTimer` builds: every entry but those with this id, in array
      order, with no re-heapifying. */
  function Without(s: seq<Entry>, id: int): (r: seq<Entry>)
    ensures |r| <= |s|
  {
    if s == [] then []
    else
      var last := s[|s| - 1];
      Without(s[..|s| - 1], id) + if last.id == id then [] else [last]
  }

  predicate Live(s: seq<Entry>, id: int) {
    exists e :: e in s && e.id == id
  }

  function Cancel(q: Queue, id: int): Queue {
    q.(heap := Without(q.heap, id))
  }

  /** getExpired at clock reading `now`; `again` is its second clock reading. */
  function Poll(q: Queue, now: int, again: int): Queue
    requires Settles(q.heap, now)
  {
    Left(q, Collect(q.heap, now).rest, again)
  }

  /** The queue once `rest` is left: the timerfd is set unless nothing is. */
  function Left(q: Queue, rest: seq<Entry>, again: int): Queue {
    if rest == [] then q.(heap := rest)
    else q.(heap := rest, armed := ToTimespec(DelayUntil(rest[0].ts, again, 0)))
  }

  /** A timer added with a negative interval: once it is due, getExpired never returns. */
  lemma AddedTimerCanHang(at: int, interval: int, f: nat, clock: int, now: int, n: nat)
    requires interval < 0 && at < now
    ensures !EndsWithin(Add(NEW_QUEUE, at, interval, f, clock).heap, now, n)
  {
    hide EndsWithin, ToTimespec;
    var e := Entry(1, at, interval, f);
    assert [] + [e] == [e] && Push([], e) == [e];
    assert e in [e];
    NegativeIntervalNeverEnds([e], now, e, n);
  }

  class TimerQueue {
    var timerIdCounter: int
    var heap: seq<Entry>
    var armed: Timespec

    ghost function View(): Queue
      reads this
    {
      Queue(timerIdCounter, heap, armed)
    }

    constructor ()
      ensures View() == NEW_QUEUE
    {
      timerIdCounter := 0;
      heap := [];
      armed := Timespec(0, 0);
    }

    method SwapEntries(i: nat, j: nat)
      requires i < |heap| && j < |heap|
      modifies this`heap
      ensures heap == Swap(old(heap), i, j)
    {
      heap := heap[i := heap[j]][j := heap[i]];
    }

    method Up(start: nat)
      requires start < |heap|
      modifies this`heap
      ensures heap == SiftUp(old(heap), start)
    {
      var j: nat := start;
      while true
        invariant j < |heap|
        invariant SiftUp(heap, j) == SiftUp(old(heap), start)
        decreases j
      {
        if j == 0 {
          break;
        }
        var i := (j - 1) / 2;
        if !Less(heap[j], heap[i]) {
          break;
        }
        SwapEntries(i, j);
        j := i;
      }
    }

    method Down(start: nat, n: nat)
      requires start <= n <= |heap|
      modifies this`heap
      ensures heap == SiftDown(old(heap), start, n)
    {
      hide SiftDown, Swap;
      var i: nat := start;
      while true
        invariant i <= n <= |heap|
        invariant SiftDown(heap, i, n) == SiftDown(old(heap), start, n)
        decreases n - i
      {
        SiftDownUnfolds(heap, i, n);
        var left := 2 * i + 1;
        if left >= n {
          break;
        }
        var j := left;
        if left + 1 < n && Less(heap[left + 1], heap[left]) {
          j := left + 1;
        }
        assert j == SmallerChild(heap, i, n);
        if !Less(heap[j], heap[i]) {
          break;
        }
        SwapEntries(i, j);
        i := j;
      }
    }

    method HeapPush(x: Entry)
      modifies this`heap
      ensures heap == Push(old(heap), x)
    {
      heap := heap + [x];
      Up(|heap| - 1);
    }

    method HeapPop() returns (x: Entry)
      requires |heap| > 0
      modifies this`heap
      ensures heap == Pop(old(heap)) && x == old(heap[0])
    {
      var n := |heap| - 1;
      SwapEntries(0, n);
      Down(0, n);
      PopShape(old(heap));
      x := heap[n];
      heap := heap[..n];
    }

    /** timerfd_settime for the root, never below `floor` nanoseconds. */
    method Arm(now: int, floor: nat)
      requires |heap| > 0
      modifies this`armed
      ensures armed == ToTimespec(DelayUntil(heap[0].ts, now, floor))
    {
      var nsec := floor;
      var earliest := heap[0].ts;
      if now < earliest {
        nsec := earliest - now;
      }
      armed := Timespec(nsec / NANOS, nsec % NANOS);
    }

    method AddTimer(triggerAt: int, interval: int, f: nat, now: int) returns (id: int)
      modifies this
      ensures View() == Add(old(View()), triggerAt, interval, f, now)
      ensures id == old(timerIdCounter) + 1
    {
      hide Push, ToTimespec;
      timerIdCounter := timerIdCounter + 1;
      id := timerIdCounter;
      HeapPush(Entry(id, triggerAt, interval, f));
      Arm(now, 1);
    }

    method CancelTimer(timerId: int) returns (ok: bool)
      modifies this`heap
      ensures View() == Cancel(old(View()), timerId)
      ensures ok <==> Live(old(heap), timerId)
    {
      var newHeap: seq<Entry> := [];
      ok := false;
      for i := 0 to |heap|
        invariant newHeap == Without(heap[..i], timerId)
        invariant ok <==> Live(heap[..i], timerId)
      {
        assert heap[..i + 1] == heap[..i] + [heap[i]];
        if heap[i].id == timerId {
          assert heap[i] in heap[..i + 1];
          ok := true;
        } else {
          newHeap := newHeap + [heap[i]];
        }
      }
      assert heap[..|heap|] == heap;
      heap := newHeap;
    }

    /** One iteration of the collecting loop. */
    method CollectRoot() returns (minOne: Entry)
      requires |heap| > 0
      modifies this`heap
      ensures heap == Round(old(heap)) && minOne == old(heap[0])
    {
      hide *;
      minOne := heap[0];
      var _ := HeapPop();
      if minOne.interval != 0 {
        var again := minOne.(ts := minOne.ts + minOne.interval);
        HeapPush(again);
        RoundAgain(old(heap), again);
      } else {
        RoundOnce(old(heap));
      }
    }

    /** `n` bounds the iterations: there is such a bound exactly when the loop ends. */
    method GetExpired(now: int, again: int, ghost n: nat) returns (te: seq<Entry>)
      requires EndsWithin(heap, now, n)
      modifies this`heap, this`armed
      ensures te == CollectUpTo(old(heap), now, n).fired
      ensures View() == Left(old(View()), CollectUpTo(old(heap), now, n).rest, again)
      ensures Settles(old(heap), now) ==>
        te == Collect(old(heap), now).fired && View() == Poll(old(View()), now, again)
    {
      hide Round, Settles, ToTimespec, Collect, CollectUpTo, EndsWithin;
      te := [];
      ghost var left := n;
      ghost var all := CollectUpTo(heap, now, n);
      while |heap| != 0 && heap[0].ts < now
        invariant armed == old(armed) && EndsWithin(heap, now, left)
        invariant all.rest == CollectUpTo(heap, now, left).rest
        invariant all.fired == te + CollectUpTo(heap, now, left).fired
        decreases left
      {
        UpToUnfolds(heap, now, left);
        var minOne := CollectRoot();
        left := left - 1;
        CollectedSoFar(te, minOne, CollectUpTo(heap, now, left).fired);
        te := te + [minOne];
      }
      UpToUnfolds(heap, now, left);
      assert te + [] == te;
      if Settles(old(heap), now) {
        UpToIsCollect(old(heap), now, n);
      }
      if |heap| != 0 {
        Arm(again, 0);
      }
    }
  }
}
