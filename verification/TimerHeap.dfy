/** The binary heap of pending timers: the order on entries (`Less`) and the four
    operations Go's container/heap builds from `Less`, `Swap`, `Push` and `Pop`.

    Every operation is a function on sequences.  Nothing here assumes that the
    sequence is heap ordered: conservation of the entries holds of any sequence,
    and order is a separate lemma. */
module TimerHeap {

  /** One pending timer.  `ts` is the next trigger instant in nanoseconds,
      `interval` is 0 for a one-shot timer, `onTimer` names the callback. */
  datatype Entry = Entry(id: int, ts: int, interval: int, onTimer: nat)

  predicate Less(a: Entry, b: Entry) {
    if a.ts == b.ts then a.id < b.id else a.ts < b.ts
  }

  predicate AtMost(a: Entry, b: Entry) {
    !Less(b, a)
  }

  function Parent(j: nat): nat
    requires j > 0
  {
    (j - 1) / 2
  }

  ghost predicate HeapOrdered(s: seq<Entry>) {
    forall j :: 0 < j < |s| ==> AtMost(s[Parent(j)], s[j])
  }

  function Swap(s: seq<Entry>, i: nat, j: nat): (r: seq<Entry>)
    requires i < |s| && j < |s|
    ensures |r| == |s|
    ensures multiset(r) == multiset(s)
  {
    s[i := s[j]][j := s[i]]
  }

  /** container/heap `up`: move the element at `j` towards the root. */
  function SiftUp(s: seq<Entry>, j: nat): (r: seq<Entry>)
    requires j < |s|
    ensures |r| == |s|
    ensures multiset(r) == multiset(s)
    decreases j
  {
    if j == 0 || !Less(s[j], s[Parent(j)]) then s
    else SiftUp(Swap(s, Parent(j), j), Parent(j))
  }

  /** The smaller child of `i` among the first `n` elements. */
  function SmallerChild(s: seq<Entry>, i: nat, n: nat): (j: nat)
    requires 2 * i + 1 < n <= |s|
    ensures i < j < n && Parent(j) == i
    ensures forall c :: 0 < c < n && Parent(c) == i ==> AtMost(s[j], s[c])
  {
    var left := 2 * i + 1;
    if left + 1 < n && Less(s[left + 1], s[left]) then left + 1 else left
  }

  /** container/heap `down`: move the element at `i` towards the leaves of the
      first `n` elements. */
  function SiftDown(s: seq<Entry>, i: nat, n: nat): (r: seq<Entry>)
    requires i <= n <= |s|
    ensures |r| == |s|
    ensures multiset(r) == multiset(s)
    ensures forall k :: n <= k < |s| ==> r[k] == s[k]
    decreases n - i
  {
    if 2 * i + 1 >= n then s
    else
      var j := SmallerChild(s, i, n);
      if !Less(s[j], s[i]) then s
      else
        SiftDown(Swap(s, i, j), j, n)
  }

  lemma SiftDownUnfolds(s: seq<Entry>, i: nat, n: nat)
    requires i <= n <= |s|
    ensures SiftDown(s, i, n) ==
            if 2 * i + 1 >= n || !Less(s[SmallerChild(s, i, n)], s[i]) then s
            else SiftDown(Swap(s, i, SmallerChild(s, i, n)), SmallerChild(s, i, n), n)
  {
  }

  /** heap.Push */
  function Push(s: seq<Entry>, x: Entry): (r: seq<Entry>)
    ensures |r| == |s| + 1
    ensures multiset(r) == multiset(s) + multiset{x}
  {
    SiftUp(s + [x], |s|)
  }

  lemma PushedEntries(s: seq<Entry>, x: Entry)
    ensures forall e :: e in Push(s, x) <==> e in s || e == x
  {
    hide Push;
    forall e
      ensures e in Push(s, x) <==> e in s || e == x
    {
      assert e in Push(s, x) <==> e in multiset(Push(s, x));
    }
  }

  /** heap.Pop: swap the root with the last entry, sift the new root down the
      rest, cut the last entry off. */
  function Pop(s: seq<Entry>): (r: seq<Entry>)
    requires |s| > 0
    ensures |r| == |s| - 1
    ensures multiset(r) == multiset(s) - multiset{s[0]}
  {
    hide SiftDown, Swap;
    var n := |s| - 1;
    var t := SiftDown(Swap(s, 0, n), 0, n);
    SwapEnds(s, n);
    CutLast(t, n);
    t[..n]
  }

  lemma SwapEnds(s: seq<Entry>, n: nat)
    requires n < |s|
    ensures Swap(s, 0, n)[n] == s[0]
  {
  }

  lemma SplitLast(t: seq<Entry>, n: nat)
    requires |t| == n + 1
    ensures t == t[..n] + [t[n]]
  {
  }

  lemma CutLast(t: seq<Entry>, n: nat)
    requires |t| == n + 1
    ensures multiset(t[..n]) == multiset(t) - multiset{t[n]}
  {
    SplitLast(t, n);
  }

  lemma PopIsCut(s: seq<Entry>)
    requires |s| > 0
    ensures var t := SiftDown(Swap(s, 0, |s| - 1), 0, |s| - 1);
            Pop(s) == t[..|s| - 1] && t[|s| - 1] == s[0]
  {
    hide SiftDown, Swap;
    SwapEnds(s, |s| - 1);
  }

  lemma Joined(t: seq<Entry>, front: seq<Entry>, last: Entry, n: nat)
    requires |t| == n + 1 && front == t[..n] && last == t[n]
    ensures t == front + [last]
  {
    SplitLast(t, n);
  }

  /** What `down` leaves behind the cut is the former root. */
  lemma PopShape(s: seq<Entry>)
    requires |s| > 0
    ensures SiftDown(Swap(s, 0, |s| - 1), 0, |s| - 1) == Pop(s) + [s[0]]
  {
    hide SiftDown, Swap, Pop;
    PopIsCut(s);
    Joined(SiftDown(Swap(s, 0, |s| - 1), 0, |s| - 1), Pop(s), s[0], |s| - 1);
  }

  // ---------- order ----------

  /** Everything is ordered except possibly `j` against its parent; the children
      of `j` are already at least the parent of `j`. */
  ghost predicate OrderedBut(s: seq<Entry>, j: nat) {
    && (forall k :: 0 < k < |s| && k != j ==> AtMost(s[Parent(k)], s[k]))
    && (forall k :: 0 < k < |s| && Parent(k) == j && j > 0 ==> AtMost(s[Parent(j)], s[k]))
  }

  lemma SwapUpOrders(s: seq<Entry>, j: nat)
    requires 0 < j < |s| && OrderedBut(s, j) && Less(s[j], s[Parent(j)])
    ensures OrderedBut(Swap(s, Parent(j), j), Parent(j))
  {
    var i := Parent(j);
    var t := Swap(s, i, j);
    forall k | 0 < k < |t| && k != i
      ensures AtMost(t[Parent(k)], t[k])
      ensures Parent(k) == i && i > 0 ==> AtMost(t[Parent(i)], t[k])
    {
      assert k != j ==> AtMost(s[Parent(k)], s[k]);
      assert i > 0 ==> AtMost(s[Parent(i)], s[i]);
    }
  }

  lemma {:induction false} SiftUpOrders(s: seq<Entry>, j: nat)
    requires j < |s| && OrderedBut(s, j)
    ensures HeapOrdered(SiftUp(s, j))
    decreases j
  {
    if j == 0 || !Less(s[j], s[Parent(j)]) {
    } else {
      SwapUpOrders(s, j);
      SiftUpOrders(Swap(s, Parent(j), j), Parent(j));
    }
  }

  /** The first `n` elements are ordered except possibly `i` against its children. */
  ghost predicate OrderedBelow(s: seq<Entry>, i: nat, n: nat)
    requires n <= |s|
  {
    && (forall k :: 0 < k < n && Parent(k) != i ==> AtMost(s[Parent(k)], s[k]))
    && (forall k :: 0 < k < n && Parent(k) == i && i > 0 ==> AtMost(s[Parent(i)], s[k]))
  }

  lemma SwapDownOrders(s: seq<Entry>, i: nat, n: nat)
    requires 2 * i + 1 < n <= |s| && OrderedBelow(s, i, n) && Less(s[SmallerChild(s, i, n)], s[i])
    ensures OrderedBelow(Swap(s, i, SmallerChild(s, i, n)), SmallerChild(s, i, n), n)
  {
    var j := SmallerChild(s, i, n);
    var t := Swap(s, i, j);
    forall k | 0 < k < n
      ensures Parent(k) != j ==> AtMost(t[Parent(k)], t[k])
      ensures Parent(k) == j ==> AtMost(t[Parent(j)], t[k])
    {
      assert Parent(k) != i ==> AtMost(s[Parent(k)], s[k]);
      assert Parent(k) == i ==> AtMost(s[j], s[k]);
    }
  }

  lemma {:induction false} SiftDownOrders(s: seq<Entry>, i: nat, n: nat)
    requires i <= n <= |s| && OrderedBelow(s, i, n)
    ensures HeapOrdered(SiftDown(s, i, n)[..n])
    decreases n - i
  {
    if 2 * i + 1 < n {
      var j := SmallerChild(s, i, n);
      if Less(s[j], s[i]) {
        SwapDownOrders(s, i, n);
        SiftDownOrders(Swap(s, i, j), j, n);
      }
    }
  }

  lemma PushOrders(s: seq<Entry>, x: Entry)
    requires HeapOrdered(s)
    ensures HeapOrdered(Push(s, x))
  {
    assert OrderedBut(s + [x], |s|);
    SiftUpOrders(s + [x], |s|);
  }

  lemma PopOrders(s: seq<Entry>)
    requires |s| > 0 && HeapOrdered(s)
    ensures HeapOrdered(Pop(s))
  {
    var n := |s| - 1;
    assert OrderedBelow(Swap(s, 0, n), 0, n);
    SiftDownOrders(Swap(s, 0, n), 0, n);
  }

  /** The root has the least instant of all entries and, among those of that instant, the
      least id. */
  lemma {:induction false} RootIsMinimum(s: seq<Entry>, k: nat)
    requires HeapOrdered(s) && k < |s|
    ensures AtMost(s[0], s[k])
    ensures s[0].ts < s[k].ts || (s[0].ts == s[k].ts && s[0].id <= s[k].id)
  {
    if k > 0 {
      RootIsMinimum(s, Parent(k));
    }
  }
}
