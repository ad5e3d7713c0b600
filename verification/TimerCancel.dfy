/** What CancelTimer does to the heap array. */
module TimerCancel {
  import opened TimerHeap
  import opened TimerExpiry
  import opened TimerQueue

  lemma {:induction false} WithoutMembers(s: seq<Entry>, id: int)
    ensures forall e :: e in Without(s, id) <==> e in s && e.id != id
    ensures !Live(s, id) ==> Without(s, id) == s
  {
    if s != [] {
      var last := s[|s| - 1];
      WithoutMembers(s[..|s| - 1], id);
      assert s == s[..|s| - 1] + [last];
      if !Live(s, id) {
        assert last in s;
        assert forall e :: e in s[..|s| - 1] ==> e in s;
      }
    }
  }

  lemma {:induction false} WithoutMultiset(s: seq<Entry>, id: int)
    ensures forall e :: multiset(Without(s, id))[e] == if e.id == id then 0 else multiset(s)[e]
  {
    if s != [] {
      var last := s[|s| - 1];
      WithoutMultiset(s[..|s| - 1], id);
      assert s == s[..|s| - 1] + [last];
    }
  }

  /** Cancelling the entry at index `p` closes the gap: later entries move one slot
      down, the others stay. */
  lemma {:induction false} WithoutShape(s: seq<Entry>, p: nat)
    requires p < |s| && forall i :: 0 <= i < |s| && i != p ==> s[i].id != s[p].id
    ensures Without(s, s[p].id) == s[..p] + s[p + 1..]
  {
    var n := |s| - 1;
    var init := s[..n];
    if p == n {
      assert forall e :: e in init ==> exists i :: 0 <= i < n && init[i] == e;
      assert !Live(init, s[p].id);
      WithoutMembers(init, s[p].id);
      assert s[p + 1..] == [];
    } else {
      WithoutShape(init, p);
      assert init[..p] + init[p + 1..] + [s[n]] == s[..p] + s[p + 1..];
    }
  }

  /** Where slot `i` of the array came from when slot `p` was cut out. */
  function Source(i: nat, p: nat): nat {
    if i < p then i else i + 1
  }

  /** Entry `k`, once moved down one slot, is at least its new parent, where heap order
      does not already say so: odd slots up to 2p + 1 lose their parent to the slot
      before it, even slots from 2p + 2 on to the slot behind it. */
  predicate FitsNewParent(s: seq<Entry>, p: nat, k: nat) {
    p < k < |s| ==>
      && (k % 2 == 1 && 1 < k <= 2 * p + 1 ==> AtMost(s[(k - 3) / 2], s[k]))
      && (k % 2 == 0 && k >= 2 * p + 2 ==> AtMost(s[k / 2], s[k]))
  }

  ghost predicate NewParentsFit(s: seq<Entry>, p: nat) {
    forall k: nat :: FitsNewParent(s, p, k)
  }

  /** `r` is `s` with slot `p` cut out. */
  ghost predicate CutOut(s: seq<Entry>, p: nat, r: seq<Entry>) {
    p < |s| == |r| + 1 && forall i {:trigger r[i]} :: 0 <= i < |r| ==> r[i] == s[Source(i, p)]
  }

  lemma GapClosedOrders(s: seq<Entry>, p: nat, r: seq<Entry>, j: nat)
    requires CutOut(s, p, r) && 0 < j < |r|
    requires AtMost(s[Parent(j)], s[j]) && AtMost(s[Parent(j + 1)], s[j + 1])
    ensures AtMost(r[Parent(j)], r[j]) <==> j < p || FitsNewParent(s, p, j + 1)
  {
    hide AtMost;
    assert r[j] == s[Source(j, p)];
    assert r[Parent(j)] == s[Source(Parent(j), p)];
  }

  lemma GapClosedIff(s: seq<Entry>, p: nat, r: seq<Entry>)
    requires HeapOrdered(s) && CutOut(s, p, r)
    ensures HeapOrdered(r) <==> NewParentsFit(s, p)
  {
    hide AtMost, FitsNewParent, CutOut;
    if HeapOrdered(r) {
      forall k: nat
        ensures FitsNewParent(s, p, k)
      {
        GapClosedFits(s, p, r, k);
      }
    }
    if NewParentsFit(s, p) {
      GapClosedHeap(s, p, r);
    }
  }

  lemma GapClosedFits(s: seq<Entry>, p: nat, r: seq<Entry>, k: nat)
    requires HeapOrdered(s) && CutOut(s, p, r) && HeapOrdered(r)
    ensures FitsNewParent(s, p, k)
  {
    hide AtMost;
    if p < k < |s| && k > 1 {
      GapClosedOrders(s, p, r, k - 1);
    }
  }

  lemma GapClosedHeap(s: seq<Entry>, p: nat, r: seq<Entry>)
    requires HeapOrdered(s) && CutOut(s, p, r) && NewParentsFit(s, p)
    ensures HeapOrdered(r)
  {
    hide AtMost, FitsNewParent;
    forall j | 0 < j < |r|
      ensures AtMost(r[Parent(j)], r[j])
    {
      assert FitsNewParent(s, p, j + 1);
      GapClosedOrders(s, p, r, j);
    }
  }

  /** CancelTimer keeps the heap ordered if and only if every entry behind the
      cancelled one is at least the entry that becomes its parent. */
  lemma CancelKeepsOrderIff(s: seq<Entry>, p: nat)
    requires HeapOrdered(s)
    requires p < |s| && forall i :: 0 <= i < |s| && i != p ==> s[i].id != s[p].id
    ensures HeapOrdered(Without(s, s[p].id)) <==> NewParentsFit(s, p)
  {
    hide Without, HeapOrdered, NewParentsFit;
    WithoutShape(s, p);
    GapClosedIff(s, p, s[..p] + s[p + 1..]);
  }

  /** Cancelling `id` meets that condition; an id that is not live meets it. */
  ghost predicate CancelFits(s: seq<Entry>, id: int) {
    forall p: nat :: p < |s| && s[p].id == id ==> NewParentsFit(s, p)
  }

  lemma UniqueSlots(s: seq<Entry>, i: nat, j: nat)
    requires UniqueIds(multiset(s)) && i < j < |s|
    ensures s[i].id != s[j].id
  {
    assert s == s[..j] + s[j..];
    assert s[i] in s[..j] && s[j] in s[j..];
    assert multiset(s) == multiset(s[..j]) + multiset(s[j..]);
    assert s[i] == s[j] ==> multiset(s)[s[i]] >= 2;
  }

  lemma CancelFitsIff(s: seq<Entry>, id: int)
    requires HeapOrdered(s) && UniqueIds(multiset(s))
    ensures HeapOrdered(Without(s, id)) <==> CancelFits(s, id)
  {
    hide Without, HeapOrdered, NewParentsFit, UniqueIds;
    if Live(s, id) {
      var e :| e in s && e.id == id;
      var p: nat :| p < |s| && s[p] == e;
      forall i | 0 <= i < |s| && i != p
        ensures s[i].id != id
      {
        UniqueSlots(s, if i < p then i else p, if i < p then p else i);
      }
      CancelKeepsOrderIff(s, p);
    } else {
      WithoutMembers(s, id);
      forall p: nat | p < |s|
        ensures s[p].id != id
      {
        assert s[p] in s;
      }
    }
  }

  const AT_1 := Entry(1, 1, 0, 0)
  const AT_5 := Entry(2, 5, 0, 0)
  const AT_2 := Entry(3, 2, 0, 0)

  const LEFT := [AT_5, AT_2]

  /** Timers added for instants 1, 5 and 2: cancelling the first loses heap order. */
  lemma CancelCanLoseOrder()
    ensures var q := Add(Add(Add(NEW_QUEUE, 1, 0, 0, 0), 5, 0, 0, 0), 2, 0, 0, 0);
      && q.heap == [AT_1, AT_5, AT_2] && HeapOrdered(q.heap)
      && Cancel(q, 1).heap == LEFT && !HeapOrdered(LEFT)
      && !FitsNewParent(q.heap, 0, 2)
  {
    hide Push, HeapOrdered, Without, FitsNewParent, ToTimespec, DelayUntil;
    ThreeAdds();
    ThreeMinusFirst();
  }

  lemma ThreeMinusFirst()
    ensures var three := [AT_1, AT_5, AT_2];
      && HeapOrdered(three) && Without(three, 1) == LEFT && !HeapOrdered(LEFT) && !FitsNewParent(three, 0, 2)
  {
    hide Without;
    var three := [AT_1, AT_5, AT_2];
    WithoutShape(three, 0);
    assert three[..0] + three[1..] == LEFT;
    assert !AtMost(LEFT[Parent(1)], LEFT[1]);
  }

  /** A poll of what is left at 4 collects nothing although instant 2 has passed. */
  lemma CancelCanHideDueTimer()
    ensures Settles(LEFT, 4) && Due(LEFT[1], 4) && Collect(LEFT, 4) == Collected([], LEFT)
  {
  }

  lemma ThreeAdds()
    ensures Push([], AT_1) == [AT_1] && Push([AT_1], AT_5) == [AT_1, AT_5]
    ensures Push([AT_1, AT_5], AT_2) == [AT_1, AT_5, AT_2]
  {
    assert [AT_1] + [AT_5] == [AT_1, AT_5];
    assert [AT_1, AT_5] + [AT_2] == [AT_1, AT_5, AT_2];
  }
}
