/** pkg/cond: a condition variable whose waiters hold a channel and whose `Broadcast`
    closes it.  `Broadcast` is two atomic steps, the pointer swap and the close, and
    any number of broadcasters may be between the two.  Channels are numbered in the
    order they are made. */
module Cond {
  /** `n` is the channel new waiters get, `made` counts channels, `swapped` holds the
      channels some broadcaster has swapped out and not yet closed. */
  datatype State = State(n: nat, made: nat, swapped: set<nat>, closed: set<nat>)

  const NEW_COND := State(0, 1, {}, {})

  datatype Step = Swap | Close(chan: nat)

  predicate Enabled(s: State, st: Step) {
    st.Close? ==> st.chan in s.swapped
  }

  function Next(s: State, st: Step): State
    requires Enabled(s, st)
  {
    match st
    case Swap => s.(n := s.made, made := s.made + 1, swapped := s.swapped + {s.n})
    case Close(c) => s.(swapped := s.swapped - {c}, closed := s.closed + {c})
  }

  /** Every channel ever made is the current one, or waits to be closed, or is closed,
      and only one of these. */
  ghost predicate Partition(s: State) {
    && s.n < s.made && s.n !in s.swapped && s.n !in s.closed
    && s.swapped !! s.closed
    && forall c: nat :: c < s.made <==> c == s.n || c in s.swapped || c in s.closed
  }

  ghost predicate Run(s: State, steps: seq<Step>, r: State)
    decreases |steps|
  {
    if steps == [] then r == s else Enabled(s, steps[0]) && Run(Next(s, steps[0]), steps[1..], r)
  }

  /** Over every interleaving: no channel is closed twice, which would panic, and a
      channel captured at the start stays closed once closed. */
  lemma {:induction false} RunsPartition(s: State, steps: seq<Step>, r: State)
    requires Partition(s) && Run(s, steps, r)
    ensures Partition(r) && s.closed <= r.closed && s.made <= r.made
    ensures forall c :: c in r.swapped ==> c !in r.closed
    decreases |steps|
  {
    if steps != [] {
      RunsPartition(Next(s, steps[0]), steps[1..], r);
    }
  }

  /** A waiter that captured `s.n` is woken by any later broadcast: once a swap has
      happened and no broadcaster is between swap and close, its channel is closed;
      and as long as nobody swapped, it is still open. */
  lemma {:induction false} WaiterWakes(s: State, steps: seq<Step>, r: State)
    requires Partition(s) && Run(s, steps, r)
    ensures Swap in steps ==> s.n != r.n && (s.n in r.swapped || s.n in r.closed)
    ensures Swap in steps && r.swapped == {} ==> s.n in r.closed
    ensures Swap !in steps ==> r.n == s.n && s.n !in r.closed
    decreases |steps|
  {
    if steps != [] {
      var t := Next(s, steps[0]);
      RunsPartition(t, steps[1..], r);
      if steps[0].Close? {
        WaiterWakes(t, steps[1..], r);
      } else {
        Overtaken(t, steps[1..], r, s.n);
      }
    }
  }

  /** A channel once replaced never becomes current again. */
  lemma {:induction false} Overtaken(s: State, steps: seq<Step>, r: State, c: nat)
    requires Partition(s) && Run(s, steps, r) && c < s.made && c != s.n
    ensures c != r.n && (c in r.swapped || c in r.closed)
    decreases |steps|
  {
    if steps != [] {
      Overtaken(Next(s, steps[0]), steps[1..], r, c);
    }
  }

  function Swaps(steps: seq<Step>): nat
    decreases |steps|
  {
    if steps == [] then 0 else (if steps[0].Swap? then 1 else 0) + Swaps(steps[1..])
  }

  /** In every run the channels are used one after the other, one for each broadcast, and
      the closed ones are exactly those some broadcaster has closed. */
  lemma {:induction false} RunRecords(s: State, steps: seq<Step>, r: State)
    requires Run(s, steps, r) && s.made == s.n + 1
    ensures r.n == s.n + Swaps(steps) && r.made == r.n + 1
    ensures forall c :: c in r.closed <==> c in s.closed || Close(c) in steps
    ensures forall c :: c in r.swapped ==> c in s.swapped || s.n <= c < r.n
    decreases |steps|
  {
    if steps != [] {
      RunRecords(Next(s, steps[0]), steps[1..], r);
      assert forall st :: st in steps <==> st == steps[0] || st in steps[1..];
    }
  }

  /** The object: the atomic pointer and, for the proof, the fate of every channel. */
  class CondVar {
    var n: nat
    ghost var state: State

    ghost predicate Valid()
      reads this
    {
      Partition(state) && state.n == n
    }

    constructor ()
      ensures Valid() && state == NEW_COND
    {
      n := 0;
      state := NEW_COND;
    }

    method NotifyChan() returns (c: nat)
      requires Valid()
      ensures c == state.n && c !in state.closed
    {
      c := n;
    }

    /** The atomic swap; `made` numbers the channel just made. */
    method SwapChan(made: nat) returns (previous: nat)
      requires Valid() && made == state.made
      modifies this
      ensures Valid() && state == Next(old(state), Swap) && previous == old(state.n)
    {
      previous := n;
      n := made;
      state := Next(state, Swap);
    }

    /** close(ch): Go panics when the channel is closed already; it never is. */
    ghost method CloseChan(c: nat)
      requires Valid() && c in state.swapped
      modifies this
      ensures Valid() && c !in old(state.closed) && state == Next(old(state), Close(c))
    {
      state := Next(state, Close(c));
    }
  }
}
