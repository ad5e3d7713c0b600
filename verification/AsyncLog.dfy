/** The asynchronous logger: producers calling `Logf`, one flusher goroutine, and
    the log buffers they hand to each other.

    The mutex makes each critical section one atomic step.  `Step` performs one, and
    a run is any interleaving of producer and flusher steps.  A buffer carries the
    number under which it was made, so that "no buffer is in two places at
    once" is a statement about the state and not an assumption. */
module AsyncLog {
  import opened Bytes

  // ---------- log_buffer.go ----------

  /** A byte slice whose capacity is the logger's buffer size. */
  datatype Buffer = Buffer(id: nat, data: seq<byte>) {
    predicate Empty() {
      |data| == 0
    }

    function Reset(): Buffer {
      this.(data := [])
    }

    predicate Fits(bs: seq<byte>, capacity: nat) {
      |data| + |bs| <= capacity
    }

    /** A record that does not fit is refused and leaves the buffer as it is. */
    function Append(bs: seq<byte>, capacity: nat): Buffer {
      if Fits(bs, capacity) then this.(data := data + bs) else this
    }
  }

  // ---------- log.go ----------

  /** Where the flusher goroutine stands between two of its atomic steps. */
  datatype Phase =
    | Idle                // about to take the lock
    | Waiting(chan: nat)  // in WaitWithTimeout, on the channel it captured
    | Writing             // lock released, writing the batch buffer by buffer

  /** `notify` is the generation of the channel a new waiter gets and `closed` holds
      the generations whose channel is closed (pkg/cond); `made` counts allocations;
      `written` is the part of the flusher's batch already written and reset, and
      `toWrite` the rest of it. */
  datatype Log = Log(
    size: nat,
    current: Buffer,
    backup: seq<Buffer>,
    full: seq<Buffer>,
    made: nat,
    notify: nat,
    closed: set<nat>,
    phase: Phase,
    written: seq<Buffer>,
    toWrite: seq<Buffer>,
    file: seq<byte>)

  function NewBuffers(first: nat, n: nat): (r: seq<Buffer>)
    ensures |r| == n && forall i :: 0 <= i < n ==> r[i] == Buffer(first + i, [])
  {
    seq(n, i requires 0 <= i => Buffer(first + i, []))
  }

  function NewLog(backups: nat, size: nat): Log {
    Log(size, Buffer(backups, []), NewBuffers(0, backups), [], backups + 1, 0, {}, Idle, [], [], [])
  }

  /** The current buffer joins the full ones; the last spare buffer takes its place,
      or a new one when none is spare. */
  function Rotate(l: Log): Log {
    var full := l.full + [l.current];
    if |l.backup| != 0 then
      l.(full := full, current := l.backup[|l.backup| - 1], backup := l.backup[..|l.backup| - 1])
    else
      l.(full := full, current := Buffer(l.made, []), made := l.made + 1)
  }

  /** cond.Broadcast: swap in a fresh channel, close the one it replaced. */
  function Broadcast(l: Log): Log {
    l.(notify := l.notify + 1, closed := l.closed + {l.notify})
  }

  function Store(l: Log, s: seq<byte>): Log {
    l.(current := l.current.Append(s, l.size))
  }

  /** Logf with the record already formatted; one that is larger than a buffer panics
      before anything is touched. */
  function Logf(l: Log, s: seq<byte>): Log {
    if |s| > l.size then l
    else if l.current.Fits(s, l.size) then Store(l, s)
    else Broadcast(Store(Rotate(l), s))
  }

  /** The flusher, holding the lock: take everything there is to write. */
  function TakeBatch(l: Log): Log {
    var r := if l.current.Empty() then l else Rotate(l);
    r.(phase := Writing, written := [], toWrite := r.full, full := [])
  }

  /** The next atomic step of the flusher.  A waiting flusher can always go on,
      because its wait times out. */
  function Flush(l: Log): Log {
    match l.phase
    case Idle => if l.current.Empty() then l.(phase := Waiting(l.notify)) else TakeBatch(l)
    case Waiting(_) => TakeBatch(l)
    case Writing =>
      if |l.toWrite| != 0 then
        l.(file := l.file + l.toWrite[0].data, written := l.written + [l.toWrite[0].Reset()], toWrite := l.toWrite[1..])
      else
        l.(phase := Idle, backup := l.backup + l.written, written := [])
  }

  // ---------- the invariant ----------

  /** The bytes held by a group of buffers, in order. */
  function Held(bs: seq<Buffer>): seq<byte> {
    if bs == [] then [] else bs[0].data + Held(bs[1..])
  }

  lemma {:induction false} HeldAppend(a: seq<Buffer>, b: seq<Buffer>)
    ensures Held(a + b) == Held(a) + Held(b)
  {
    if a == [] {
      assert a + b == b;
    } else {
      assert (a + b)[1..] == a[1..] + b;
      HeldAppend(a[1..], b);
    }
  }

  lemma HeldLast(a: seq<Buffer>, x: Buffer)
    ensures Held(a + [x]) == Held(a) + x.data
  {
    HeldAppend(a, [x]);
    assert Held([x]) == x.data + Held([]) == x.data;
  }

  /** Everything accepted and not yet dropped, oldest first. */
  function Stream(l: Log): seq<byte> {
    l.file + Held(l.toWrite) + Held(l.full) + l.current.data
  }

  ghost function Ids(bs: seq<Buffer>): (m: multiset<nat>)
    ensures |m| == |bs|
  {
    if bs == [] then multiset{} else multiset{bs[0].id} + Ids(bs[1..])
  }

  lemma {:induction false} IdsAppend(a: seq<Buffer>, b: seq<Buffer>)
    ensures Ids(a + b) == Ids(a) + Ids(b)
  {
    if a == [] {
      assert a + b == b;
    } else {
      assert (a + b)[1..] == a[1..] + b;
      IdsAppend(a[1..], b);
    }
  }

  lemma IdsLast(a: seq<Buffer>, x: Buffer)
    ensures Ids(a + [x]) == Ids(a) + multiset{x.id}
  {
    IdsAppend(a, [x]);
    assert Ids([x]) == multiset{x.id} + Ids([]);
  }

  ghost function Census(l: Log): multiset<nat> {
    multiset{l.current.id} + Ids(l.backup) + Ids(l.full) + Ids(l.written) + Ids(l.toWrite)
  }

  /** Every buffer ever made is in exactly one place: none shared, none leaked. */
  ghost predicate Owned(l: Log) {
    forall id: nat :: Census(l)[id] == if id < l.made then 1 else 0
  }

  ghost predicate AllEmpty(bs: seq<Buffer>) {
    forall i :: 0 <= i < |bs| ==> bs[i].data == []
  }

  ghost predicate NoneEmpty(bs: seq<Buffer>, size: nat) {
    forall i :: 0 <= i < |bs| ==> 0 < |bs[i].data| <= size
  }

  /** Spare buffers are empty, buffers waiting to be written are not, no buffer is
      over its capacity, and full buffers never wait behind an empty current one. */
  ghost predicate Filled(l: Log) {
    && AllEmpty(l.backup) && AllEmpty(l.written)
    && NoneEmpty(l.full, l.size) && NoneEmpty(l.toWrite, l.size)
    && |l.current.data| <= l.size
    && (l.full != [] ==> !l.current.Empty())
    && (!l.phase.Writing? ==> l.toWrite == [] && l.written == [])
  }

  /** Any two neighbours carry more than `size` bytes together. */
  ghost predicate Heavy(bs: seq<Buffer>, size: nat) {
    forall i :: 0 <= i < |bs| - 1 ==> |bs[i].data| + |bs[i + 1].data| > size
  }

  ghost predicate Dense(l: Log) {
    Heavy(l.full + [l.current], l.size) && Heavy(l.toWrite, l.size)
  }

  /** Channels are closed in order and each once; a flusher that waits while buffers
      are full waits on a closed channel. */
  ghost predicate Signalled(l: Log) {
    && (forall g: nat :: g in l.closed <==> g < l.notify)
    && (l.phase.Waiting? ==> l.phase.chan <= l.notify && (l.full != [] ==> l.phase.chan in l.closed))
  }

  ghost predicate Valid(l: Log) {
    l.size > 0 && Owned(l) && Filled(l) && Dense(l) && Signalled(l)
  }

  // ---------- every step keeps it ----------

  lemma RotateCensus(l: Log)
    ensures Census(Rotate(l)) == Census(l) + if |l.backup| != 0 then multiset{} else multiset{l.made}
  {
    hide Ids;
    IdsLast(l.full, l.current);
    if |l.backup| != 0 {
      var n := |l.backup| - 1;
      IdsLast(l.backup[..n], l.backup[n]);
      assert l.backup == l.backup[..n] + [l.backup[n]];
    }
  }

  lemma RotateOwned(l: Log)
    requires Owned(l)
    ensures Owned(Rotate(l))
  {
    hide Census;
    RotateCensus(l);
  }

  lemma CensusOwned(l: Log, r: Log)
    requires Owned(l) && Census(r) == Census(l) && r.made == l.made
    ensures Owned(r)
  {
  }

  lemma {:induction false} HeavyAppend(bs: seq<Buffer>, x: Buffer, y: Buffer, size: nat)
    requires Heavy(bs + [x], size) && |x.data| + |y.data| > size
    ensures Heavy((bs + [x]) + [y], size)
  {
    var a := bs + [x];
    var all := a + [y];
    forall i | 0 <= i < |all| - 1
      ensures |all[i].data| + |all[i + 1].data| > size
    {
      assert i < |a| - 1 ==> all[i] == a[i] && all[i + 1] == a[i + 1];
    }
  }

  lemma HeavyGrow(bs: seq<Buffer>, x: Buffer, y: Buffer, size: nat)
    requires Heavy(bs + [x], size) && |y.data| >= |x.data|
    ensures Heavy(bs + [y], size)
  {
    var a := bs + [x];
    var all := bs + [y];
    forall i | 0 <= i < |all| - 1
      ensures |all[i].data| + |all[i + 1].data| > size
    {
      assert |a[i].data| + |a[i + 1].data| > size;
    }
  }

  /** The second Append of Logf never fails: a rotated-in buffer is empty. */
  lemma RotatedIsEmpty(l: Log)
    requires Filled(l)
    ensures Rotate(l).current.data == [] && AllEmpty(Rotate(l).backup)
  {
  }

  lemma LogfOwned(l: Log, s: seq<byte>)
    requires Owned(l)
    ensures Owned(Logf(l, s))
  {
    hide Owned, Ids, Rotate;
    RotateOwned(l);
    CensusOwned(l, Store(l, s));
    CensusOwned(Rotate(l), Broadcast(Store(Rotate(l), s)));
  }

  lemma LogfFilled(l: Log, s: seq<byte>)
    requires Filled(l) && 0 < |s|
    ensures Filled(Logf(l, s))
  {
    RotatedIsEmpty(l);
  }

  lemma LogfDense(l: Log, s: seq<byte>)
    requires Filled(l) && Dense(l)
    ensures Dense(Logf(l, s))
  {
    hide Heavy, NoneEmpty;
    RotatedIsEmpty(l);
    if |s| <= l.size && l.current.Fits(s, l.size) {
      HeavyGrow(l.full, l.current, Store(l, s).current, l.size);
    } else if |s| <= l.size {
      HeavyAppend(l.full, l.current, Store(Rotate(l), s).current, l.size);
    }
  }

  lemma LogfValid(l: Log, s: seq<byte>)
    requires Valid(l) && 0 < |s|
    ensures Valid(Logf(l, s))
  {
    hide Owned, Filled, Dense;
    LogfOwned(l, s);
    LogfFilled(l, s);
    LogfDense(l, s);
  }

  lemma TakeBatchOwned(l: Log)
    requires Owned(l) && Filled(l) && !l.phase.Writing?
    ensures Owned(TakeBatch(l))
  {
    hide Owned, Rotate;
    RotateOwned(l);
    var r := if l.current.Empty() then l else Rotate(l);
    RotateKeepsBatch(l);
    CensusOwned(r, TakeBatch(l));
  }

  lemma RotateKeepsBatch(l: Log)
    ensures Rotate(l).toWrite == l.toWrite && Rotate(l).written == l.written
    ensures Rotate(l).full == l.full + [l.current]
  {
  }

  lemma TakeBatchFilled(l: Log)
    requires Filled(l) && !l.phase.Writing?
    ensures Filled(TakeBatch(l))
  {
    RotatedIsEmpty(l);
  }

  lemma TakeBatchDense(l: Log)
    requires Filled(l) && Dense(l)
    ensures Dense(TakeBatch(l))
  {
    hide AllEmpty, NoneEmpty;
  }

  lemma TakeBatchValid(l: Log)
    requires Valid(l) && !l.phase.Writing?
    ensures Valid(TakeBatch(l))
  {
    hide Owned, Filled, Dense;
    TakeBatchOwned(l);
    TakeBatchFilled(l);
    TakeBatchDense(l);
  }

  lemma WriteOwned(l: Log)
    requires Owned(l) && l.phase.Writing?
    ensures Owned(Flush(l))
  {
    if |l.toWrite| != 0 {
      IdsLast(l.written, l.toWrite[0].Reset());
    } else {
      IdsAppend(l.backup, l.written);
    }
    CensusOwned(l, Flush(l));
  }

  lemma WriteFilledDense(l: Log)
    requires Filled(l) && Dense(l) && l.phase.Writing?
    ensures Filled(Flush(l)) && Dense(Flush(l))
  {
    if |l.toWrite| != 0 {
      var rest := l.toWrite[1..];
      assert forall i :: 0 <= i < |rest| ==> rest[i] == l.toWrite[i + 1];
      assert l.toWrite[0].Reset().data == [];
    }
  }

  lemma FlushSignalled(l: Log)
    requires Signalled(l) && Filled(l)
    ensures Signalled(Flush(l))
  {
    hide AllEmpty, NoneEmpty;
  }

  lemma FlushValid(l: Log)
    requires Valid(l)
    ensures Valid(Flush(l))
  {
    hide Owned, Filled, Dense, Signalled, TakeBatch;
    FlushSignalled(l);
    if l.phase.Writing? {
      WriteOwned(l);
      WriteFilledDense(l);
    } else if l.phase.Waiting? || !l.current.Empty() {
      TakeBatchValid(l);
    } else {
      CensusOwned(l, Flush(l));
      SameDense(l, Flush(l));
      WaitFilled(l);
    }
  }

  lemma WaitFilled(l: Log)
    requires Filled(l) && l.phase.Idle? && l.current.Empty()
    ensures Filled(Flush(l))
  {
  }

  lemma SameDense(l: Log, r: Log)
    requires Dense(l) && r.full == l.full && r.current == l.current && r.toWrite == l.toWrite && r.size == l.size
    ensures Dense(r)
  {
  }

  lemma LogfStream(l: Log, s: seq<byte>)
    requires Filled(l)
    ensures Stream(Logf(l, s)) == Stream(l) + if |s| > l.size then [] else s
  {
    RotatedIsEmpty(l);
    HeldLast(l.full, l.current);
  }

  lemma FlushStream(l: Log)
    requires Filled(l)
    ensures Stream(Flush(l)) == Stream(l)
  {
    if l.phase.Writing? {
      assert |l.toWrite| != 0 ==> Held(l.toWrite) == l.toWrite[0].data + Held(l.toWrite[1..]);
    } else {
      RotatedIsEmpty(l);
      HeldLast(l.full, l.current);
    }
  }

  // ---------- what each step does ----------

  /** A record that fits into the current buffer goes behind what is there, and that is all:
      nobody is woken. */
  lemma RecordFits(l: Log, s: seq<byte>)
    requires |l.current.data| + |s| <= l.size
    ensures Logf(l, s) == l.(current := Buffer(l.current.id, l.current.data + s))
  {
  }

  /** One that does not fit goes alone into the buffer returned last or, when none is spare,
      into a new one; the current buffer joins the full ones; and the flusher is woken. */
  lemma RecordRotates(l: Log, s: seq<byte>)
    requires Filled(l) && |s| <= l.size < |l.current.data| + |s|
    ensures var r := Logf(l, s);
      && r.full == l.full + [l.current] && r.current.data == s
      && r.notify == l.notify + 1 && r.closed == l.closed + {l.notify}
      && (l.backup != [] ==> r.backup + [Buffer(r.current.id, [])] == l.backup && r.made == l.made)
      && (l.backup == [] ==> r.backup == [] && r.current.id == l.made && r.made == l.made + 1)
      && r.phase == l.phase && r.written == l.written && r.toWrite == l.toWrite && r.file == l.file
  {
    RotatedIsEmpty(l);
    if l.backup != [] {
      assert l.backup[..|l.backup| - 1] + [l.backup[|l.backup| - 1]] == l.backup;
    }
  }

  /** A record larger than a buffer leaves everything as it is. */
  lemma RecordTooLarge(l: Log, s: seq<byte>)
    requires |s| > l.size
    ensures Logf(l, s) == l
  {
  }

  /** The flusher starts to wait exactly if it finds the current buffer empty, on the channel
      the next broadcast closes, and does nothing else then. */
  lemma WaitsIff(l: Log)
    requires l.phase.Idle?
    ensures Flush(l).phase.Waiting? <==> l.current.data == []
    ensures l.current.data == [] ==> Flush(l) == l.(phase := Waiting(l.notify))
  {
    hide Rotate;
  }

  /** Otherwise, and after every wait, it takes everything there is: the full buffers and
      behind them the current one, unless that is empty, and wakes nobody. */
  lemma TakesEverything(l: Log)
    requires Filled(l) && (l.phase.Waiting? || (l.phase.Idle? && l.current.data != []))
    ensures var r := Flush(l);
      && r.phase.Writing? && r.full == [] && r.written == [] && r.current.data == []
      && r.toWrite == l.full + (if l.current.data == [] then [] else [l.current])
      && r.notify == l.notify && r.closed == l.closed && r.file == l.file
      && (l.current.data == [] ==> r.current == l.current && r.backup == l.backup && r.made == l.made)
      && (l.current.data != [] && l.backup != [] ==> r.backup + [r.current] == l.backup && r.made == l.made)
      && (l.current.data != [] && l.backup == [] ==> r.backup == [] && r.current.id == l.made && r.made == l.made + 1)
  {
    RotatedIsEmpty(l);
    if l.backup != [] {
      assert l.backup[..|l.backup| - 1] + [l.backup[|l.backup| - 1]] == l.backup;
    }
    assert l.full + [] == l.full;
  }

  /** It writes its batch in order, one buffer a step, and then gives all of it back, behind
      the buffers that are spare; meanwhile it touches nothing the producers use. */
  lemma WritesInOrder(l: Log)
    requires l.phase.Writing?
    ensures var r := Flush(l);
      && r.current == l.current && r.full == l.full && r.notify == l.notify && r.closed == l.closed && r.made == l.made
      && (l.toWrite != [] ==>
            && r.file == l.file + l.toWrite[0].data && r.toWrite == l.toWrite[1..] && r.phase.Writing?
            && r.written == l.written + [Buffer(l.toWrite[0].id, [])] && r.backup == l.backup)
      && (l.toWrite == [] ==> r.phase.Idle? && r.backup == l.backup + l.written && r.written == [] && r.file == l.file)
  {
  }

  // ---------- waiting and signalling ----------

  /** The flusher never starts a wait while full buffers are pending, and captures
      a channel that is still open. */
  lemma NeverWaitsOnFull(l: Log)
    requires Valid(l) && l.phase.Idle? && Flush(l).phase.Waiting?
    ensures l.full == [] && l.current.Empty() && Flush(l).phase.chan !in l.closed
  {
    hide Owned, Dense, TakeBatch;
    if !l.current.Empty() {
      TakeBatchWrites(l);
    }
  }

  lemma TakeBatchWrites(l: Log)
    ensures TakeBatch(l).phase.Writing?
  {
  }

  /** A broadcast closes a channel nobody closed before, and afterwards the channel
      of every earlier waiter is closed. */
  lemma BroadcastWakes(l: Log)
    requires Signalled(l)
    ensures l.notify !in l.closed && Broadcast(l).closed == l.closed + {l.notify}
    ensures l.phase.Waiting? ==> l.phase.chan in Broadcast(l).closed
  {
  }

  // ---------- the size of a batch ----------

  lemma HeldPair(bs: seq<Buffer>)
    requires |bs| >= 2
    ensures |Held(bs)| == |bs[0].data| + |bs[1].data| + |Held(bs[2..])|
  {
    assert bs[1..][1..] == bs[2..];
  }

  lemma HalfStep(k: nat, size: nat)
    requires k >= 2
    ensures ((k - 2) / 2) * size + size == (k / 2) * size
  {
    assert (k - 2) / 2 + 1 == k / 2;
  }

  lemma {:induction false} HeavyBatch(bs: seq<Buffer>, size: nat)
    requires Heavy(bs, size) && |bs| >= 2
    ensures |Held(bs)| > (|bs| / 2) * size
    decreases |bs|
  {
    hide Held;
    HeldPair(bs);
    HalfStep(|bs|, size);
    assert |bs[0].data| + |bs[1].data| > size;
    if |bs| >= 4 {
      HeavyBatch(bs[2..], size);
    }
  }

  /** A flushed batch of k >= 2 buffers carries more than floor(k/2) * size bytes. */
  lemma BatchBound(l: Log)
    requires Valid(l) && !l.phase.Writing? && |TakeBatch(l).toWrite| >= 2
    ensures |Held(TakeBatch(l).toWrite)| > (|TakeBatch(l).toWrite| / 2) * l.size
  {
    hide Owned, Held, Heavy;
    TakeBatchDense(l);
    HeavyBatch(TakeBatch(l).toWrite, l.size);
  }

  // ---------- whole runs ----------

  datatype Step = Producer(record: seq<byte>) | Flusher

  /** The logger together with the records it accepted, in lock order, and the
      largest number of buffers that were ever outside the spare pool. */
  datatype History = History(log: Log, records: seq<seq<byte>>, peak: nat)

  function Out(l: Log): nat {
    1 + |l.full| + |l.written| + |l.toWrite|
  }

  function Max(a: nat, b: nat): nat {
    if a < b then b else a
  }

  function Apply(h: History, st: Step): History {
    var l := if st.Producer? then Logf(h.log, st.record) else Flush(h.log);
    var records := if st.Producer? && |st.record| <= h.log.size then h.records + [st.record] else h.records;
    History(l, records, Max(h.peak, Out(l)))
  }

  /** Every record has at least its time stamp and its newline. */
  predicate Records(steps: seq<Step>) {
    forall i :: 0 <= i < |steps| && steps[i].Producer? ==> |steps[i].record| > 0
  }

  function Run(backups: nat, size: nat, steps: seq<Step>): History
    decreases |steps|
  {
    if steps == [] then History(NewLog(backups, size), [], 1)
    else Apply(Run(backups, size, steps[..|steps| - 1]), steps[|steps| - 1])
  }

  /** No more buffers exist than the initial ones, or than were ever out at once. */
  ghost predicate Spaced(h: History, backups: nat) {
    && Out(h.log) <= h.peak
    && |h.log.backup| + Out(h.log) == h.log.made == Max(backups + 1, h.peak)
  }

  ghost predicate Sound(h: History, backups: nat, size: nat) {
    && Valid(h.log) && h.log.size == size
    && Stream(h.log) == Concat(h.records)
    && Spaced(h, backups)
  }

  /** A step that moves buffers around, or makes one when none is spare. */
  ghost predicate Moved(l: Log, r: Log) {
    || (r.made == l.made && |r.backup| + Out(r) == |l.backup| + Out(l))
    || (r.made == l.made + 1 && |l.backup| == |r.backup| == 0 && Out(r) == Out(l) + 1)
  }

  lemma LogfMoves(l: Log, s: seq<byte>)
    ensures Moved(l, Logf(l, s))
  {
  }

  lemma FlushMoves(l: Log)
    requires Filled(l)
    ensures Moved(l, Flush(l))
  {
    hide AllEmpty, NoneEmpty;
  }

  lemma ApplySpaced(h: History, st: Step, backups: nat)
    requires Spaced(h, backups) && Filled(h.log)
    ensures Spaced(Apply(h, st), backups)
  {
    hide Logf, Flush, Filled;
    LogfMoves(h.log, if st.Producer? then st.record else []);
    FlushMoves(h.log);
  }

  lemma ApplySound(h: History, st: Step, backups: nat, size: nat)
    requires Sound(h, backups, size) && (st.Producer? ==> |st.record| > 0)
    ensures Sound(Apply(h, st), backups, size)
  {
    hide Owned, Filled, Dense, Signalled, Spaced, Stream, Flush, Logf;
    ApplySpaced(h, st, backups);
    SizeStays(h.log, st);
    if st.Producer? {
      LogfValid(h.log, st.record);
      LogfStream(h.log, st.record);
      ConcatLast(h.records, st.record);
    } else {
      FlushValid(h.log);
      FlushStream(h.log);
    }
  }

  lemma SizeStays(l: Log, st: Step)
    ensures st.Producer? ==> Logf(l, st.record).size == l.size
    ensures Flush(l).size == l.size
  {
  }

  lemma NewLogSound(backups: nat, size: nat)
    requires size > 0
    ensures Sound(History(NewLog(backups, size), [], 1), backups, size)
  {
    hide Ids;
    NewIds(0, backups);
  }

  lemma {:induction false} NewIds(first: nat, n: nat)
    ensures forall id: nat :: Ids(NewBuffers(first, n))[id] == if first <= id < first + n then 1 else 0
    decreases n
  {
    if n > 0 {
      NewIds(first + 1, n - 1);
      assert NewBuffers(first, n)[1..] == NewBuffers(first + 1, n - 1);
    }
  }

  /** Across every interleaving of producers and the flusher: the file, the unwritten
      rest of the batch, the full buffers and the current buffer are, end to end, the
      accepted records in lock order; every buffer is in exactly one place; and the
      number of buffers is the exact maximum of the initial number and the peak. */
  lemma {:induction false} EveryRunSound(backups: nat, size: nat, steps: seq<Step>)
    requires size > 0 && Records(steps)
    ensures Sound(Run(backups, size, steps), backups, size)
    decreases |steps|
  {
    hide Sound, Apply, NewLog;
    if steps == [] {
      NewLogSound(backups, size);
    } else {
      var n := |steps| - 1;
      EveryRunSound(backups, size, steps[..n]);
      ApplySound(Run(backups, size, steps[..n]), steps[n], backups, size);
    }
  }

  // ---------- the flusher catches up ----------

  function FlushTimes(l: Log, n: nat): Log
    decreases n
  {
    if n == 0 then l else FlushTimes(Flush(l), n - 1)
  }

  /** When the producers pause, finitely many flusher steps put every accepted byte
      into the file and leave the flusher idle with nothing pending. */
  lemma {:induction false} FlusherCatchesUp(l: Log) returns (n: nat)
    requires Valid(l)
    ensures var r := FlushTimes(l, n);
      r.file == Stream(l) && r.phase.Idle? && r.current.Empty() && r.full == [] && r.toWrite == []
    decreases if l.current.Empty() then 0 else 1,
              match l.phase case Idle => 0 case Waiting(_) => 2 case Writing => 1 + |l.toWrite|
  {
    hide Owned, Dense, Signalled, AllEmpty, NoneEmpty;
    if l.phase.Idle? && l.current.Empty() {
      n := 0;
      assert Stream(l) == l.file + [] + [] + [];
    } else {
      FlushValid(l);
      FlushStream(l);
      if !l.phase.Writing? && !l.current.Empty() {
        RotatedIsEmpty(l);
      }
      n := FlusherCatchesUp(Flush(l));
      n := n + 1;
    }
  }

  // ---------- the logger object ----------

  class Logger {
    const bufferSize: nat
    var currentBuffer: Buffer
    var backupBuffers: seq<Buffer>
    var fullBuffers: seq<Buffer>
    var made: nat

    // cond.Cond
    var notify: nat
    var closed: set<nat>

    // the flusher goroutine and its file
    var phase: Phase
    var written: seq<Buffer>
    var tobeWritten: seq<Buffer>
    var file: seq<byte>

    ghost function View(): Log
      reads this
    {
      Log(bufferSize, currentBuffer, backupBuffers, fullBuffers, made, notify, closed,
          phase, written, tobeWritten, file)
    }

    constructor (backupBufferNums: nat, size: nat)
      requires backupBufferNums > 0 && size > 0
      ensures View() == NewLog(backupBufferNums, size)
    {
      var backup: seq<Buffer> := [];
      for i := 0 to backupBufferNums
        invariant backup == NewBuffers(0, i)
      {
        backup := backup + [Buffer(i, [])];
      }
      bufferSize, currentBuffer, backupBuffers, fullBuffers := size, Buffer(backupBufferNums, []), backup, [];
      made, notify, closed := backupBufferNums + 1, 0, {};
      phase, written, tobeWritten, file := Idle, [], [], [];
    }

    method RotateBuffers()
      modifies this
      ensures View() == Rotate(old(View()))
    {
      fullBuffers := fullBuffers + [currentBuffer];
      if |backupBuffers| != 0 {
        currentBuffer := backupBuffers[|backupBuffers| - 1];
        backupBuffers := backupBuffers[..|backupBuffers| - 1];
      } else {
        currentBuffer := Buffer(made, []);
        made := made + 1;
      }
    }

    /** The critical section of Logf; `ok` is false where the source panics.  The
        record is never dropped: the second Append succeeds. */
    method LogRecord(s: seq<byte>) returns (ok: bool)
      requires Valid(View())
      modifies this
      ensures View() == Logf(old(View()), s)
      ensures ok <==> |s| <= bufferSize
      ensures Stream(View()) == old(Stream(View())) + if ok then s else []
    {
      hide Owned, Dense, Signalled, Stream;
      LogfStream(View(), s);
      if |s| > bufferSize {
        return false;
      }
      var fits := currentBuffer.Fits(s, bufferSize);
      currentBuffer := currentBuffer.Append(s, bufferSize);
      if !fits {
        RotateBuffers();
        currentBuffer := currentBuffer.Append(s, bufferSize);
        closed, notify := closed + {notify}, notify + 1;
      }
      return true;
    }

    /** The flusher takes the lock and goes to sleep or takes a batch. */
    method FlusherLock()
      requires phase.Idle?
      modifies this
      ensures View() == Flush(old(View()))
    {
      if currentBuffer.Empty() {
        phase := Waiting(notify);
      } else {
        Take();
      }
    }

    /** The wait ended, by a signal or by its timeout, and the lock is held again. */
    method FlusherWake()
      requires phase.Waiting?
      modifies this
      ensures View() == Flush(old(View()))
    {
      Take();
    }

    method Take()
      modifies this
      ensures View() == TakeBatch(old(View()))
    {
      if !currentBuffer.Empty() {
        RotateBuffers();
      }
      phase, written, tobeWritten, fullBuffers := Writing, [], fullBuffers, [];
    }

    /** The lock-free part of the flush: write and reset every buffer of the batch,
        then give them back under the lock. */
    method WriteBatch()
      requires phase.Writing?
      modifies this
      ensures phase.Idle? && tobeWritten == [] && written == []
      ensures View() == FlushTimes(old(View()), |old(tobeWritten)| + 1)
      ensures file == old(file) + Held(old(tobeWritten))
    {
      ghost var k := 0;
      while |tobeWritten| != 0
        invariant phase.Writing? && k + |tobeWritten| == |old(tobeWritten)|
        invariant FlushTimes(old(View()), |old(tobeWritten)| + 1) == FlushTimes(View(), |tobeWritten| + 1)
        invariant file + Held(tobeWritten) == old(file) + Held(old(tobeWritten))
        decreases |tobeWritten|
      {
        var v := tobeWritten[0];
        file := file + v.data;
        written := written + [v.Reset()];
        tobeWritten := tobeWritten[1..];
        k := k + 1;
      }
      backupBuffers, written, phase := backupBuffers + written, [], Idle;
    }

    method Metrics() returns (backup: nat, full: nat)
      ensures backup == |backupBuffers| && full == |fullBuffers|
    {
      backup, full := |backupBuffers|, |fullBuffers|;
    }
  }
}
