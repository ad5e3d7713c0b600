/** pkg/buffer: the growing, compacting byte buffer of a connection, and how far it is
    a first-in first-out queue of bytes. */
module NetBuffer {
  import opened Bytes

  /** The slice and the two indices; the readable window is data[r..w]. */
  datatype Buf = Buf(data: seq<byte>, r: int, w: int)

  predicate Valid(b: Buf) {
    0 <= b.r <= b.w <= |b.data|
  }

  function Readable(b: Buf): seq<byte>
    requires Valid(b)
  {
    b.data[b.r..b.w]
  }

  const INITIAL: nat := 8192
  const HEADROOM: nat := 8192

  function NewBuf(): (b: Buf)
    ensures Valid(b) && b.r == 0 == b.w && |b.data| == INITIAL
    ensures Readable(b) == []
  {
    Buf(Zeros(INITIAL), 0, 0)
  }

  /** Go's copy(dst[at:], src): as many bytes as fit. */
  function Paste(dst: seq<byte>, at: nat, src: seq<byte>): (res: seq<byte>)
    requires at <= |dst|
    ensures |res| == |dst|
    ensures forall i :: 0 <= i < |dst| ==> res[i] == if at <= i < at + |src| then src[i - at] else dst[i]
  {
    if at + |src| <= |dst| then dst[..at] + src + dst[at + |src|..]
    else dst[..at] + src[..|dst| - at]
  }

  // ---------- Append ----------

  predicate FitsInPlace(b: Buf, n: nat) {
    |b.data| - b.w >= n
  }

  predicate FitsCompacted(b: Buf, n: nat) {
    |b.data| >= b.w - b.r + n
  }

  predicate Grows(b: Buf, n: nat) {
    !FitsInPlace(b, n) && !FitsCompacted(b, n)
  }

  function Append(b: Buf, bs: seq<byte>): Buf
    requires Valid(b)
  {
    var size := b.w - b.r + |bs|;
    if FitsInPlace(b, |bs|) then Buf(Paste(b.data, b.w, bs), b.r, b.w + |bs|)
    else if FitsCompacted(b, |bs|) then Buf(Paste(Paste(b.data, 0, Readable(b)), b.w - b.r, bs), 0, size)
    else
      // the source copies to index w of the new slice, not to w - r
      Buf(Paste(Paste(Zeros(size + HEADROOM), 0, Readable(b)), b.w, bs), 0, size)
  }

  /** What Append does to the readable window: in place and when compacting, `bs` goes
      behind it; when growing, a gap of `r` zeros comes first and the last `r` bytes
      of `bs` are cut off. */
  lemma AppendWindow(b: Buf, bs: seq<byte>)
    requires Valid(b)
    ensures Valid(Append(b, bs))
    ensures !Grows(b, |bs|) ==> Readable(Append(b, bs)) == Readable(b) + bs
    ensures Grows(b, |bs|) ==>
      b.r < |bs| && Readable(Append(b, bs)) == Readable(b) + Zeros(b.r) + bs[..|bs| - b.r]
  {
  }

  predicate AllZero(bs: seq<byte>) {
    forall i :: 0 <= i < |bs| ==> bs[i] == 0
  }

  lemma {:induction false} ShiftedByZerosIsZero(bs: seq<byte>, n: nat, k: nat)
    requires 0 < n <= |bs| && Zeros(n) + bs[..|bs| - n] == bs && k < |bs|
    ensures bs[k] == 0
    decreases k
  {
    if k >= n {
      ShiftedByZerosIsZero(bs, n, k - n);
      assert (Zeros(n) + bs[..|bs| - n])[k] == bs[k - n];
    } else {
      assert (Zeros(n) + bs[..|bs| - n])[k] == 0;
    }
  }

  /** Append puts `bs` behind the readable bytes. */
  predicate AppendSafe(b: Buf, bs: seq<byte>) {
    !Grows(b, |bs|) || b.r == 0 || AllZero(bs)
  }

  lemma SameTail(a: seq<byte>, x: seq<byte>, y: seq<byte>)
    requires a + x == a + y
    ensures x == y
  {
    assert |x| == |y|;
    forall i | 0 <= i < |x|
      ensures x[i] == y[i]
    {
      assert (a + x)[|a| + i] == (a + y)[|a| + i];
    }
  }

  /** Append is first-in first-out exactly when it does not have to grow, or nothing
      was retrieved since the last compaction, or the new bytes are all zero. */
  lemma AppendFifoIff(b: Buf, bs: seq<byte>)
    requires Valid(b)
    ensures Valid(Append(b, bs))
    ensures Readable(Append(b, bs)) == Readable(b) + bs <==> AppendSafe(b, bs)
  {
    AppendWindow(b, bs);
    if Grows(b, |bs|) {
      var shifted := Zeros(b.r) + bs[..|bs| - b.r];
      assert Readable(b) + Zeros(b.r) + bs[..|bs| - b.r] == Readable(b) + shifted;
      if b.r == 0 {
        assert shifted == bs;
      } else if AllZero(bs) {
        assert shifted == bs;
      } else if Readable(b) + shifted == Readable(b) + bs {
        SameTail(Readable(b), shifted, bs);
        forall k | 0 <= k < |bs|
          ensures bs[k] == 0
        {
          ShiftedByZerosIsZero(bs, b.r, k);
        }
      }
    }
  }

  /** Where Append leaves the indices and how long the slice is: in place when the tail has
      room, moved to the front when the slice has, and otherwise in a new slice with 8192
      bytes to spare. */
  lemma AppendShape(b: Buf, bs: seq<byte>)
    requires Valid(b)
    ensures var a := Append(b, bs);
            var pending := b.w - b.r;
      && (b.w + |bs| <= |b.data| ==> a.r == b.r && a.w == b.w + |bs| && |a.data| == |b.data|)
      && (b.w + |bs| > |b.data| ==> a.r == 0 && a.w == pending + |bs|)
      && (b.w + |bs| > |b.data| >= pending + |bs| ==> |a.data| == |b.data|)
      && (pending + |bs| > |b.data| ==> |a.data| == pending + |bs| + 8192)
  {
    hide Paste;
  }

  /** What was taken out before stays in front of the window, or the window starts at 0. */
  lemma AppendTrail(b: Buf, bs: seq<byte>)
    requires Valid(b)
    ensures var a := Append(b, bs);
      Valid(a) && (a.r == 0 || (a.r == b.r && a.data[..a.r] == b.data[..b.r]))
  {
    AppendWindow(b, bs);
  }

  // ---------- the other operations ----------

  /** Retrieve panics on more bytes than there are, and takes negative counts. */
  function Retrieve(b: Buf, n: int): Buf
    requires Valid(b) && n <= b.w - b.r
  {
    b.(r := b.r + n)
  }

  /** A negative count, which is what a failed write passes on, hands out bytes again
      that were already taken, or makes the buffer unusable. */
  lemma NegativeRetrieve(b: Buf, n: int)
    requires Valid(b) && n > 0
    ensures Valid(Retrieve(b, -n)) <==> n <= b.r
    ensures n <= b.r ==> Readable(Retrieve(b, -n)) == b.data[b.r - n..b.r] + Readable(b)
  {
  }

  function RetrieveAll(b: Buf): Buf {
    b.(r := 0, w := 0)
  }

  /** The bytes `readv` delivers into the tail of the slice and then into the spill
      buffer: nothing at all is read when the tail is full. */
  function Delivered(b: Buf, input: seq<byte>): seq<byte> {
    if |b.data| == b.w then [] else input
  }

  /** ReadFD: `input` is what the kernel hands out, [] on end of file or error. */
  function ReadFD(b: Buf, input: seq<byte>): Buf
    requires Valid(b)
  {
    var writable := |b.data| - b.w;
    if writable == 0 || |input| == 0 then b
    else if |input| <= writable then Buf(Paste(b.data, b.w, input), b.r, b.w + |input|)
    else Append(Buf(Paste(b.data, b.w, input[..writable]), b.r, |b.data|), input[writable..])
  }

  lemma NothingDelivered(b: Buf, input: seq<byte>)
    requires Valid(b) && Delivered(b, input) == []
    ensures ReadFD(b, input) == b && ReadSafe(b, input)
  {
  }

  /** The spill of a read is an Append to a slice whose tail is full. */
  predicate ReadSafe(b: Buf, input: seq<byte>) {
    var writable := |b.data| - b.w;
    || writable <= 0 || |input| <= writable
    || AppendSafe(b.(w := |b.data|), input[writable..])
  }

  lemma SpillWindow(b: Buf, filled: Buf, input: seq<byte>)
    requires Valid(b) && Valid(filled) && 0 < |b.data| - b.w < |input|
    requires filled == Buf(Paste(b.data, b.w, input[..|b.data| - b.w]), b.r, |b.data|)
    ensures var writable := |b.data| - b.w;
      && Readable(filled) == Readable(b) + input[..writable]
      && Readable(b) + input == Readable(filled) + input[writable..]
      && (AppendSafe(filled, input[writable..]) <==> ReadSafe(b, input))
  {
    var writable := |b.data| - b.w;
    assert input == input[..writable] + input[writable..];
  }

  lemma ReadWindow(b: Buf, input: seq<byte>)
    requires Valid(b)
    ensures Valid(ReadFD(b, input))
    ensures Readable(ReadFD(b, input)) == Readable(b) + Delivered(b, input) <==> ReadSafe(b, input)
  {
    hide Append, AppendSafe;
    var writable := |b.data| - b.w;
    if writable != 0 && |input| != 0 {
      if |input| <= writable {
        assert Readable(ReadFD(b, input)) == Readable(b) + input;
      } else {
        hide Paste, ReadSafe;
        var filled := Buf(Paste(b.data, b.w, input[..writable]), b.r, |b.data|);
        SpillWindow(b, filled, input);
        AppendFifoIff(filled, input[writable..]);
      }
    } else {
      assert Readable(b) + [] == Readable(b);
    }
  }

  /** A read that fits behind the window moves the write index and nothing else. */
  lemma ReadInPlace(b: Buf, input: seq<byte>)
    requires Valid(b) && 0 < |input| <= |b.data| - b.w
    ensures var a := ReadFD(b, input); a.r == b.r && a.w == b.w + |input| && |a.data| == |b.data|
    ensures ReadSafe(b, input)
  {
    hide Paste;
  }

  /** The tail of the slice is full after a read, so that the next one reads nothing, if and
      only if it was before, or the read filled the tail exactly, or it spilled over and
      what is then readable fills the slice exactly. */
  lemma TailFullIff(b: Buf, input: seq<byte>)
    requires Valid(b)
    ensures var a := ReadFD(b, input);
            var tail := |b.data| - b.w;
      |a.data| == a.w <==> tail == 0 || |input| == tail || (|input| > tail && b.w - b.r + |input| == |b.data|)
  {
    hide Paste, Append;
    var tail := |b.data| - b.w;
    if 0 < tail < |input| {
      var filled := Buf(Paste(b.data, b.w, input[..tail]), b.r, |b.data|);
      AppendShape(filled, input[tail..]);
    } else if 0 < |input| {
      if tail > 0 {
        ReadInPlace(b, input);
      }
    }
  }

  /** Safe or not, a read leaves what was readable in front and adds as many bytes as
      were delivered. */
  lemma ReadExtends(b: Buf, input: seq<byte>)
    requires Valid(b)
    ensures Valid(ReadFD(b, input))
    ensures Readable(b) <= Readable(ReadFD(b, input))
    ensures |Readable(ReadFD(b, input))| == |Readable(b)| + |Delivered(b, input)|
  {
    hide Append, Paste;
    var writable := |b.data| - b.w;
    if writable != 0 && |input| != 0 {
      if |input| <= writable {
        PasteBehind(b, input);
      } else {
        var filled := Buf(Paste(b.data, b.w, input[..writable]), b.r, |b.data|);
        SpillWindow(b, filled, input);
        AppendExtends(filled, input[writable..]);
      }
    }
  }

  lemma PasteBehind(b: Buf, input: seq<byte>)
    requires Valid(b) && |input| <= |b.data| - b.w
    ensures Readable(Buf(Paste(b.data, b.w, input), b.r, b.w + |input|)) == Readable(b) + input
  {
  }

  lemma AppendExtends(b: Buf, bs: seq<byte>)
    requires Valid(b)
    ensures Valid(Append(b, bs))
    ensures Readable(b) <= Readable(Append(b, bs)) && |Readable(Append(b, bs))| == |Readable(b)| + |bs|
  {
    hide Append;
    AppendWindow(b, bs);
  }

  // ---------- runs ----------

  datatype Op =
    | AppendOp(bs: seq<byte>)
    | RetrieveOp(n: int)
    | RetrieveAllOp
    | ReadOp(input: seq<byte>)

  /** A buffer with everything that went in and everything that was taken out. */
  datatype Traffic = Traffic(b: Buf, came: seq<byte>, gone: seq<byte>)

  /** The operation neither panics nor runs into the growth defect. */
  predicate Safe(t: Traffic, op: Op)
    requires Valid(t.b)
  {
    match op
    case AppendOp(bs) => AppendSafe(t.b, bs)
    case RetrieveOp(n) => 0 <= n <= t.b.w - t.b.r
    case RetrieveAllOp => true
    case ReadOp(input) => ReadSafe(t.b, input)
  }

  function Step(t: Traffic, op: Op): Traffic
    requires Valid(t.b) && Safe(t, op)
  {
    match op
    case AppendOp(bs) => Traffic(Append(t.b, bs), t.came + bs, t.gone)
    case RetrieveOp(n) => Traffic(Retrieve(t.b, n), t.came, t.gone + Readable(t.b)[..n])
    case RetrieveAllOp => Traffic(RetrieveAll(t.b), t.came, t.gone + Readable(t.b))
    case ReadOp(input) => Traffic(ReadFD(t.b, input), t.came + Delivered(t.b, input), t.gone)
  }

  /** What was taken out, followed by what is readable, is what came in. */
  ghost predicate Fifo(t: Traffic) {
    Valid(t.b) && t.gone + Readable(t.b) == t.came
  }

  lemma GrowFifo(t: Traffic, b: Buf, more: seq<byte>)
    requires Fifo(t) && Valid(b) && Readable(b) == Readable(t.b) + more
    ensures Fifo(Traffic(b, t.came + more, t.gone))
  {
    assert t.gone + (Readable(t.b) + more) == (t.gone + Readable(t.b)) + more;
  }

  lemma TakeFifo(t: Traffic, b: Buf, n: nat)
    requires Fifo(t) && Valid(b) && n <= |Readable(t.b)| && Readable(b) == Readable(t.b)[n..]
    ensures Fifo(Traffic(b, t.came, t.gone + Readable(t.b)[..n]))
  {
    var window := Readable(t.b);
    assert window == window[..n] + window[n..];
  }

  lemma StepFifo(t: Traffic, op: Op)
    requires Fifo(t) && Safe(t, op)
    ensures Fifo(Step(t, op))
  {
    hide Append, ReadFD, AppendSafe, ReadSafe, Fifo;
    assert Valid(t.b) by { FifoValid(t); }
    match op
    case AppendOp(bs) =>
      AppendFifoIff(t.b, bs);
      GrowFifo(t, Append(t.b, bs), bs);
    case RetrieveOp(n) =>
      TakeFifo(t, Retrieve(t.b, n), n);
    case RetrieveAllOp =>
      assert Readable(t.b)[..|Readable(t.b)|] == Readable(t.b);
      TakeFifo(t, RetrieveAll(t.b), |Readable(t.b)|);
    case ReadOp(input) =>
      ReadWindow(t.b, input);
      GrowFifo(t, ReadFD(t.b, input), Delivered(t.b, input));
  }

  ghost predicate Run(t: Traffic, ops: seq<Op>, u: Traffic)
    decreases |ops|
  {
    if ops == [] then u == t
    else Valid(t.b) && Safe(t, ops[0]) && Run(Step(t, ops[0]), ops[1..], u)
  }

  /** In every run of safe operations the buffer is a first-in first-out queue,
      through in-place, compacting and growing appends and through spilling reads. */
  lemma {:induction false} RunFifo(t: Traffic, ops: seq<Op>, u: Traffic)
    requires Fifo(t) && Run(t, ops, u)
    ensures Fifo(u)
    decreases |ops|
  {
    hide Step, Fifo, Safe;
    if ops != [] {
      assert Valid(t.b) by { FifoValid(t); }
      StepFifo(t, ops[0]);
      RunFifo(Step(t, ops[0]), ops[1..], u);
    }
  }

  lemma FifoValid(t: Traffic)
    requires Fifo(t)
    ensures Valid(t.b)
  {
  }

  /** Users that only ever take everything out never meet the growth defect: the
      read index stays 0, so every append and every read is safe. */
  lemma WholeReadsStaySafe(t: Traffic, op: Op)
    requires Valid(t.b) && t.b.r == 0 && !op.RetrieveOp?
    ensures Safe(t, op) && Valid(Step(t, op).b) && Step(t, op).b.r == 0
  {
    hide Paste;
    match op
    case AppendOp(bs) => AppendWindow(t.b, bs);
    case RetrieveAllOp =>
    case ReadOp(input) => ReadWindow(t.b, input);
  }

  lemma {:induction false} WholeReadsAlwaysFifo(t: Traffic, ops: seq<Op>) returns (u: Traffic)
    requires Fifo(t) && t.b.r == 0 && forall i :: 0 <= i < |ops| ==> !ops[i].RetrieveOp?
    ensures Run(t, ops, u) && Fifo(u) && u.b.r == 0
    decreases |ops|
  {
    hide Step, Safe;
    if ops == [] {
      u := t;
    } else {
      WholeReadsStaySafe(t, ops[0]);
      StepFifo(t, ops[0]);
      u := WholeReadsAlwaysFifo(Step(t, ops[0]), ops[1..]);
    }
  }

  /** A growing append after a partial retrieve loses bytes: 8192 bytes in, 100 out,
      200 more in, and a hundred zeros stand before a truncated tail. */
  lemma GrowthCanCorrupt(first: seq<byte>, more: seq<byte>)
    requires |first| == 8192 && |more| == 200 && more[0] != 0
    ensures var b := Retrieve(Append(NewBuf(), first), 100);
      && Valid(b) && Readable(b) == first[100..]
      && Readable(Append(b, more)) == first[100..] + Zeros(100) + more[..100]
      && Readable(Append(b, more)) != first[100..] + more
  {
    hide Append, Paste;
    AppendWindow(NewBuf(), first);
    var a := Append(NewBuf(), first);
    FullInPlace(first);
    assert Readable(a) == [] + first == first;
    var b := Retrieve(a, 100);
    assert Readable(b) == first[100..];
    AppendWindow(b, more);
    AppendFifoIff(b, more);
  }

  lemma FullInPlace(first: seq<byte>)
    requires |first| == 8192
    ensures var a := Append(NewBuf(), first); a.r == 0 && a.w == 8192 == |a.data|
  {
    hide Paste;
  }

  // ---------- the buffer object ----------

  /** copy(dst[at:], src), byte by byte; `src` is a snapshot, so an overlapping copy
      inside one slice behaves like Go's. */
  method CopyBytes(dst: array<byte>, at: nat, src: seq<byte>)
    requires at <= dst.Length
    modifies dst
    ensures dst[..] == Paste(old(dst[..]), at, src)
  {
    var i := 0;
    while i < |src| && at + i < dst.Length
      invariant 0 <= i <= |src| && at + i <= dst.Length
      invariant forall k :: 0 <= k < dst.Length ==>
        dst[k] == if at <= k < at + i then src[k - at] else old(dst[k])
    {
      dst[at + i] := src[i];
      i := i + 1;
    }
  }

  class Buffer {
    var data: array<byte>
    var readIndex: int
    var writeIndex: int

    ghost function View(): Buf
      reads this, data
    {
      Buf(data[..], readIndex, writeIndex)
    }

    constructor ()
      ensures View() == NewBuf() && fresh(data)
    {
      data := new byte[INITIAL](_ => 0);
      readIndex, writeIndex := 0, 0;
    }

    method ReadableBytes() returns (n: int)
      requires Valid(View())
      ensures n == |Readable(View())|
    {
      n := writeIndex - readIndex;
    }

    method Peek() returns (bs: seq<byte>)
      requires Valid(View())
      ensures bs == Readable(View())
    {
      bs := data[readIndex..writeIndex];
    }

    /** `ok` is false where the source panics.  A negative count is accepted, and the
        buffer stays usable exactly when it does not reach below index 0. */
    method RetrieveBytes(n: int) returns (ok: bool)
      requires Valid(View())
      modifies this
      ensures ok <==> n <= old(writeIndex - readIndex)
      ensures View() == if ok then Retrieve(old(View()), n) else old(View())
      ensures ok ==> (Valid(View()) <==> old(readIndex) + n >= 0)
      ensures data == old(data)
    {
      if writeIndex - readIndex < n {
        return false;
      }
      readIndex := readIndex + n;
      return true;
    }

    method RetrieveAsString() returns (s: seq<byte>)
      requires Valid(View())
      modifies this
      ensures s == Readable(old(View())) && View() == RetrieveAll(old(View())) && data == old(data)
    {
      s := data[readIndex..writeIndex];
      readIndex, writeIndex := 0, 0;
    }

    method AppendBytes(bs: seq<byte>)
      requires Valid(View())
      modifies this, data
      ensures View() == Append(old(View()), bs)
      ensures data == old(data) || fresh(data)
    {
      if data.Length - writeIndex >= |bs| {
        CopyBytes(data, writeIndex, bs);
        writeIndex := writeIndex + |bs|;
      } else if data.Length >= writeIndex - readIndex + |bs| {
        var sz := writeIndex - readIndex + |bs|;
        CopyBytes(data, 0, data[readIndex..writeIndex]);
        CopyBytes(data, writeIndex - readIndex, bs);
        readIndex, writeIndex := 0, sz;
      } else {
        var newBytes := new byte[writeIndex - readIndex + |bs| + HEADROOM](_ => 0);
        var sz := writeIndex - readIndex + |bs|;
        assert newBytes[..] == Zeros(sz + HEADROOM);
        CopyBytes(newBytes, 0, data[readIndex..writeIndex]);
        CopyBytes(newBytes, writeIndex, bs);
        data := newBytes;
        readIndex, writeIndex := 0, sz;
      }
    }

    /** `input` is what readv delivers: first into the tail, then into `extrabuf`. */
    method ReadFromFD(input: seq<byte>, extrabuf: array<byte>) returns (size: nat)
      requires Valid(View()) && extrabuf != data
      requires |input| <= data.Length - writeIndex + extrabuf.Length
      modifies this, data, extrabuf
      ensures View() == ReadFD(old(View()), input)
      ensures size == |Delivered(old(View()), input)|
      ensures data == old(data) || fresh(data)
    {
      hide Append, Paste;
      var writable := data.Length - writeIndex;
      if writable == 0 {
        return 0;
      }
      size := |input|;
      if size == 0 {
        return;
      }
      if size <= writable {
        CopyBytes(data, writeIndex, input);
        writeIndex := writeIndex + size;
      } else {
        CopyBytes(data, writeIndex, input[..writable]);
        CopyBytes(extrabuf, 0, input[writable..]);
        writeIndex := data.Length;
        var spilled := extrabuf[..size - writable];
        assert spilled == input[writable..];
        AppendBytes(spilled);
      }
    }
  }
}
