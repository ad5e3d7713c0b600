/** One TCP connection: its state, its two buffers, its interest in write events, and the
    point at which the write side is shut down. */
module Connection {
  import opened Bytes
  import B = NetBuffer

  datatype State = Connecting | Connected | Disconnecting | Disconnected

  /** The interest mask of the connection's channel. */
  datatype Mask = Mask(read: bool, write: bool)

  /** `accepted` is everything handed to Send while connected and `wire` everything the
      kernel took; `received` is everything the kernel delivered and `consumed`
      everything the message callback took out; `shut` tells whether shutdown(SHUT_WR)
      was issued, `early` whether that ever happened with bytes still pending. */
  datatype Conn = Conn(
    state: State,
    out: B.Buf,
    inp: B.Buf,
    events: Mask,
    accepted: seq<byte>,
    wire: seq<byte>,
    received: seq<byte>,
    consumed: seq<byte>,
    shut: bool,
    early: bool)

  function NewConn(): Conn {
    Conn(Connecting, B.NewBuf(), B.NewBuf(), Mask(true, true), [], [], [], [], false, false)
  }

  /** Both index pairs lie inside their slices. */
  predicate Usable(k: Conn) {
    B.Valid(k.out) && B.Valid(k.inp)
  }

  predicate Open(s: State) {
    s.Connected? || s.Disconnecting?
  }

  function Pending(k: Conn): seq<byte>
    requires B.Valid(k.out)
  {
    B.Readable(k.out)
  }

  function Unread(k: Conn): seq<byte>
    requires B.Valid(k.inp)
  {
    B.Readable(k.inp)
  }

  function Establish(k: Conn): Conn
    requires k.state.Connecting?
  {
    k.(state := Connected)
  }

  function Send(k: Conn, bs: seq<byte>): Conn
    requires B.Valid(k.out)
  {
    if k.state.Connected? then
      k.(out := B.Append(k.out, bs), accepted := k.accepted + bs, events := k.events.(write := true))
    else k
  }

  /** shutdown(SHUT_WR) */
  function Shut(k: Conn): Conn {
    k.(shut := true, early := k.early || k.out.r != k.out.w)
  }

  function ShutdownWrite(k: Conn): Conn {
    if !k.state.Connected? then k
    else if k.events.write then k.(state := Disconnecting)
    else Shut(k.(state := Disconnecting))
  }

  function ForceClose(k: Conn): Conn {
    if Open(k.state) then k.(state := Disconnected) else k
  }

  /** What a callback may do with its connection. */
  datatype Call = CallSend(bs: seq<byte>) | CallShutdown | CallClose

  function Perform(k: Conn, call: Call): Conn
    requires B.Valid(k.out)
  {
    match call
    case CallSend(bs) => Send(k, bs)
    case CallShutdown => ShutdownWrite(k)
    case CallClose => ForceClose(k)
  }

  function PerformAll(k: Conn, calls: seq<Call>): (r: Conn)
    requires B.Valid(k.out)
    ensures B.Valid(r.out) && r.inp == k.inp && r.received == k.received && r.consumed == k.consumed && r.wire == k.wire
    decreases |calls|
  {
    hide B.Append;
    if calls == [] then k
    else
      KeepsValid(k, calls[0]);
      PerformAll(Perform(k, calls[0]), calls[1..])
  }

  lemma KeepsValid(k: Conn, call: Call)
    requires B.Valid(k.out)
    ensures B.Valid(Perform(k, call).out)
  {
    hide B.Append;
    if call.CallSend? {
      B.AppendWindow(k.out, call.bs);
    }
  }

  lemma OneCall(k: Conn, call: Call)
    requires B.Valid(k.out)
    ensures PerformAll(k, [call]) == Perform(k, call)
  {
    hide B.Append;
    KeepsValid(k, call);
    assert [call][1..] == [];
  }

  // ---------- writing ----------

  /** handleWrite before the callback: write(2) returned `n`, -1 when it failed, and `n`
      goes to Retrieve as it is; once nothing is pending, interest in write events is
      dropped. */
  function Written(k: Conn, n: int): (r: Conn)
    requires B.Valid(k.out) && -1 <= n <= |Pending(k)|
    ensures n >= 0 ==> B.Valid(r.out) && Pending(r) == Pending(k)[n..]
  {
    var out := B.Retrieve(k.out, n);
    var events := if n == |Pending(k)| then k.events.(write := false) else k.events;
    k.(out := out, wire := k.wire + if n > 0 then Pending(k)[..n] else [], events := events)
  }

  /** handleWrite, with a write-complete callback that makes `calls` inline. */
  function HandleWrite(k: Conn, n: int, calls: seq<Call>): Conn
    requires B.Valid(k.out) && -1 <= n <= |Pending(k)|
  {
    var w := Written(k, n);
    if n < |Pending(k)| then w
    else
      var r := PerformAll(w, calls);
      if r.state.Disconnecting? then Shut(r) else r
  }

  // ---------- reading ----------

  /** How the message callback takes bytes out of the input buffer: Retrieve, or
      RetrieveAsString. */
  datatype Take = TakeBytes(n: nat) | TakeAll

  /** Retrieve does not panic. */
  predicate CanTake(b: B.Buf, take: Take) {
    take.TakeBytes? ==> take.n <= b.w - b.r
  }

  /** handleRead with bytes delivered, up to the calls of the message callback. */
  function Heard(k: Conn, input: seq<byte>, take: Take): (r: Conn)
    requires Usable(k) && CanTake(B.ReadFD(k.inp, input), take)
    ensures Usable(r) && r.out == k.out
  {
    hide B.ReadFD;
    B.ReadExtends(k.inp, input);
    var b := B.ReadFD(k.inp, input);
    var all := B.Readable(b);
    match take
    case TakeBytes(n) =>
      k.(inp := B.Retrieve(b, n), received := k.received + B.Delivered(k.inp, input), consumed := k.consumed + all[..n])
    case TakeAll =>
      k.(inp := B.RetrieveAll(b), received := k.received + B.Delivered(k.inp, input), consumed := k.consumed + all)
  }

  /** handleRead: no bytes, at end of file or with the tail of the slice full, means close;
      otherwise the message callback takes bytes and makes `calls`. */
  function HandleRead(k: Conn, input: seq<byte>, take: Take, calls: seq<Call>): Conn
    requires Usable(k) && CanTake(B.ReadFD(k.inp, input), take)
  {
    if B.Delivered(k.inp, input) == [] then ForceClose(k) else PerformAll(Heard(k, input, take), calls)
  }

  /** A read event closes an open connection if and only if the peer closed its side, or
      the tail of the input slice is full, even with bytes waiting, or the message
      callback closes it. */
  lemma ReadClosesIff(k: Conn, input: seq<byte>, take: Take, calls: seq<Call>)
    requires Usable(k) && Open(k.state) && CanTake(B.ReadFD(k.inp, input), take)
    ensures HandleRead(k, input, take, calls).state.Disconnected? <==>
            input == [] || |k.inp.data| == k.inp.w || !NeverCloses(calls)
  {
    hide PerformAll, B.ReadFD;
    if B.Delivered(k.inp, input) != [] {
      CallsClose(Heard(k, input, take), calls);
    }
  }

  lemma {:induction false} CallsClose(k: Conn, calls: seq<Call>)
    requires B.Valid(k.out) && (Open(k.state) || k.state.Disconnected?)
    ensures PerformAll(k, calls).state.Disconnected? <==> k.state.Disconnected? || !NeverCloses(calls)
    ensures Open(PerformAll(k, calls).state) || PerformAll(k, calls).state.Disconnected?
    decreases |calls|
  {
    hide B.Append;
    if calls != [] {
      KeepsValid(k, calls[0]);
      CallsClose(Perform(k, calls[0]), calls[1..]);
      assert forall i :: 0 < i < |calls| ==> calls[i] == calls[1..][i - 1];
    }
  }

  predicate NeverCloses(calls: seq<Call>) {
    forall i :: 0 <= i < |calls| ==> !calls[i].CallClose?
  }

  // ---------- steps ----------

  datatype Step =
    | Api(call: Call)
    | WriteReady(n: int, calls: seq<Call>)
    | ReadReady(input: seq<byte>, take: Take, calls: seq<Call>)

  /** The event loop runs this step: API calls at any time, a write event while there is
      interest in one, and likewise a read event.  A write fails with -1 or takes
      between 0 and all pending bytes. */
  predicate Enabled(k: Conn, st: Step) {
    && Usable(k)
    && match st
       case Api(_) => true
       case WriteReady(n, _) => Open(k.state) && k.events.write && -1 <= n <= |Pending(k)|
       case ReadReady(input, take, _) => Open(k.state) && k.events.read && CanTake(B.ReadFD(k.inp, input), take)
  }

  function Next(k: Conn, st: Step): Conn
    requires Enabled(k, st)
  {
    match st
    case Api(call) => Perform(k, call)
    case WriteReady(n, calls) => HandleWrite(k, n, calls)
    case ReadReady(input, take, calls) => HandleRead(k, input, take, calls)
  }

  /** HandleEvent of the channel when one event has both bits: the read callback, then the
      write callback, whatever the first one did.  On a descriptor that the first one
      closed write(2) fails. */
  function HandleEvent(k: Conn, input: seq<byte>, take: Take, calls: seq<Call>, n: int, after: seq<Call>): Conn
    requires Enabled(k, ReadReady(input, take, calls))
    requires var a := HandleRead(k, input, take, calls); Open(a.state) ==> -1 <= n <= |Pending(a)|
  {
    var a := HandleRead(k, input, take, calls);
    HandleWrite(a, if Open(a.state) then n else -1, after)
  }

  /** With the connection still open these are its two steps; with the connection closed the
      write callback puts nothing on the wire, calls nothing back and leaves the interest
      mask alone, but moves the read index of the output one down, as a failed write does. */
  lemma EventIsTwoSteps(k: Conn, input: seq<byte>, take: Take, calls: seq<Call>, n: int, after: seq<Call>)
    requires Enabled(k, ReadReady(input, take, calls)) && k.events.write
    requires var a := HandleRead(k, input, take, calls); Open(a.state) ==> -1 <= n <= |Pending(a)|
    ensures var a := Next(k, ReadReady(input, take, calls));
            var r := HandleEvent(k, input, take, calls, n, after);
      && (Open(a.state) ==> Enabled(a, WriteReady(n, after)) && r == Next(a, WriteReady(n, after)))
      && (!Open(a.state) ==> r == a.(out := a.out.(r := a.out.r - 1)))
  {
    hide PerformAll, B.ReadFD;
    var a := HandleRead(k, input, take, calls);
    assert a.wire + [] == a.wire;
    if B.Delivered(k.inp, input) != [] {
      CallsKeepInterest(Heard(k, input, take), calls);
    }
  }

  /** No call turns off interest of any kind. */
  lemma {:induction false} CallsKeepInterest(k: Conn, calls: seq<Call>)
    requires B.Valid(k.out)
    ensures k.events.write ==> PerformAll(k, calls).events.write
    ensures PerformAll(k, calls).events.read == k.events.read
    decreases |calls|
  {
    hide B.Append;
    if calls != [] {
      KeepsValid(k, calls[0]);
      CallsKeepInterest(Perform(k, calls[0]), calls[1..]);
    }
  }

  /** Read interest is never turned off. */
  lemma StepKeepsRead(k: Conn, st: Step)
    requires Enabled(k, st)
    ensures Next(k, st).events.read == k.events.read
  {
    hide PerformAll, B.ReadFD, B.Append;
    match st
    case Api(_) =>
    case WriteReady(n, calls) =>
      if n == |Pending(k)| {
        CallsKeepInterest(Written(k, n), calls);
      }
    case ReadReady(input, take, calls) =>
      CallsKeepInterest(Heard(k, input, take), calls);
  }

  function Age(s: State): nat {
    match s case Connecting => 1 case Connected => 2 case Disconnecting => 3 case Disconnected => 4
  }

  /** The state only advances, whatever the callbacks do. */
  lemma StateAdvances(k: Conn, st: Step)
    requires Enabled(k, st)
    ensures Age(k.state) <= Age(Next(k, st).state)
  {
    hide B.ReadFD, B.Append, PerformAll;
    match st
    case Api(_) =>
    case WriteReady(n, calls) =>
      if n == |Pending(k)| {
        CallsAdvance(Written(k, n), calls);
      }
    case ReadReady(input, take, calls) =>
      CallsAdvance(Heard(k, input, take), calls);
  }

  lemma {:induction false} CallsAdvance(k: Conn, calls: seq<Call>)
    requires B.Valid(k.out)
    ensures Age(k.state) <= Age(PerformAll(k, calls).state)
    decreases |calls|
  {
    hide B.Append;
    if calls != [] {
      KeepsValid(k, calls[0]);
      CallsAdvance(Perform(k, calls[0]), calls[1..]);
    }
  }

  // ---------- the connection object ----------

  class TcpConnection {
    var state: State
    var outputBuffer: B.Buffer
    var inputBuffer: B.Buffer
    var events: Mask
    var shut: bool
    ghost var accepted: seq<byte>
    ghost var wire: seq<byte>
    ghost var received: seq<byte>
    ghost var consumed: seq<byte>
    ghost var early: bool

    ghost function View(): Conn
      reads this, outputBuffer, outputBuffer.data, inputBuffer, inputBuffer.data
    {
      Conn(state, outputBuffer.View(), inputBuffer.View(), events, accepted, wire, received, consumed, shut, early)
    }

    /** The two buffers share nothing. */
    ghost predicate Apart()
      reads this, outputBuffer, inputBuffer
    {
      outputBuffer != inputBuffer && outputBuffer.data != inputBuffer.data
    }

    constructor ()
      ensures View() == NewConn() && Apart()
      ensures fresh(outputBuffer) && fresh(outputBuffer.data) && fresh(inputBuffer) && fresh(inputBuffer.data)
    {
      outputBuffer := new B.Buffer();
      inputBuffer := new B.Buffer();
      state, events, shut := Connecting, Mask(true, true), false;
      accepted, wire, received, consumed, early := [], [], [], [], false;
    }

    /** The function Send submits to the loop. */
    method SendInLoop(bs: seq<byte>)
      requires Apart() && B.Valid(outputBuffer.View())
      modifies this, outputBuffer, outputBuffer.data
      ensures Apart() && outputBuffer == old(outputBuffer) && inputBuffer == old(inputBuffer)
      ensures outputBuffer.data == old(outputBuffer.data) || fresh(outputBuffer.data)
      ensures View() == Send(old(View()), bs)
    {
      hide B.Append;
      if state == Connected {
        outputBuffer.AppendBytes(bs);
        accepted := accepted + bs;
        if !events.write {
          events := events.(write := true);
        }
      }
    }

    /** The system call shutdown(SHUT_WR). */
    method ShutWrite()
      modifies this`shut, this`early
      ensures View() == Shut(old(View()))
    {
      early := early || outputBuffer.readIndex != outputBuffer.writeIndex;
      shut := true;
    }

    method ShutdownWriteInLoop()
      modifies this`state, this`shut, this`early
      ensures View() == ShutdownWrite(old(View()))
    {
      if state == Connected {
        state := Disconnecting;
        if !events.write {
          ShutWrite();
        }
      }
    }

    method ForceCloseInLoop()
      modifies this`state
      ensures View() == ForceClose(old(View()))
    {
      if state == Disconnecting || state == Connected {
        state := Disconnected;
      }
    }

    /** One call a callback makes. */
    method MakeCall(call: Call)
      requires Apart() && B.Valid(outputBuffer.View())
      modifies this, outputBuffer, outputBuffer.data
      ensures Apart() && outputBuffer == old(outputBuffer) && inputBuffer == old(inputBuffer)
      ensures outputBuffer.data == old(outputBuffer.data) || fresh(outputBuffer.data)
      ensures View() == Perform(old(View()), call)
    {
      hide Send, ShutdownWrite, ForceClose;
      match call
      case CallSend(bs) => SendInLoop(bs);
      case CallShutdown => ShutdownWriteInLoop();
      case CallClose => ForceCloseInLoop();
    }

    /** All calls a callback makes. */
    method MakeCalls(calls: seq<Call>)
      requires Apart() && B.Valid(outputBuffer.View())
      modifies this, outputBuffer, outputBuffer.data
      ensures Apart() && outputBuffer == old(outputBuffer) && inputBuffer == old(inputBuffer)
      ensures outputBuffer.data == old(outputBuffer.data) || fresh(outputBuffer.data)
      ensures View() == PerformAll(old(View()), calls)
    {
      hide Perform;
      var i := 0;
      assert calls[0..] == calls;
      while i < |calls|
        invariant 0 <= i <= |calls| && Apart() && B.Valid(outputBuffer.View())
        invariant outputBuffer == old(outputBuffer) && inputBuffer == old(inputBuffer)
        invariant outputBuffer.data == old(outputBuffer.data) || fresh(outputBuffer.data)
        invariant PerformAll(View(), calls[i..]) == PerformAll(old(View()), calls)
      {
        KeepsValid(View(), calls[i]);
        assert calls[i..][1..] == calls[i + 1..];
        MakeCall(calls[i]);
        i := i + 1;
      }
    }

    /** handleWrite; write(2) returned `n` and the write-complete callback makes `calls`. */
    method HandleWriteEvent(n: int, calls: seq<Call>)
      requires Apart() && B.Valid(outputBuffer.View()) && -1 <= n <= |B.Readable(outputBuffer.View())|
      modifies this, outputBuffer, outputBuffer.data
      ensures View() == HandleWrite(old(View()), n, calls)
    {
      hide PerformAll, B.Append;
      ghost var pending := B.Readable(outputBuffer.View());
      var _ := outputBuffer.RetrieveBytes(n);
      wire := wire + if n > 0 then pending[..n] else [];
      if outputBuffer.writeIndex - outputBuffer.readIndex == 0 {
        events := events.(write := false);
        assert View() == Written(old(View()), n);
        MakeCalls(calls);
        if state == Disconnecting {
          ShutWrite();
        }
      }
    }

    /** handleRead; readv(2) delivered `input`, and the message callback takes bytes out and
        makes `calls`. */
    method HandleReadEvent(input: seq<byte>, extrabuf: array<byte>, take: Take, calls: seq<Call>)
      requires Apart() && Usable(View()) && CanTake(B.ReadFD(inputBuffer.View(), input), take)
      requires extrabuf != inputBuffer.data && extrabuf != outputBuffer.data
      requires |input| <= inputBuffer.data.Length - inputBuffer.writeIndex + extrabuf.Length
      modifies this, inputBuffer, inputBuffer.data, outputBuffer, outputBuffer.data, extrabuf
      ensures View() == HandleRead(old(View()), input, take, calls)
    {
      hide PerformAll, B.Append, B.ReadFD;
      B.ReadExtends(inputBuffer.View(), input);
      var n := inputBuffer.ReadFromFD(input, extrabuf);
      if n > 0 {
        ghost var all := B.Readable(inputBuffer.View());
        received := received + B.Delivered(old(inputBuffer.View()), input);
        if take.TakeBytes? {
          var _ := inputBuffer.RetrieveBytes(take.n);
          consumed := consumed + all[..take.n];
        } else {
          var _ := inputBuffer.RetrieveAsString();
          consumed := consumed + all;
        }
        assert View() == Heard(old(View()), input, take);
        MakeCalls(calls);
      } else {
        B.NothingDelivered(old(inputBuffer.View()), input);
        ForceCloseInLoop();
      }
    }
  }
}
