/** Write interest and the point at which the write side is shut down.  Nothing here asks
    whether the byte streams are intact: what a write event is awaited for and when SHUT_WR
    is issued depends on how much is pending, not on what. */
module ConnectionShutdown {
  import opened Bytes
  import B = NetBuffer
  import opened Connection
  import opened ConnectionStreams

  // ---------- write interest ----------

  /** A connection that is not closed has read interest on; output pending on an open one has
      write interest on, and so has one that waits to be shut down. */
  ghost predicate Tidy(k: Conn)
    requires B.Valid(k.out)
  {
    && (!k.state.Disconnected? ==> k.events.read)
    && (k.state.Connecting? ==> Pending(k) == [] && k.events == Mask(true, true) && !k.shut)
    && (k.state.Connected? ==> !k.shut)
    && (k.state.Disconnecting? && !k.shut ==> k.events.write)
    && (Open(k.state) && Pending(k) != [] ==> k.events.write)
  }

  lemma CallTidy(k: Conn, call: Call)
    requires B.Valid(k.out) && Tidy(k)
    ensures var r := Perform(k, call); B.Valid(r.out) && Tidy(r) && r.early == k.early
  {
    hide B.Append;
    if call.CallSend? {
      B.AppendExtends(k.out, call.bs);
    }
  }

  lemma {:induction false} CallsTidy(k: Conn, calls: seq<Call>)
    requires B.Valid(k.out) && Tidy(k)
    ensures var r := PerformAll(k, calls); Tidy(r) && r.early == k.early
    decreases |calls|
  {
    hide Tidy, Perform;
    if calls != [] {
      CallTidy(k, calls[0]);
      CallsTidy(Perform(k, calls[0]), calls[1..]);
    }
  }

  // ---------- the write-complete callback ----------

  /** The calls end with the write side shut down and the connection not closed. */
  predicate ShutsForGood(calls: seq<Call>)
    decreases |calls|
  {
    && calls != []
    && match calls[0]
       case CallSend(_) => ShutsForGood(calls[1..])
       case CallShutdown => NeverCloses(calls[1..])
       case CallClose => false
  }

  /** The calls send something, shut down the write side later, and never close. */
  predicate SendsThenShuts(calls: seq<Call>)
    decreases |calls|
  {
    && calls != []
    && match calls[0]
       case CallSend(bs) => if bs == [] then SendsThenShuts(calls[1..]) else ShutsForGood(calls[1..])
       case CallShutdown => false
       case CallClose => false
  }

  lemma PendingGrows(k: Conn, bs: seq<byte>)
    requires B.Valid(k.out) && k.state.Connected?
    ensures B.Valid(Send(k, bs).out) && |Pending(Send(k, bs))| == |Pending(k)| + |bs|
  {
    hide B.Append;
    B.AppendWindow(k.out, bs);
  }

  /** Calls made in any state but Connected leave the output alone. */
  lemma {:induction false} CallsWhenNotConnected(k: Conn, calls: seq<Call>)
    requires B.Valid(k.out) && !k.state.Connected?
    ensures var r := PerformAll(k, calls);
      && r.out == k.out && r.wire == k.wire && r.accepted == k.accepted && r.events == k.events && r.shut == k.shut && r.early == k.early
      && (r.state.Disconnecting? <==> k.state.Disconnecting? && NeverCloses(calls))
      && (r.state == k.state || (k.state.Disconnecting? && r.state.Disconnected?))
    decreases |calls|
  {
    if calls != [] {
      CallsWhenNotConnected(Perform(k, calls[0]), calls[1..]);
      assert forall i :: 0 < i < |calls| ==> calls[i] == calls[1..][i - 1];
    }
  }

  lemma {:induction false} CallsWithPending(k: Conn, calls: seq<Call>)
    requires B.Valid(k.out) && k.state.Connected? && Pending(k) != []
    ensures var r := PerformAll(k, calls);
      Pending(r) != [] && (r.state.Disconnecting? <==> ShutsForGood(calls))
    decreases |calls|
  {
    hide B.Append;
    if calls != [] {
      var k' := Perform(k, calls[0]);
      KeepsValid(k, calls[0]);
      match calls[0]
      case CallSend(bs) =>
        PendingGrows(k, bs);
        CallsWithPending(k', calls[1..]);
      case _ =>
        CallsWhenNotConnected(k', calls[1..]);
    }
  }

  /** A write-complete callback leaves a disconnecting connection with output pending
      if and only if it sends something and then shuts the write side down. */
  lemma {:induction false} CallbackPendingIff(k: Conn, calls: seq<Call>)
    requires B.Valid(k.out) && k.state.Connected? && Pending(k) == []
    ensures var r := PerformAll(k, calls);
      r.state.Disconnecting? && Pending(r) != [] <==> SendsThenShuts(calls)
    decreases |calls|
  {
    hide B.Append;
    if calls != [] {
      var k' := Perform(k, calls[0]);
      KeepsValid(k, calls[0]);
      match calls[0]
      case CallSend(bs) =>
        PendingGrows(k, bs);
        if bs == [] {
          CallbackPendingIff(k', calls[1..]);
        } else {
          CallsWithPending(k', calls[1..]);
        }
      case _ =>
        CallsWhenNotConnected(k', calls[1..]);
    }
  }

  /** A write event that drains a connected connection whose callback sends and then shuts
      down. */
  predicate EarlyKind(k: Conn, st: Step)
    requires Enabled(k, st)
  {
    st.WriteReady? && k.state.Connected? && st.n == |Pending(k)| && SendsThenShuts(st.calls)
  }

  lemma WriteEarlyIff(k: Conn, n: int, calls: seq<Call>)
    requires Enabled(k, WriteReady(n, calls)) && Tidy(k)
    ensures var r := HandleWrite(k, n, calls);
      && (r.early <==> k.early || EarlyKind(k, WriteReady(n, calls)))
      && (B.Valid(r.out) ==> Tidy(r))
  {
    hide PerformAll, B.Append, SendsThenShuts;
    var w := Written(k, n);
    if n == |Pending(k)| {
      if w.state.Connected? {
        CallbackPendingIff(w, calls);
        CallsTidy(w, calls);
      } else {
        CallsWhenNotConnected(w, calls);
      }
    }
  }

  /** Whatever the step, failed writes and corrupted streams included: it issues SHUT_WR with
      bytes pending if and only if it is a write event of that kind, and it leaves write
      interest in order. */
  lemma EarlyShutdownIff(k: Conn, st: Step)
    requires Enabled(k, st) && Tidy(k)
    ensures Next(k, st).early <==> k.early || EarlyKind(k, st)
    ensures B.Valid(Next(k, st).out) ==> Tidy(Next(k, st))
  {
    hide HandleWrite, Perform, PerformAll, SendsThenShuts, B.ReadFD, Heard, Tidy;
    match st
    case Api(call) => CallTidy(k, call);
    case WriteReady(n, calls) => WriteEarlyIff(k, n, calls);
    case ReadReady(input, take, calls) =>
      if B.Delivered(k.inp, input) == [] {
        CallTidy(k, CallClose);
        CloseIsCall(k);
      } else {
        var h := Heard(k, input, take);
        HeardLeaves(k, input, take);
        SameTidy(k, h);
        CallsTidy(h, calls);
      }
  }

  lemma CloseIsCall(k: Conn)
    requires B.Valid(k.out)
    ensures Perform(k, CallClose) == ForceClose(k)
  {
  }

  lemma SameTidy(k: Conn, h: Conn)
    requires B.Valid(k.out) && Tidy(k)
    requires h.out == k.out && h.state == k.state && h.events == k.events && h.shut == k.shut
    ensures Tidy(h)
  {
  }

  /** What a write event leaves to wait for when its callback makes no call: only reads once
      everything is written, and the same as before otherwise; a drained connection that
      was to be shut down is. */
  lemma InterestAfterWrite(k: Conn, n: nat)
    requires Enabled(k, WriteReady(n, [])) && Tidy(k)
    ensures var r := HandleWrite(k, n, []);
      && r.state == k.state && r.accepted == k.accepted && B.Valid(r.out) && |Pending(r)| == |Pending(k)| - n
      && (Pending(r) == [] ==> !r.events.write && r.events.read && (r.state.Disconnecting? ==> r.shut))
      && (Pending(r) != [] ==> r.events.write && r.events.read && r.shut == k.shut)
  {
  }

  /** An accepted Send, of nothing too, turns write interest on and leaves read interest. */
  lemma InterestAfterSend(k: Conn, bs: seq<byte>)
    requires B.Valid(k.out) && Tidy(k) && k.state.Connected?
    ensures var r := Send(k, bs);
      r.events == Mask(true, true) && r.state == k.state && r.accepted == k.accepted + bs && r.shut == k.shut
  {
    hide B.Append;
  }

  // ---------- runs ----------

  /** Some step of the run is of that kind. */
  ghost predicate EverEarly(k: Conn, steps: seq<Step>)
    decreases |steps|
  {
    && steps != [] && Enabled(k, steps[0])
    && (EarlyKind(k, steps[0]) || EverEarly(Next(k, steps[0]), steps[1..]))
  }

  lemma {:induction false} RunEarlyIff(k: Conn, steps: seq<Step>, r: Conn)
    requires Ran(k, steps, r) && (B.Valid(k.out) ==> Tidy(k))
    ensures r.early <==> k.early || EverEarly(k, steps)
    ensures B.Valid(r.out) ==> Tidy(r)
    decreases |steps|
  {
    hide Enabled, Next, EarlyKind, Tidy;
    if steps != [] {
      EnabledUsable(k, steps[0]);
      EarlyShutdownIff(k, steps[0]);
      RunEarlyIff(Next(k, steps[0]), steps[1..], r);
    }
  }

  lemma FreshTidy(k: Conn)
    requires B.Valid(k.out) && k.out.r == k.out.w && k.events == Mask(true, true) && !k.shut
    ensures Tidy(k)
  {
  }

  /** In every run of a connection, whatever is written, fails, grows or is called back:
      SHUT_WR is ever issued with bytes pending if and only if some step is a write event
      that drains the connection and whose callback sends and then shuts down; output
      pending on an open connection has write interest on; so has a connection that waits to
      be shut down; and every open connection has read interest on. */
  lemma EarlyShutdownsIff(steps: seq<Step>, r: Conn)
    requires Ran(Establish(NewConn()), steps, r)
    ensures r.early <==> EverEarly(Establish(NewConn()), steps)
    ensures B.Valid(r.out) && Open(r.state) && Pending(r) != [] ==> r.events.write
    ensures r.state.Connected? && B.Valid(r.out) ==> !r.shut
    ensures r.state.Disconnecting? && !r.shut && B.Valid(r.out) ==> r.events.write
    ensures Open(r.state) && B.Valid(r.out) ==> r.events.read
  {
    hide Ran, EverEarly, B.NewBuf;
    FreshTidy(Establish(NewConn()));
    RunEarlyIff(Establish(NewConn()), steps, r);
  }

  /** The callback does it on a new connection, whose first write event finds nothing to
      write: it sends a byte and shuts down. */
  lemma EarlyShutdownRun(b: byte) returns (r: Conn)
    ensures Ran(Establish(NewConn()), [WriteReady(0, [CallSend([b]), CallShutdown])], r) && r.early
  {
    hide HandleWrite, SendsThenShuts, B.NewBuf;
    var k := Establish(NewConn());
    var st := WriteReady(0, [CallSend([b]), CallShutdown]);
    FreshTidy(k);
    SendThenShut(b);
    r := Next(k, st);
    EarlyShutdownIff(k, st);
    assert Ran(r, [st][1..], r);
  }

  lemma SendThenShut(b: byte)
    ensures SendsThenShuts([CallSend([b]), CallShutdown])
  {
    var calls := [CallSend([b]), CallShutdown];
    assert calls[1..] == [CallShutdown];
    assert calls[1..][1..] == [] && NeverCloses([]);
  }

  // ---------- without failed writes ----------

  /** What was written since the buffer was last compacted still lies in front of the
      pending bytes. */
  ghost predicate Trail(k: Conn)
    requires B.Valid(k.out)
  {
    k.out.r <= |k.wire| && k.out.data[..k.out.r] == k.wire[|k.wire| - k.out.r..]
  }

  ghost predicate Inv(k: Conn) {
    && Usable(k) && Trail(k) && Tidy(k)
    && (k.state.Disconnecting? && k.shut && !k.early ==> Pending(k) == [])
  }

  lemma FreshInv(k: Conn)
    requires Usable(k) && k.out.r == 0 == k.out.w && k.events == Mask(true, true) && !k.shut
    ensures Inv(k)
  {
  }

  lemma CallKeepsInv(k: Conn, call: Call)
    requires Inv(k)
    ensures Inv(Perform(k, call))
  {
    hide B.Append;
    CallTidy(k, call);
    if call.CallSend? {
      B.AppendTrail(k.out, call.bs);
    }
  }

  lemma {:induction false} CallsKeepInv(k: Conn, calls: seq<Call>)
    requires Inv(k)
    ensures Inv(PerformAll(k, calls))
    decreases |calls|
  {
    hide Inv, Perform;
    if calls != [] {
      InvValid(k);
      CallKeepsInv(k, calls[0]);
      CallsKeepInv(Perform(k, calls[0]), calls[1..]);
    }
  }

  lemma InvValid(k: Conn)
    requires Inv(k)
    ensures Usable(k) && Tidy(k) && Trail(k)
  {
  }

  lemma WrittenTrail(k: Conn, n: nat)
    requires B.Valid(k.out) && Trail(k) && n <= |Pending(k)|
    ensures Trail(Written(k, n))
  {
    var w := Written(k, n);
    assert n == 0 ==> Pending(k)[..n] == [];
    assert w.wire == k.wire + Pending(k)[..n];
    assert w.out.data[..w.out.r] == k.out.data[..k.out.r] + Pending(k)[..n];
    assert w.wire[|w.wire| - w.out.r..] == k.wire[|k.wire| - k.out.r..] + Pending(k)[..n];
  }

  /** handleWrite keeps the invariant for every callback, as long as the write did not
      fail. */
  lemma HandleWriteKeepsInv(k: Conn, n: nat, calls: seq<Call>)
    requires Inv(k) && Enabled(k, WriteReady(n, calls))
    ensures Inv(HandleWrite(k, n, calls))
  {
    hide PerformAll, B.Append, SendsThenShuts, Trail, Tidy;
    var w := Written(k, n);
    WriteEarlyIff(k, n, calls);
    WrittenTrail(k, n);
    if n == |Pending(k)| {
      if w.state.Connected? {
        assert Tidy(w) by { DrainedTidy(k, w); }
        CallsKeepInv(w, calls);
        SameTrail(PerformAll(w, calls), HandleWrite(k, n, calls));
      } else {
        CallsWhenNotConnected(w, calls);
        SameTrail(w, HandleWrite(k, n, calls));
      }
    }
  }

  lemma DrainedTidy(k: Conn, w: Conn)
    requires B.Valid(k.out) && Tidy(k) && B.Valid(w.out) && Pending(w) == []
    requires k.state.Connected? && w.state.Connected? && w.shut == k.shut && w.events.read == k.events.read
    ensures Tidy(w)
  {
  }

  lemma SameTrail(k: Conn, r: Conn)
    requires B.Valid(k.out) && Trail(k) && r.out == k.out && r.wire == k.wire
    ensures Trail(r)
  {
  }

  lemma StepKeepsInv(k: Conn, st: Step)
    requires Inv(k) && Enabled(k, st) && (st.WriteReady? ==> st.n >= 0)
    ensures Inv(Next(k, st))
  {
    hide Inv, HandleWrite, Perform, PerformAll, B.ReadFD, Heard;
    InvValid(k);
    match st
    case Api(call) => CallKeepsInv(k, call);
    case WriteReady(n, calls) => HandleWriteKeepsInv(k, n, calls);
    case ReadReady(input, take, calls) =>
      if B.Delivered(k.inp, input) == [] {
        CallKeepsInv(k, CallClose);
        CloseIsCall(k);
      } else {
        HeardKeepsInv(k, input, take);
        CallsKeepInv(Heard(k, input, take), calls);
      }
  }

  lemma HeardKeepsInv(k: Conn, input: seq<byte>, take: Take)
    requires Inv(k) && CanTake(B.ReadFD(k.inp, input), take)
    ensures Inv(Heard(k, input, take))
  {
    hide B.ReadFD, Heard, Trail, Tidy;
    var h := Heard(k, input, take);
    HeardLeaves(k, input, take);
    SameTidy(k, h);
    SameTrail(k, h);
  }

  predicate NoneFails(steps: seq<Step>) {
    forall i :: 0 <= i < |steps| && steps[i].WriteReady? ==> steps[i].n >= 0
  }

  lemma {:induction false} RunKeepsInv(k: Conn, steps: seq<Step>, r: Conn)
    requires Inv(k) && Ran(k, steps, r) && NoneFails(steps)
    ensures Inv(r)
    decreases |steps|
  {
    hide Inv, Next, Enabled;
    if steps != [] {
      StepKeepsInv(k, steps[0]);
      RunKeepsInv(Next(k, steps[0]), steps[1..], r);
    }
  }

  /** In every run without a failed write SHUT_WR means that nothing is pending, unless it
      was issued early; so with the stream intact the peer has all that was accepted. */
  lemma ShutsWhenWritten(steps: seq<Step>, r: Conn)
    requires Ran(Establish(NewConn()), steps, r) && NoneFails(steps)
    ensures Usable(r)
    ensures r.state.Disconnecting? && r.shut && !r.early ==> Pending(r) == []
    ensures r.state.Disconnecting? && r.shut && !r.early && Flow(r) ==> r.wire == r.accepted
  {
    hide Ran, B.NewBuf;
    FreshInv(Establish(NewConn()));
    RunKeepsInv(Establish(NewConn()), steps, r);
    assert r.wire + [] == r.wire;
  }

  /** After ShutdownWrite the pending bytes are a ranking function: as long as SHUT_WR
      is not issued a write event is awaited, and each one lowers the pending bytes by
      what the kernel took or issues SHUT_WR. */
  lemma ShutdownRanks(k: Conn, n: nat, calls: seq<Call>)
    requires Usable(k) && Tidy(k) && k.state.Disconnecting? && !k.shut && n <= |Pending(k)|
    ensures Enabled(k, WriteReady(n, calls))
    ensures var r := HandleWrite(k, n, calls);
      && B.Valid(r.out)
      && |Pending(r)| == |Pending(k)| - n
      && (n == |Pending(k)| && NeverCloses(calls) ==> r.state.Disconnecting? && r.shut && r.early == k.early)
  {
    hide PerformAll;
    if n == |Pending(k)| {
      CallsWhenNotConnected(Written(k, n), calls);
    }
  }

  // ---------- failed writes ----------

  /** A write that fails hands -1 to Retrieve.  If something was written since the last
      compaction, the last byte on the wire is pending again, so that the peer gets it
      twice; otherwise the read index is -1 and Peek panics at the next write event,
      which is awaited.  Either way the stream, if it was intact, is broken for good. */
  lemma FailedWrite(k: Conn, calls: seq<Call>)
    requires Inv(k) && Enabled(k, WriteReady(-1, calls))
    ensures var r := Next(k, WriteReady(-1, calls));
      && (Intact(k) ==> !Intact(r)) && r.events.write && Open(r.state) && r.wire == k.wire
      && (B.Valid(r.out) <==> k.out.r > 0)
      && (k.out.r > 0 ==> k.wire != [] && Pending(r) == [k.wire[|k.wire| - 1]] + Pending(k))
      && (k.out.r == 0 ==> r.out.r == -1)
  {
    hide Tidy, Intact;
    var r := HandleWrite(k, -1, calls);
    assert k.wire + [] == k.wire;
    if k.out.r > 0 {
      assert k.out.data[..k.out.r][k.out.r - 1] == k.wire[|k.wire| - k.out.r..][k.out.r - 1];
      assert Pending(r) == [k.out.data[k.out.r - 1]] + Pending(k);
    }
    if Intact(k) {
      FailureBreaks(k, calls);
    }
  }

  lemma FailureBreaks(k: Conn, calls: seq<Call>)
    requires Intact(k) && Enabled(k, WriteReady(-1, calls))
    ensures !Intact(Next(k, WriteReady(-1, calls)))
  {
    hide Intact, Next, Enabled;
    EnabledUsable(k, WriteReady(-1, calls));
    IntactIsLong(k);
    StepIntactIff(k, WriteReady(-1, calls));
  }

  lemma IntactIsLong(k: Conn)
    requires Intact(k)
    ensures Long(k)
  {
    assert |k.wire + Pending(k)| == |k.accepted| && |k.consumed + Unread(k)| == |k.received|;
  }

  /** The first write of a new connection fails: the index is -1. */
  lemma FirstWriteFails() returns (r: Conn)
    ensures Ran(Establish(NewConn()), [WriteReady(-1, [])], r) && r.out.r == -1
  {
    hide B.NewBuf;
    r := Written(Establish(NewConn()), -1);
    assert Ran(r, [WriteReady(-1, [])][1..], r);
  }

  /** Two bytes are sent, one of them is written, and then a write fails: the first byte is
      on the wire and pending again. */
  lemma ByteSentTwice(a: byte, b: byte) returns (s: Conn)
    ensures Ran(Establish(NewConn()), [Api(CallSend([a, b])), WriteReady(1, []), WriteReady(-1, [])], s)
    ensures B.Valid(s.out) && s.wire == [a] && Pending(s) == [a, b]
  {
    hide B.NewBuf, B.Append, Inv;
    var k := Establish(NewConn());
    FreshInv(k);
    var sent := TwoSent(k, a, b);
    InvValid(sent);
    var one := Written(sent, 1);
    StepKeepsInv(sent, WriteReady(1, []));
    s := Written(one, -1);
    SentOne(a, b, one);
    FailedWrite(one, []);
    ThreeSteps(k, sent, one, s, [a, b]);
  }

  lemma TwoSent(k: Conn, a: byte, b: byte) returns (sent: Conn)
    requires Inv(k) && k.state.Connected? && |k.out.data| - k.out.w >= 2 && Pending(k) == []
    ensures sent == Send(k, [a, b]) && Inv(sent) && B.Valid(sent.out) && Pending(sent) == [a, b]
    ensures sent.state.Connected? && sent.events.write && sent.wire == k.wire
  {
    hide B.Append, Inv;
    InvValid(k);
    sent := Send(k, [a, b]);
    CallKeepsInv(k, CallSend([a, b]));
    B.AppendWindow(k.out, [a, b]);
    assert [] + [a, b] == [a, b];
  }

  lemma SentOne(a: byte, b: byte, one: Conn)
    requires Inv(one) && one.wire == [] + [a, b][..1] && Pending(one) == [a, b][1..]
    ensures one.wire == [a] && Pending(one) == [b] && [a] + [b] == [a, b]
  {
  }

  lemma ThreeSteps(k: Conn, sent: Conn, one: Conn, s: Conn, bs: seq<byte>)
    requires Usable(k) && sent == Send(k, bs) && Usable(sent) && Open(sent.state) && sent.events.write && |Pending(sent)| > 1
    requires one == Written(sent, 1) && Usable(one) && Open(one.state) && one.events.write && s == Written(one, -1)
    ensures Ran(k, [Api(CallSend(bs)), WriteReady(1, []), WriteReady(-1, [])], s)
  {
    hide Send, Written;
    var steps := [Api(CallSend(bs)), WriteReady(1, []), WriteReady(-1, [])];
    assert Ran(s, steps[3..], s);
    assert steps[2..][1..] == steps[3..] && Ran(one, steps[2..], s);
    assert steps[1..][1..] == steps[2..] && Ran(sent, steps[1..], s);
  }

  // ---------- the high-water callback ----------

  /** What the high-water callback does to its connection, when Send calls it. */
  datatype HighWater = Quiet | Shuts | Closes

  /** Send above the high-water level: append, callback, and only then write interest. */
  function SendOver(k: Conn, bs: seq<byte>, callback: HighWater): Conn
    requires B.Valid(k.out) && k.state.Connected?
  {
    var a := k.(out := B.Append(k.out, bs), accepted := k.accepted + bs);
    var c := match callback case Quiet => a case Shuts => ShutdownWrite(a) case Closes => ForceClose(a);
    c.(events := c.events.(write := true))
  }

  /** A high-water callback makes Send issue SHUT_WR with the bytes still pending if and only
      if it shuts down while write interest is off, that is, when nothing was pending
      before; a quiet one leaves Send as it is. */
  lemma HighWaterShutsIff(k: Conn, bs: seq<byte>, callback: HighWater)
    requires B.Valid(k.out) && Tidy(k) && k.state.Connected? && bs != []
    ensures SendOver(k, bs, Quiet) == Send(k, bs)
    ensures SendOver(k, bs, callback).early <==> k.early || (callback.Shuts? && !k.events.write)
    ensures SendOver(k, bs, callback).state ==
            match callback case Quiet => Connected case Shuts => Disconnecting case Closes => Disconnected
  {
    hide B.Append;
    B.AppendExtends(k.out, bs);
  }

  /** It does so on a new connection after its first write event. */
  lemma HighWaterShutsRun(b: byte) returns (k: Conn)
    ensures Ran(Establish(NewConn()), [WriteReady(0, [])], k)
    ensures B.Valid(k.out) && k.state.Connected? && !k.events.write && !k.early
    ensures SendOver(k, [b], Shuts).early
  {
    hide B.NewBuf, SendsThenShuts;
    var start := Establish(NewConn());
    FreshTidy(start);
    k := HandleWrite(start, 0, []);
    WriteEarlyIff(start, 0, []);
    assert Ran(k, [WriteReady(0, [])][1..], k);
    HighWaterShutsIff(k, [b], Shuts);
  }
}
