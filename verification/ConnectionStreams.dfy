/** The two byte streams of a connection: when, over a whole run, what was sent is what the
    peer gets, and what came is what the message callback gets. */
module ConnectionStreams {
  import opened Bytes
  import B = NetBuffer
  import opened Connection

  // ---------- the two streams ----------

  /** The bytes on the wire and the bytes pending are the bytes accepted. */
  ghost predicate Flow(k: Conn)
    requires B.Valid(k.out)
  {
    k.wire + Pending(k) == k.accepted
  }

  /** The bytes consumed and the bytes unread are the bytes received. */
  ghost predicate InFlow(k: Conn)
    requires B.Valid(k.inp)
  {
    k.consumed + Unread(k) == k.received
  }

  ghost predicate Intact(k: Conn) {
    Usable(k) && Flow(k) && InFlow(k)
  }

  /** No byte is missing, whatever happened. */
  ghost predicate Long(k: Conn)
    requires Usable(k)
  {
    |k.wire| + |Pending(k)| >= |k.accepted| && |k.consumed| + |Unread(k)| == |k.received|
  }

  /** No Send of these calls meets the growth defect of the buffer. */
  ghost predicate CallsSafe(k: Conn, calls: seq<Call>)
    requires B.Valid(k.out)
    decreases |calls|
  {
    calls == [] ||
    (&& (calls[0].CallSend? && k.state.Connected? ==> B.AppendSafe(k.out, calls[0].bs))
     && B.Valid(Perform(k, calls[0]).out) && CallsSafe(Perform(k, calls[0]), calls[1..]))
  }

  lemma SendFlowIff(k: Conn, bs: seq<byte>)
    requires B.Valid(k.out) && k.state.Connected?
    ensures B.Valid(Send(k, bs).out)
    ensures |k.wire| + |Pending(k)| >= |k.accepted| && Flow(Send(k, bs)) ==> Flow(k)
    ensures Flow(k) ==> (Flow(Send(k, bs)) <==> B.AppendSafe(k.out, bs))
    ensures |Pending(Send(k, bs))| == |Pending(k)| + |bs|
  {
    hide B.Append, B.AppendSafe;
    B.AppendFifoIff(k.out, bs);
    B.AppendExtends(k.out, bs);
    var after := Pending(Send(k, bs));
    if Flow(Send(k, bs)) && |k.wire| + |Pending(k)| >= |k.accepted| {
      PrefixesAgree(k.wire + Pending(k), k.wire + after, k.accepted, k.accepted + bs);
    }
    if Flow(k) {
      assert k.accepted + bs == k.wire + (Pending(k) + bs);
      if Flow(Send(k, bs)) {
        B.SameTail(k.wire, after, Pending(k) + bs);
      }
    }
  }

  lemma PrefixesAgree(a: seq<byte>, aa: seq<byte>, b: seq<byte>, bb: seq<byte>)
    requires a <= aa && b <= bb && |a| == |b| && aa == bb
    ensures a == b
  {
    assert a == aa[..|a|] && b == bb[..|b|];
  }

  lemma {:induction false} CallsFlowIff(k: Conn, calls: seq<Call>)
    requires B.Valid(k.out) && |k.wire| + |Pending(k)| >= |k.accepted|
    ensures var r := PerformAll(k, calls);
      && |r.wire| + |Pending(r)| - |r.accepted| == |k.wire| + |Pending(k)| - |k.accepted|
      && (Flow(r) ==> Flow(k))
      && (Flow(k) ==> (Flow(r) <==> CallsSafe(k, calls)))
    decreases |calls|
  {
    hide B.Append, B.AppendSafe, Flow;
    if calls != [] {
      var k' := Perform(k, calls[0]);
      KeepsValid(k, calls[0]);
      if calls[0].CallSend? && k.state.Connected? {
        SendFlowIff(k, calls[0].bs);
      } else {
        SameFlow(k, k');
      }
      CallsFlowIff(k', calls[1..]);
    }
  }

  lemma SameFlow(k: Conn, r: Conn)
    requires B.Valid(k.out) && r.out == k.out && r.wire == k.wire && r.accepted == k.accepted
    ensures Flow(r) <==> Flow(k)
  {
  }

  lemma WrittenFlowIff(k: Conn, n: int)
    requires B.Valid(k.out) && -1 <= n <= |Pending(k)| && |k.wire| + |Pending(k)| >= |k.accepted|
    requires B.Valid(Written(k, n).out)
    ensures var w := Written(k, n);
      && |w.wire| + |Pending(w)| >= |w.accepted|
      && (Flow(w) <==> Flow(k) && n >= 0)
  {
    if n >= 0 {
      assert k.wire + Pending(k) == (k.wire + Pending(k)[..n]) + Pending(k)[n..];
      assert n == 0 ==> k.wire + Pending(k)[..0] == k.wire;
    } else {
      var w := Written(k, n);
      assert |w.wire + Pending(w)| == |k.wire| + |Pending(k)| + 1;
    }
  }

  lemma HeardFlowIff(k: Conn, input: seq<byte>, take: Take)
    requires Usable(k) && CanTake(B.ReadFD(k.inp, input), take) && |k.consumed| + |Unread(k)| == |k.received|
    ensures var h := Heard(k, input, take);
      && |h.consumed| + |Unread(h)| == |h.received|
      && (InFlow(h) ==> InFlow(k))
      && (InFlow(k) ==> (InFlow(h) <==> B.ReadSafe(k.inp, input)))
  {
    hide B.ReadFD, B.ReadSafe;
    B.ReadExtends(k.inp, input);
    B.ReadWindow(k.inp, input);
    var all, got := B.Readable(B.ReadFD(k.inp, input)), B.Delivered(k.inp, input);
    var h := Heard(k, input, take);
    TakenStays(k, input, take);
    if InFlow(h) {
      PrefixesAgree(k.consumed + Unread(k), k.consumed + all, k.received, k.received + got);
    }
    if InFlow(k) {
      assert k.received + got == k.consumed + (Unread(k) + got);
      if InFlow(h) {
        B.SameTail(k.consumed, all, Unread(k) + got);
      }
    }
  }

  /** What the callback takes out goes from unread to consumed. */
  lemma TakenStays(k: Conn, input: seq<byte>, take: Take)
    requires Usable(k) && CanTake(B.ReadFD(k.inp, input), take)
    ensures var h := Heard(k, input, take);
      && B.Valid(B.ReadFD(k.inp, input))
      && h.consumed + Unread(h) == k.consumed + B.Readable(B.ReadFD(k.inp, input))
  {
    hide B.ReadFD;
    B.ReadExtends(k.inp, input);
    var all := B.Readable(B.ReadFD(k.inp, input));
    Rejoined(k.consumed, all, if take.TakeBytes? then take.n else |all|);
  }

  lemma Rejoined(a: seq<byte>, b: seq<byte>, n: nat)
    requires n <= |b|
    ensures a + b[..n] + b[n..] == a + b
    ensures n == |b| ==> b[..n] == b && b[n..] == []
  {
  }

  /** The step neither meets the growth defect of a buffer nor is a failed write. */
  ghost predicate StreamSafe(k: Conn, st: Step)
    requires Enabled(k, st)
  {
    match st
    case Api(call) => CallsSafe(k, [call])
    case WriteReady(n, calls) => n >= 0 && (n == |Pending(k)| ==> CallsSafe(Written(k, n), calls))
    case ReadReady(input, take, calls) =>
      B.ReadSafe(k.inp, input) && (B.Delivered(k.inp, input) != [] ==> CallsSafe(Heard(k, input, take), calls))
  }

  lemma ApiIntactIff(k: Conn, call: Call)
    requires Usable(k) && Long(k)
    ensures var r := Perform(k, call);
      Usable(r) && Long(r) && (Intact(r) ==> Intact(k)) && (Intact(k) ==> (Intact(r) <==> CallsSafe(k, [call])))
  {
    hide Perform, PerformAll, CallsSafe, Flow;
    OneCall(k, call);
    CallsFlowIff(k, [call]);
  }

  lemma WriteIntactIff(k: Conn, n: int, calls: seq<Call>)
    requires Enabled(k, WriteReady(n, calls)) && Long(k)
    ensures var r := HandleWrite(k, n, calls);
      && (Usable(r) ==> Long(r))
      && (Intact(r) ==> Intact(k))
      && (Intact(k) ==> (Intact(r) <==> StreamSafe(k, WriteReady(n, calls))))
  {
    hide PerformAll, CallsSafe, Flow;
    var w := Written(k, n);
    if B.Valid(w.out) {
      WrittenFlowIff(k, n);
      if n == |Pending(k)| {
        CallsFlowIff(w, calls);
        SameFlow(PerformAll(w, calls), HandleWrite(k, n, calls));
      }
    }
  }

  lemma ReadIntactIff(k: Conn, input: seq<byte>, take: Take, calls: seq<Call>)
    requires Enabled(k, ReadReady(input, take, calls)) && Long(k)
    ensures var r := HandleRead(k, input, take, calls);
      && Usable(r) && Long(r)
      && (Intact(r) ==> Intact(k))
      && (Intact(k) ==> (Intact(r) <==> StreamSafe(k, ReadReady(input, take, calls))))
  {
    hide PerformAll, CallsSafe, Flow, B.ReadFD, Heard, InFlow;
    if B.Delivered(k.inp, input) == [] {
      SameFlow(k, ForceClose(k));
      SameInFlow(k, ForceClose(k));
      B.NothingDelivered(k.inp, input);
    } else {
      hide B.ReadSafe;
      var h := Heard(k, input, take);
      HeardLeaves(k, input, take);
      SameFlow(k, h);
      HeardFlowIff(k, input, take);
      CallsFlowIff(h, calls);
      SameInFlow(h, PerformAll(h, calls));
    }
  }

  lemma SameInFlow(k: Conn, r: Conn)
    requires B.Valid(k.inp) && r.inp == k.inp && r.consumed == k.consumed && r.received == k.received
    ensures InFlow(r) <==> InFlow(k)
  {
  }

  lemma HeardLeaves(k: Conn, input: seq<byte>, take: Take)
    requires Usable(k) && CanTake(B.ReadFD(k.inp, input), take)
    ensures var h := Heard(k, input, take);
      h.out == k.out && h.wire == k.wire && h.accepted == k.accepted && h.state == k.state && h.events == k.events && h.shut == k.shut && h.early == k.early
  {
    hide B.ReadFD;
  }

  /** A step from intact streams leaves them intact if and only if it is safe; and a step
      never mends broken ones. */
  lemma StepIntactIff(k: Conn, st: Step)
    requires Enabled(k, st) && Long(k)
    ensures Usable(Next(k, st)) ==> Long(Next(k, st))
    ensures Intact(Next(k, st)) ==> Intact(k)
    ensures Intact(k) ==> (Intact(Next(k, st)) <==> StreamSafe(k, st))
  {
    hide HandleWrite, HandleRead, Perform, CallsSafe, Intact, Long, B.ReadSafe, B.ReadFD;
    match st
    case Api(call) => ApiIntactIff(k, call);
    case WriteReady(n, calls) => WriteIntactIff(k, n, calls);
    case ReadReady(input, take, calls) => ReadIntactIff(k, input, take, calls);
  }

  // ---------- runs ----------

  /** Any sequence of enabled steps, safe or not. */
  ghost predicate Ran(k: Conn, steps: seq<Step>, r: Conn)
    decreases |steps|
  {
    if steps == [] then r == k
    else Enabled(k, steps[0]) && Ran(Next(k, steps[0]), steps[1..], r)
  }

  ghost predicate SafeThroughout(k: Conn, steps: seq<Step>)
    decreases |steps|
  {
    steps == [] ||
    (Enabled(k, steps[0]) && StreamSafe(k, steps[0]) && SafeThroughout(Next(k, steps[0]), steps[1..]))
  }

  lemma {:induction false} BrokenStays(k: Conn, steps: seq<Step>, r: Conn)
    requires Ran(k, steps, r) && !Intact(k) && (Usable(k) ==> Long(k))
    ensures !Intact(r)
    decreases |steps|
  {
    hide Enabled, Next, Intact, Long;
    if steps != [] {
      EnabledUsable(k, steps[0]);
      StepIntactIff(k, steps[0]);
      BrokenStays(Next(k, steps[0]), steps[1..], r);
    }
  }

  lemma EnabledUsable(k: Conn, st: Step)
    requires Enabled(k, st)
    ensures Usable(k)
  {
    hide B.ReadFD;
  }

  lemma {:induction false} IntactIff(k: Conn, steps: seq<Step>, r: Conn)
    requires Ran(k, steps, r) && Intact(k) && Long(k)
    ensures Intact(r) <==> SafeThroughout(k, steps)
    decreases |steps|
  {
    hide Enabled, Next, Intact, Long, StreamSafe;
    if steps != [] {
      StepIntactIff(k, steps[0]);
      if StreamSafe(k, steps[0]) {
        IntactUsable(Next(k, steps[0]));
        IntactIff(Next(k, steps[0]), steps[1..], r);
      } else {
        BrokenStays(Next(k, steps[0]), steps[1..], r);
      }
    }
  }

  lemma IntactUsable(k: Conn)
    requires Intact(k)
    ensures Usable(k)
  {
  }

  // ---------- what a run sends and gets, read off its steps ----------

  /** What these calls send on a connection that is, or is not, connected: a shutdown or a
      close ends it. */
  function SentBy(connected: bool, calls: seq<Call>): seq<byte>
    decreases |calls|
  {
    if !connected || calls == [] then []
    else
      match calls[0]
      case CallSend(bs) => bs + SentBy(true, calls[1..])
      case _ => []
  }

  /** The calls made in a step: a write-complete callback is called when everything pending
      was written, a message callback when something was read. */
  function CallsIn(k: Conn, st: Step): seq<Call>
    requires Usable(k)
  {
    match st
    case Api(call) => [call]
    case WriteReady(n, calls) => if n == |Pending(k)| then calls else []
    case ReadReady(input, _, calls) => if input == [] || k.inp.w == |k.inp.data| then [] else calls
  }

  /** What reaches the input buffer in a step: nothing while its tail is full. */
  function CameIn(k: Conn, st: Step): seq<byte> {
    if st.ReadReady? && k.inp.w != |k.inp.data| then st.input else []
  }

  /** What the kernel takes in a step. */
  function TookIn(k: Conn, st: Step): seq<byte>
    requires Usable(k)
  {
    if st.WriteReady? && 0 < st.n <= |Pending(k)| then Pending(k)[..st.n] else []
  }

  /** What was sent, came and went in a run. */
  datatype Record = Record(sent: seq<byte>, came: seq<byte>, took: seq<byte>)

  function Recorded(k: Conn, steps: seq<Step>): Record
    decreases |steps|
  {
    if steps == [] || !Enabled(k, steps[0]) then Record([], [], [])
    else
      EnabledUsable(k, steps[0]);
      var rest := Recorded(Next(k, steps[0]), steps[1..]);
      Record(SentBy(k.state.Connected?, CallsIn(k, steps[0])) + rest.sent,
             CameIn(k, steps[0]) + rest.came,
             TookIn(k, steps[0]) + rest.took)
  }

  lemma {:induction false} CallsAccept(k: Conn, calls: seq<Call>)
    requires B.Valid(k.out)
    ensures PerformAll(k, calls).accepted == k.accepted + SentBy(k.state.Connected?, calls)
    decreases |calls|
  {
    hide B.Append;
    if calls != [] {
      KeepsValid(k, calls[0]);
      CallsAccept(Perform(k, calls[0]), calls[1..]);
      if calls[0].CallSend? && k.state.Connected? {
        Joins(k.accepted, calls[0].bs, SentBy(true, calls[1..]));
      }
    }
  }

  lemma Joins(a: seq<byte>, b: seq<byte>, c: seq<byte>)
    ensures (a + b) + c == a + (b + c)
  {
  }

  lemma StepRecords(k: Conn, st: Step)
    requires Enabled(k, st) && Usable(k)
    ensures Next(k, st).accepted == k.accepted + SentBy(k.state.Connected?, CallsIn(k, st))
    ensures Next(k, st).received == k.received + CameIn(k, st)
    ensures Next(k, st).wire == k.wire + TookIn(k, st)
  {
    hide PerformAll, B.ReadFD, SentBy;
    assert k.accepted + [] == k.accepted && k.received + [] == k.received && k.wire + [] == k.wire;
    NothingSent(k.state.Connected?);
    match st
    case Api(call) =>
      OneCall(k, call);
      CallsAccept(k, [call]);
    case WriteReady(n, calls) =>
      if n == |Pending(k)| {
        CallsAccept(Written(k, n), calls);
      }
    case ReadReady(input, take, calls) =>
      if B.Delivered(k.inp, input) != [] {
        HeardLeaves(k, input, take);
        CallsAccept(Heard(k, input, take), calls);
      }
  }

  lemma NothingSent(connected: bool)
    ensures SentBy(connected, []) == []
  {
  }

  /** In every run `accepted`, `received` and `wire` are what was sent while connected, what
      the kernel delivered and what it took, in order. */
  lemma {:induction false} RunRecords(k: Conn, steps: seq<Step>, r: Conn)
    requires Ran(k, steps, r)
    ensures r.accepted == k.accepted + Recorded(k, steps).sent
    ensures r.received == k.received + Recorded(k, steps).came
    ensures r.wire == k.wire + Recorded(k, steps).took
    decreases |steps|
  {
    hide Enabled, Next, SentBy, CallsIn, CameIn, TookIn;
    if steps != [] {
      var st, t := steps[0], Next(k, steps[0]);
      EnabledUsable(k, st);
      StepRecords(k, st);
      RunRecords(t, steps[1..], r);
      var rest := Recorded(t, steps[1..]);
      Joins(k.accepted, SentBy(k.state.Connected?, CallsIn(k, st)), rest.sent);
      Joins(k.received, CameIn(k, st), rest.came);
      Joins(k.wire, TookIn(k, st), rest.took);
    }
  }

  /** What the message callback takes leaves the unread bytes: so many, or all of them. */
  lemma TakenLeaves(k: Conn, input: seq<byte>, take: Take)
    requires Usable(k) && CanTake(B.ReadFD(k.inp, input), take)
    ensures B.Valid(B.ReadFD(k.inp, input))
    ensures |Unread(Heard(k, input, take))| ==
            if take.TakeAll? then 0 else |B.Readable(B.ReadFD(k.inp, input))| - take.n
  {
    hide B.ReadFD;
    B.ReadExtends(k.inp, input);
  }

  /** In every run of a connection, whatever its write-complete and message callbacks do:
      what the kernel took and what is pending is what was sent, and what the message
      callback took and what is unread is what came, if and only if no step of the run
      failed to write and none grew a buffer after a partial retrieve. */
  lemma StreamsIntactIff(steps: seq<Step>, r: Conn)
    requires Ran(Establish(NewConn()), steps, r)
    ensures var record := Recorded(Establish(NewConn()), steps);
      (Usable(r) && record.took + Pending(r) == record.sent && r.consumed + Unread(r) == record.came) <==>
        SafeThroughout(Establish(NewConn()), steps)
  {
    hide Ran, SafeThroughout, Recorded, B.NewBuf;
    var k := Establish(NewConn());
    IntactIff(k, steps, r);
    RunRecords(k, steps, r);
    var record := Recorded(k, steps);
    assert [] + record.sent == record.sent && [] + record.came == record.came && [] + record.took == record.took;
  }

  /** The growth defect is met in a run: send 8192 bytes, let the kernel take 100, send 200
      more, and what is pending is not what was sent. */
  lemma GrowthBreaksStream(first: seq<byte>, more: seq<byte>) returns (r: Conn)
    requires |first| == 8192 && |more| == 200 && more[0] != 0
    ensures Ran(Establish(NewConn()), [Api(CallSend(first)), WriteReady(100, []), Api(CallSend(more))], r)
    ensures B.Valid(r.out) && r.wire + Pending(r) != r.accepted
  {
    hide B.Append, B.Paste, B.NewBuf;
    var k := Establish(NewConn());
    B.FullInPlace(first);
    SendFlowIff(k, first);
    var s := Send(k, first);
    B.AppendWindow(k.out, first);
    WrittenFlowIff(s, 100);
    var w := Written(s, 100);
    SendFlowIff(w, more);
    r := Send(w, more);
    hide *;
    GrowthRan(k, s, w, r, first, more);
  }

  lemma GrowthRan(k: Conn, s: Conn, w: Conn, r: Conn, first: seq<byte>, more: seq<byte>)
    requires Usable(k) && s == Send(k, first) && Usable(s) && Open(s.state) && s.events.write && |Pending(s)| > 100
    requires w == Written(s, 100) && Usable(w) && r == Send(w, more)
    ensures Ran(k, [Api(CallSend(first)), WriteReady(100, []), Api(CallSend(more))], r)
  {
    hide Send, Written;
    var steps := [Api(CallSend(first)), WriteReady(100, []), Api(CallSend(more))];
    assert Ran(r, steps[3..], r);
    assert steps[2..][1..] == steps[3..] && Ran(w, steps[2..], r);
    assert steps[1..][1..] == steps[2..] && Ran(s, steps[1..], r);
  }
}
