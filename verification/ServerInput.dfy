/** How the chess server takes packets out of a connection's input buffer: a read event
    fills the buffer, and the message callback takes at most one frame out of it. */
module ServerInput {
  import opened Bytes
  import opened Framing
  import B = NetBuffer
  import C = Connection

  datatype Status = Reading | Closed | Crashed

  /** The input buffer of a connection and the packets taken out of it so far. */
  datatype Inbox = Inbox(buf: B.Buf, taken: seq<seq<byte>>, status: Status)

  const NEW_INBOX := Inbox(B.NewBuf(), [], Reading)

  /** OnMessage as far as it concerns the buffer: a frame is decoded and retrieved. */
  function OnMessage(x: Inbox): (r: Inbox)
    requires B.Valid(x.buf)
    ensures B.Valid(r.buf)
  {
    match Decode(B.Readable(x.buf))
    case Incomplete => x
    case Panic => x.(status := Crashed)
    case Packet(body) =>
      if |body| + 4 <= |B.Readable(x.buf)| then
        x.(buf := B.Retrieve(x.buf, |body| + 4), taken := x.taken + [body])
      else x.(status := Crashed)  // Retrieve panics
  }

  /** One read event, in which the kernel offers `input`: handleRead closes the connection
      when nothing was read. */
  function OnReadable(x: Inbox, input: seq<byte>): (r: Inbox)
    requires B.Valid(x.buf)
    ensures B.Valid(r.buf)
  {
    hide B.ReadFD;
    B.ReadExtends(x.buf, input);
    if !x.status.Reading? then x
    else if B.Delivered(x.buf, input) == [] then x.(status := Closed)
    else OnMessage(x.(buf := B.ReadFD(x.buf, input)))
  }

  function Receive(inputs: seq<seq<byte>>): (r: Inbox)
    ensures B.Valid(r.buf)
    decreases |inputs|
  {
    hide OnReadable, B.NewBuf;
    if inputs == [] then NEW_INBOX else OnReadable(Receive(inputs[..|inputs| - 1]), inputs[|inputs| - 1])
  }

  // ---------- the stream of frames ----------

  /** The frames taken, then what is still readable. */
  ghost function Stream(x: Inbox): seq<byte>
    requires B.Valid(x.buf)
  {
    PackAll(x.taken) + B.Readable(x.buf)
  }

  /** The connection is up, the packets taken are the first ones sent, and together with
      the unread bytes they are exactly what came. */
  ghost predicate Intact(x: Inbox, ms: seq<seq<byte>>, received: seq<byte>) {
    && B.Valid(x.buf) && x.status.Reading?
    && x.taken <= ms
    && Stream(x) == received
  }

  /** Nothing is lost when a frame is taken out: it moves from unread to taken. */
  lemma OnMessageStream(x: Inbox)
    requires B.Valid(x.buf) && |B.Readable(x.buf)| < U32
    ensures Stream(OnMessage(x)) == Stream(x)
  {
    hide Decode, Pack, PackAll;
    var bs := B.Readable(x.buf);
    if Decode(bs).Packet? {
      var m := Decode(bs).body;
      DecodeIsPrefix(bs);
      PackAllLast(x.taken, m);
      TakenMoves(PackAll(x.taken), Pack(m), bs);
    }
  }

  lemma TakenMoves(a: seq<byte>, frame: seq<byte>, bs: seq<byte>)
    requires |frame| <= |bs| && bs[..|frame|] == frame
    ensures (a + frame) + bs[|frame|..] == a + bs
  {
  }

  /** A prefix of the frames of `ms` makes OnMessage take the next message, if it is all
      there, and nothing else. */
  lemma OnMessageIntact(x: Inbox, ms: seq<seq<byte>>, received: seq<byte>)
    requires |PackAll(ms)| < U32 && Intact(x, ms, received) && received <= PackAll(ms)
    ensures Intact(OnMessage(x), ms, received)
  {
    hide Decode, Pack, PackAll;
    var k := |x.taken|;
    var bs := B.Readable(x.buf);
    assert x.taken == ms[..k];
    PackAllRest(ms, k, bs);
    DecodePrefix(ms[k..], bs);
    OnMessageStream(x);
    if Decode(bs).Packet? {
      assert ms[..k] + [ms[k]] == ms[..k + 1];
    }
  }

  /** The read event delivers something and the buffer takes it in order. */
  predicate Clean(b: B.Buf, input: seq<byte>) {
    input != [] && |b.data| != b.w && B.ReadSafe(b, input)
  }

  lemma CleanIntact(x: Inbox, input: seq<byte>, ms: seq<seq<byte>>, received: seq<byte>)
    requires |PackAll(ms)| < U32 && Intact(x, ms, received) && received + input <= PackAll(ms)
    requires Clean(x.buf, input)
    ensures Intact(OnReadable(x, input), ms, received + input)
  {
    hide B.ReadFD, B.ReadSafe, PackAll, OnMessage;
    B.ReadWindow(x.buf, input);
    assert PackAll(x.taken) + (B.Readable(x.buf) + input) == received + input;
    OnMessageIntact(x.(buf := B.ReadFD(x.buf, input)), ms, received + input);
  }

  /** If the connection is up after a read event, the event delivered all of `input`, and
      the stream only grew at its end. */
  lemma StreamGrows(x: Inbox, input: seq<byte>)
    requires B.Valid(x.buf) && OnReadable(x, input).status.Reading?
    requires |Stream(OnReadable(x, input))| < U32
    ensures x.status.Reading? && input != [] && |x.buf.data| != x.buf.w
    ensures Stream(OnReadable(x, input)) == PackAll(x.taken) + B.Readable(B.ReadFD(x.buf, input))
    ensures Stream(x) <= Stream(OnReadable(x, input))
    ensures |Stream(OnReadable(x, input))| == |Stream(x)| + |input|
  {
    hide B.ReadFD, PackAll, Decode, Pack;
    B.ReadExtends(x.buf, input);
    var y := x.(buf := B.ReadFD(x.buf, input));
    SameLength(y);
    OnMessageStream(y);
  }

  lemma SameLength(x: Inbox)
    requires B.Valid(x.buf)
    ensures |Stream(OnMessage(x))| == |Stream(x)|
  {
    hide Decode, Pack, PackAll;
    if Decode(B.Readable(x.buf)).Packet? {
      PackAllLast(x.taken, Decode(B.Readable(x.buf)).body);
    }
  }

  /** After a read event from an intact state the packets are intact and the connection is
      up if and only if the read was clean: bytes came, the tail of the slice was not
      full, and the spill did not meet the growth defect. */
  lemma ReadIntactIff(x: Inbox, input: seq<byte>, ms: seq<seq<byte>>, received: seq<byte>)
    requires |PackAll(ms)| < U32 && Intact(x, ms, received) && received + input <= PackAll(ms)
    ensures Intact(OnReadable(x, input), ms, received + input) <==> Clean(x.buf, input)
  {
    hide B.ReadFD, B.ReadSafe, PackAll, OnReadable;
    if Clean(x.buf, input) {
      CleanIntact(x, input, ms, received);
    }
    if Intact(OnReadable(x, input), ms, received + input) {
      StreamGrows(x, input);
      B.ReadWindow(x.buf, input);
      assert received + input == PackAll(x.taken) + (B.Readable(x.buf) + input);
      B.SameTail(PackAll(x.taken), B.Readable(B.ReadFD(x.buf, input)), B.Readable(x.buf) + input);
    }
  }

  /** A state that is intact was intact before its last read event. */
  lemma IntactBefore(x: Inbox, input: seq<byte>, ms: seq<seq<byte>>, received: seq<byte>)
    requires |PackAll(ms)| < U32 && B.Valid(x.buf) && received + input <= PackAll(ms)
    requires Intact(OnReadable(x, input), ms, received + input)
    ensures Intact(x, ms, received)
  {
    hide B.ReadFD, PackAll, Decode;
    StreamGrows(x, input);
    var grown := received + input;
    assert Stream(x) == grown[..|Stream(x)|] == received;
  }

  // ---------- whole runs ----------

  ghost predicate AllClean(inputs: seq<seq<byte>>)
    decreases |inputs|
  {
    inputs == [] ||
    var n := |inputs| - 1;
    AllClean(inputs[..n]) && Clean(Receive(inputs[..n]).buf, inputs[n])
  }

  /** However the stream of frames is cut into reads: at the end the connection is up, what
      was taken is the first messages sent, in order and unchanged, and the rest of what
      came is still readable, if and only if every read on the way was clean. */
  lemma {:induction false} MessagesIntactIff(ms: seq<seq<byte>>, inputs: seq<seq<byte>>)
    requires |PackAll(ms)| < U32 && Concat(inputs) <= PackAll(ms)
    ensures Intact(Receive(inputs), ms, Concat(inputs)) <==> AllClean(inputs)
    decreases |inputs|
  {
    hide Intact, OnReadable, PackAll, Clean, NEW_INBOX;
    if inputs == [] {
      NewIntact(ms);
    } else {
      var n := |inputs| - 1;
      var before := Concat(inputs[..n]);
      assert inputs == inputs[..n] + [inputs[n]];
      ConcatLast(inputs[..n], inputs[n]);
      assert before <= PackAll(ms);
      MessagesIntactIff(ms, inputs[..n]);
      if Intact(Receive(inputs[..n]), ms, before) {
        ReadIntactIff(Receive(inputs[..n]), inputs[n], ms, before);
      } else if Intact(Receive(inputs), ms, Concat(inputs)) {
        IntactBefore(Receive(inputs[..n]), inputs[n], ms, before);
      }
    }
  }

  lemma NewIntact(ms: seq<seq<byte>>)
    ensures Intact(NEW_INBOX, ms, []) && Receive([]) == NEW_INBOX
  {
    hide B.NewBuf;
  }

  // ---------- how many packets were taken ----------

  /** How many frames of `ms` lie wholly within the first `n` bytes of the stream. */
  function Complete(ms: seq<seq<byte>>, n: nat): nat
    decreases |ms|
  {
    if ms == [] || |Pack(ms[0])| > n then 0 else 1 + Complete(ms[1..], n - |Pack(ms[0])|)
  }

  lemma {:induction false} CompleteIff(ms: seq<seq<byte>>, n: nat, k: nat)
    requires k <= |ms|
    ensures k <= Complete(ms, n) <==> |PackAll(ms[..k])| <= n
    ensures Complete(ms, n) <= |ms|
    decreases |ms|
  {
    hide Pack;
    if ms != [] && |Pack(ms[0])| <= n {
      if k > 0 {
        assert ms[..k][1..] == ms[1..][..k - 1];
        CompleteIff(ms[1..], n - |Pack(ms[0])|, k - 1);
      } else {
        CompleteIff(ms[1..], n - |Pack(ms[0])|, 0);
      }
    } else if k > 0 {
      assert |PackAll(ms[..k])| >= |Pack(ms[0])|;
    }
  }

  /** OnMessage takes one more packet, unless no other one is complete. */
  lemma TakesOneMore(x: Inbox, ms: seq<seq<byte>>, received: seq<byte>)
    requires |PackAll(ms)| < U32 && Intact(x, ms, received) && received <= PackAll(ms)
    ensures |OnMessage(x).taken| == |x.taken| + if |x.taken| < Complete(ms, |received|) then 1 else 0
  {
    hide Decode, Pack, PackAll, Complete;
    var k := |x.taken|;
    var bs := B.Readable(x.buf);
    assert x.taken == ms[..k];
    PackAllRest(ms, k, bs);
    DecodePrefix(ms[k..], bs);
    CompleteIff(ms, |received|, k);
    if k < |ms| {
      CompleteIff(ms, |received|, k + 1);
      assert ms[..k + 1] == ms[..k] + [ms[k]];
      PackAllLast(ms[..k], ms[k]);
    }
  }

  /** So the packets taken fall behind the complete ones only where several become complete
      in one read. */
  lemma ReadTakes(x: Inbox, input: seq<byte>, ms: seq<seq<byte>>, received: seq<byte>)
    requires |PackAll(ms)| < U32 && Intact(x, ms, received) && received + input <= PackAll(ms)
    requires Clean(x.buf, input)
    ensures |OnReadable(x, input).taken| ==
            |x.taken| + if |x.taken| < Complete(ms, |received + input|) then 1 else 0
  {
    hide B.ReadFD, B.ReadSafe, PackAll, OnMessage, Complete;
    B.ReadWindow(x.buf, input);
    assert PackAll(x.taken) + (B.Readable(x.buf) + input) == received + input;
    TakesOneMore(x.(buf := B.ReadFD(x.buf, input)), ms, received + input);
  }

  /** The packets complete after the first `j` reads. */
  function CompleteBy(ms: seq<seq<byte>>, inputs: seq<seq<byte>>, j: nat): nat
    requires j <= |inputs|
  {
    Complete(ms, |Concat(inputs[..j])|)
  }

  /** `t` packets can have been taken: from every point of the run on, the reads that follow
      can make up for what was not complete there. */
  ghost predicate Attainable(ms: seq<seq<byte>>, inputs: seq<seq<byte>>, t: int) {
    forall j :: 0 <= j <= |inputs| ==> t <= CompleteBy(ms, inputs, j) + |inputs| - j
  }

  lemma AttainableStep(ms: seq<seq<byte>>, inputs: seq<seq<byte>>, t: int)
    requires inputs != []
    ensures Attainable(ms, inputs, t) <==>
            Attainable(ms, inputs[..|inputs| - 1], t - 1) && t <= CompleteBy(ms, inputs, |inputs|)
  {
    hide Complete, Concat;
    var n := |inputs| - 1;
    var before := inputs[..n];
    assert forall j :: 0 <= j <= n ==> before[..j] == inputs[..j];
    if Attainable(ms, inputs, t) {
      forall j | 0 <= j <= n
        ensures t - 1 <= CompleteBy(ms, before, j) + n - j
      {
        assert t <= CompleteBy(ms, inputs, j) + |inputs| - j;
      }
      assert t <= CompleteBy(ms, inputs, |inputs|) + |inputs| - |inputs|;
    }
    if Attainable(ms, before, t - 1) && t <= CompleteBy(ms, inputs, |inputs|) {
      forall j | 0 <= j <= |inputs|
        ensures t <= CompleteBy(ms, inputs, j) + |inputs| - j
      {
        if j <= n {
          assert t - 1 <= CompleteBy(ms, before, j) + n - j;
        }
      }
    }
  }

  lemma ReceiveLast(inputs: seq<seq<byte>>)
    requires inputs != []
    ensures Receive(inputs) == OnReadable(Receive(inputs[..|inputs| - 1]), inputs[|inputs| - 1])
  {
    hide OnReadable, NEW_INBOX;
  }

  lemma CleanLast(inputs: seq<seq<byte>>)
    requires inputs != [] && AllClean(inputs)
    ensures AllClean(inputs[..|inputs| - 1]) && Clean(Receive(inputs[..|inputs| - 1]).buf, inputs[|inputs| - 1])
  {
    hide Receive, Clean;
  }

  lemma ConcatInit(inputs: seq<seq<byte>>, all: seq<byte>)
    requires inputs != [] && Concat(inputs) <= all
    ensures Concat(inputs[..|inputs| - 1]) + inputs[|inputs| - 1] == Concat(inputs)
    ensures Concat(inputs[..|inputs| - 1]) <= all
  {
    hide Concat;
    var n := |inputs| - 1;
    assert inputs == inputs[..n] + [inputs[n]];
    ConcatLast(inputs[..n], inputs[n]);
  }

  lemma InitReads(ms: seq<seq<byte>>, inputs: seq<seq<byte>>)
    requires inputs != [] && Concat(inputs) <= PackAll(ms) && AllClean(inputs)
    ensures var n := |inputs| - 1;
      && AllClean(inputs[..n]) && Clean(Receive(inputs[..n]).buf, inputs[n])
      && Concat(inputs[..n]) + inputs[n] == Concat(inputs) && Concat(inputs[..n]) <= PackAll(ms)
      && Receive(inputs) == OnReadable(Receive(inputs[..n]), inputs[n])
  {
    hide *;
    ReceiveLast(inputs);
    CleanLast(inputs);
    ConcatInit(inputs, PackAll(ms));
  }

  /** The last read took one more packet, unless all complete ones were taken. */
  lemma LastReadTakes(ms: seq<seq<byte>>, inputs: seq<seq<byte>>)
    requires |PackAll(ms)| < U32 && inputs != [] && Concat(inputs) <= PackAll(ms) && AllClean(inputs)
    ensures var before, all := |Receive(inputs[..|inputs| - 1]).taken|, CompleteBy(ms, inputs, |inputs|);
      before <= all && |Receive(inputs).taken| == before + if before < all then 1 else 0
  {
    hide Receive, OnReadable, PackAll, Clean, AllClean, Complete, Concat, Intact;
    var n := |inputs| - 1;
    InitReads(ms, inputs);
    MessagesIntactIff(ms, inputs[..n]);
    ReadTakes(Receive(inputs[..n]), inputs[n], ms, Concat(inputs[..n]));
    TakenComplete(Receive(inputs[..n]), ms, Concat(inputs[..n]));
    CompleteGrows(ms, |Concat(inputs[..n])|, |Concat(inputs)|);
    assert inputs[..|inputs|] == inputs;
  }

  /** In a run of clean reads at least `t` packets were taken if and only if at every point
      of it the packets complete there and the reads still to come add up to `t`. */
  lemma {:induction false} TakenIff(ms: seq<seq<byte>>, inputs: seq<seq<byte>>, t: nat)
    requires |PackAll(ms)| < U32 && Concat(inputs) <= PackAll(ms) && AllClean(inputs)
    ensures t <= |Receive(inputs).taken| <==> Attainable(ms, inputs, t)
    decreases |inputs|
  {
    hide Receive, PackAll, AllClean, Attainable, Concat, CompleteBy, OnReadable, Clean;
    if inputs == [] {
      NothingAttainable(ms, t);
    } else if t == 0 {
      ZeroAttainable(ms, inputs);
    } else {
      InitReads(ms, inputs);
      LastReadTakes(ms, inputs);
      AttainableStep(ms, inputs, t);
      TakenIff(ms, inputs[..|inputs| - 1], t - 1);
    }
  }

  lemma NothingAttainable(ms: seq<seq<byte>>, t: nat)
    ensures |Receive([]).taken| == 0 && (Attainable(ms, [], t) <==> t == 0)
  {
    hide B.NewBuf, Pack;
    var none: seq<seq<byte>> := [];
    assert none[..0] == none && Concat(none) == [];
    assert CompleteBy(ms, none, 0) == 0;
  }

  lemma ZeroAttainable(ms: seq<seq<byte>>, inputs: seq<seq<byte>>)
    ensures Attainable(ms, inputs, 0)
  {
  }

  /** What was taken was complete. */
  lemma TakenComplete(x: Inbox, ms: seq<seq<byte>>, received: seq<byte>)
    requires Intact(x, ms, received)
    ensures |x.taken| <= Complete(ms, |received|)
  {
    hide PackAll, Complete;
    assert x.taken == ms[..|x.taken|];
    CompleteIff(ms, |received|, |x.taken|);
  }

  lemma CompleteGrows(ms: seq<seq<byte>>, n: nat, m: nat)
    requires n <= m
    ensures Complete(ms, n) <= Complete(ms, m)
  {
    hide PackAll, Complete;
    CompleteIff(ms, n, 0);
    CompleteIff(ms, n, Complete(ms, n));
    CompleteIff(ms, m, Complete(ms, n));
  }

  /** No stretch of reads up to the end completes more packets than it has reads. */
  ghost predicate KeepsPace(ms: seq<seq<byte>>, inputs: seq<seq<byte>>) {
    forall j :: 0 <= j <= |inputs| ==>
      CompleteBy(ms, inputs, |inputs|) - CompleteBy(ms, inputs, j) <= |inputs| - j
  }

  /** The server is up, has lost nothing, and has handled every packet that came completely
      if and only if every read was clean and no stretch of reads up to the end completed
      more packets than it has reads. */
  lemma EveryPacketTakenIff(ms: seq<seq<byte>>, inputs: seq<seq<byte>>)
    requires |PackAll(ms)| < U32 && Concat(inputs) <= PackAll(ms)
    ensures Intact(Receive(inputs), ms, Concat(inputs)) && |Receive(inputs).taken| == Complete(ms, |Concat(inputs)|) <==>
            AllClean(inputs) && KeepsPace(ms, inputs)
  {
    hide Intact, Receive, PackAll, AllClean, Complete, Concat;
    MessagesIntactIff(ms, inputs);
    if AllClean(inputs) {
      var all := CompleteBy(ms, inputs, |inputs|);
      assert inputs[..|inputs|] == inputs;
      TakenIff(ms, inputs, all);
      TakenComplete(Receive(inputs), ms, Concat(inputs));
      PaceIsAttainable(ms, inputs);
    }
  }

  lemma PaceIsAttainable(ms: seq<seq<byte>>, inputs: seq<seq<byte>>)
    ensures KeepsPace(ms, inputs) <==> Attainable(ms, inputs, CompleteBy(ms, inputs, |inputs|))
  {
    hide CompleteBy;
  }

  /** At most one message per read event. */
  lemma {:induction false} OnePerRead(inputs: seq<seq<byte>>)
    ensures |Receive(inputs).taken| <= |inputs|
    decreases |inputs|
  {
    hide Decode, B.ReadFD;
    if inputs != [] {
      OnePerRead(inputs[..|inputs| - 1]);
    }
  }

  /** A read event crashes the server exactly when the bytes then readable start with a
      length within four of 2^32. */
  lemma ReadCrashesIff(x: Inbox, input: seq<byte>)
    requires B.Valid(x.buf) && x.status.Reading?
    requires |B.Readable(x.buf)| + |input| < U32
    ensures B.Valid(B.ReadFD(x.buf, input))
    ensures var bs := B.Readable(B.ReadFD(x.buf, input));
      OnReadable(x, input).status.Crashed? <==>
        B.Delivered(x.buf, input) != [] && |bs| >= 4 && Uint32(bs[..4]) >= U32 - 4
  {
    hide B.ReadFD, Uint32, Decode;
    B.ReadExtends(x.buf, input);
    var bs := B.Readable(B.ReadFD(x.buf, input));
    PanicIff(bs);
    if Decode(bs).Packet? {
      DecodeIsPrefix(bs);
    }
  }

  /** Four bytes on a new connection that do it: ff ff ff fc. */
  lemma FourBytesCrash()
    ensures Receive([[255, 255, 255, 252]]).status.Crashed?
  {
    hide B.NewBuf, B.ReadFD, Decode, Uint32, OnReadable;
    var bad: seq<byte> := [255, 255, 255, 252];
    ReceiveOne(bad);
    B.ReadWindow(NEW_INBOX.buf, bad);
    assert [] + bad == bad && bad[..4] == bad;
    BadLength(bad);
    ReadCrashesIff(NEW_INBOX, bad);
  }

  lemma BadLength(bad: seq<byte>)
    requires bad == [255, 255, 255, 252]
    ensures Uint32(bad) == U32 - 4
  {
  }

  // ---------- the first 8192 bytes ----------

  predicate NoneEmpty(inputs: seq<seq<byte>>) {
    forall i :: 0 <= i < |inputs| ==> inputs[i] != []
  }

  lemma OnMessageKeepsSlice(x: Inbox)
    requires B.Valid(x.buf)
    ensures OnMessage(x).buf.w == x.buf.w && OnMessage(x).buf.data == x.buf.data
  {
    hide Decode;
  }

  lemma FitsInSlice(x: Inbox, input: seq<byte>)
    requires B.Valid(x.buf) && x.status.Reading? && 0 < |input| <= |x.buf.data| - x.buf.w
    ensures Clean(x.buf, input)
    ensures var y := OnReadable(x, input); y.buf.w == x.buf.w + |input| && |y.buf.data| == |x.buf.data|
  {
    hide B.ReadFD, B.ReadSafe, OnMessage;
    B.ReadInPlace(x.buf, input);
    B.ReadExtends(x.buf, input);
    OnMessageKeepsSlice(x.(buf := B.ReadFD(x.buf, input)));
  }

  /** As long as no more than 8192 bytes came, all is well, and since nothing but a spill
      ever moves the bytes down, the slice is filled up to what came. */
  lemma {:induction false} FirstBytesIntact(ms: seq<seq<byte>>, inputs: seq<seq<byte>>)
    requires |PackAll(ms)| < U32 && Concat(inputs) <= PackAll(ms) && NoneEmpty(inputs)
    requires |Concat(inputs)| <= B.INITIAL
    ensures Intact(Receive(inputs), ms, Concat(inputs))
    ensures Receive(inputs).buf.w == |Concat(inputs)| && |Receive(inputs).buf.data| == B.INITIAL
    decreases |inputs|
  {
    hide Intact, OnReadable, PackAll, Clean;
    if inputs == [] {
      NewIntact(ms);
    } else {
      var n := |inputs| - 1;
      assert inputs == inputs[..n] + [inputs[n]];
      ConcatLast(inputs[..n], inputs[n]);
      assert Concat(inputs[..n]) <= PackAll(ms);
      FirstBytesIntact(ms, inputs[..n]);
      IntactReads(Receive(inputs[..n]), ms, Concat(inputs[..n]));
      FitsInSlice(Receive(inputs[..n]), inputs[n]);
      ReadIntactIff(Receive(inputs[..n]), inputs[n], ms, Concat(inputs[..n]));
    }
  }

  lemma IntactReads(x: Inbox, ms: seq<seq<byte>>, received: seq<byte>)
    requires Intact(x, ms, received)
    ensures B.Valid(x.buf) && x.status.Reading?
  {
  }

  /** Once the reads filled the slice exactly, the next read event closes the connection,
      whatever the peer sends. */
  lemma FullSliceCloses(ms: seq<seq<byte>>, inputs: seq<seq<byte>>, more: seq<byte>)
    requires |PackAll(ms)| < U32 && Concat(inputs) <= PackAll(ms) && NoneEmpty(inputs)
    requires |Concat(inputs)| == B.INITIAL
    ensures Receive(inputs).status.Reading? && OnReadable(Receive(inputs), more).status.Closed?
  {
    hide PackAll, Receive, Concat;
    FirstBytesIntact(ms, inputs);
  }

  /** So a frame of more than 8192 bytes whose first 8192 are read at once never arrives:
      it is incomplete, and the next read event closes the connection. */
  lemma LongFrameIsCutOff(m: seq<byte>, more: seq<byte>)
    requires B.INITIAL < |Pack(m)| < U32
    ensures var x := Receive([Pack(m)[..B.INITIAL]]);
      && x.taken == [] && B.Readable(x.buf) == Pack(m)[..B.INITIAL]
      && OnReadable(x, more).status.Closed?
  {
    hide Receive, Pack, OnReadable, Decode;
    var part := Pack(m)[..B.INITIAL];
    assert PackAll([m]) == Pack(m) + [] == Pack(m);
    assert [part] == [] + [part];
    ConcatLast([], part);
    assert Concat([part]) == part;
    FirstBytesIntact([m], [part]);
    FullSliceCloses([m], [part], more);
    var x := Receive([part]);
    assert x.taken == [] || x.taken == [m];
    assert x.taken == [] && Stream(x) == [] + B.Readable(x.buf);
  }

  // ---------- a second frame ----------

  lemma ReceiveOne(input: seq<byte>)
    ensures Receive([input]) == OnReadable(NEW_INBOX, input)
  {
    hide OnReadable, NEW_INBOX;
    assert [input][..0] == [];
    NewIntact([]);
  }

  lemma ReceiveTwo(a: seq<byte>, b: seq<byte>)
    ensures Receive([a, b]) == OnReadable(Receive([a]), b)
  {
    hide OnReadable;
    assert [a, b][..1] == [a];
  }

  lemma OnMessageTakes(x: Inbox, m: seq<byte>, rest: seq<byte>)
    requires B.Valid(x.buf) && B.Readable(x.buf) == Pack(m) + rest && |Pack(m) + rest| < U32
    ensures var y := OnMessage(x);
      y.taken == x.taken + [m] && y.status == x.status && B.Readable(y.buf) == rest
  {
    hide Decode, Pack;
    PackDecodes(m, rest);
    assert (Pack(m) + rest)[|m| + 4..] == rest;
  }

  /** A frame read into a new buffer is taken at once; what came with it stays readable. */
  lemma FirstFrameTaken(m: seq<byte>, rest: seq<byte>)
    requires |Pack(m) + rest| < U32
    ensures var x := Receive([Pack(m) + rest]);
      x.taken == [m] && x.status.Reading? && B.Readable(x.buf) == rest
  {
    hide B.ReadFD, B.NewBuf, Pack, OnMessage, Receive;
    var all := Pack(m) + rest;
    ReceiveOne(all);
    B.ReadWindow(NEW_INBOX.buf, all);
    assert [] + all == all;
    OnMessageTakes(NEW_INBOX.(buf := B.ReadFD(NEW_INBOX.buf, all)), m, rest);
    assert [] + [m] == [m];
  }

  /** Two frames in one read: the second one stays in the buffer, complete, until more
      bytes come. */
  lemma SecondFrameWaits(m1: seq<byte>, m2: seq<byte>)
    requires |Pack(m1) + Pack(m2)| < U32
    ensures var x := Receive([Pack(m1) + Pack(m2)]);
      x.taken == [m1] && x.status.Reading? && B.Readable(x.buf) == Pack(m2)
    ensures Decode(Pack(m2)) == Packet(m2)
  {
    hide Decode, Pack, Receive;
    FirstFrameTaken(m1, Pack(m2));
    assert Pack(m2) + [] == Pack(m2);
    PackDecodes(m2, []);
  }

  /** After a first frame that fits, the slice is unread from behind that frame on. */
  lemma AfterFirstFrame(m: seq<byte>)
    requires |Pack(m)| < B.INITIAL
    ensures var x := Receive([Pack(m)]);
      && x.taken == [m] && x.status.Reading? && B.Readable(x.buf) == []
      && x.buf.r == x.buf.w == |Pack(m)| && |x.buf.data| == B.INITIAL
  {
    hide Receive, Pack, Decode;
    assert Pack(m) + [] == Pack(m);
    FirstFrameTaken(m, []);
    assert PackAll([m]) == Pack(m) + [];
    ConcatLast([], Pack(m));
    assert [] + [Pack(m)] == [Pack(m)] && Concat([Pack(m)]) == Pack(m);
    FirstBytesIntact([m], [Pack(m)]);
  }

  /** The buffer grows, and does so with the read index behind the first frame, when a
      frame that does not fit is read in one go: both messages arrive if and only if
      all that spills over is zero. */
  lemma LaterLongFrameIff(m1: seq<byte>, m2: seq<byte>)
    requires |Pack(m1)| < B.INITIAL < |Pack(m2)| && |Pack(m1) + Pack(m2)| < U32
    ensures Receive([Pack(m1), Pack(m2)]).taken == [m1, m2] <==> B.AllZero(Pack(m2)[B.INITIAL - |Pack(m1)|..])
  {
    hide Receive, Pack, OnReadable, Decode, Clean, Intact;
    AfterFirstFrame(m1);
    ReceiveTwo(Pack(m1), Pack(m2));
    var x := Receive([Pack(m1)]);
    SecondTakenIff(x, m1, m2);
    SpillIsClean(x.buf, Pack(m2));
  }

  /** With the first frame taken and nothing else readable, the second one is taken from
      one read exactly if that read is clean. */
  lemma SecondTakenIff(x: Inbox, m1: seq<byte>, m2: seq<byte>)
    requires |Pack(m1) + Pack(m2)| < U32 && B.Valid(x.buf) && x.status.Reading?
    requires x.taken == [m1] && B.Readable(x.buf) == []
    ensures OnReadable(x, Pack(m2)).taken == [m1, m2] <==> Clean(x.buf, Pack(m2))
  {
    hide Pack, Decode, B.ReadFD, B.ReadSafe;
    var frame := Pack(m2);
    B.ReadExtends(x.buf, frame);
    B.ReadWindow(x.buf, frame);
    assert [] + frame == frame && frame + [] == frame;
    PackDecodes(m2, []);
    assert [m1] + [m2] == [m1, m2];
    var bs := B.Readable(B.ReadFD(x.buf, frame));
    if Decode(bs).Packet? {
      DecodeIsPrefix(bs);
      assert ([m1] + [Decode(bs).body])[1] == Decode(bs).body;
      assert |bs| == |frame| ==> bs == bs[..|frame|];
    }
  }

  lemma SpillIsClean(b: B.Buf, input: seq<byte>)
    requires B.Valid(b) && 0 < b.r == b.w < |b.data| < |input|
    ensures Clean(b, input) <==> B.AllZero(input[|b.data| - b.w..])
  {
  }

  /** For instance a packet of 96 bytes and then one of 17088 whose byte 8088 is not zero. */
  lemma SecondPacketCorrupted(m1: seq<byte>, m2: seq<byte>)
    requires |m1| == 96 && |m2| == 17088 && m2[8088] != 0
    ensures Receive([Pack(m1), Pack(m2)]).taken != [m1, m2]
  {
    hide Receive, Header;
    LaterLongFrameIff(m1, m2);
    assert Pack(m2)[B.INITIAL - |Pack(m1)|..][0] == m2[8088];
  }

  // ---------- the connection ----------

  /** What the handler takes out of these readable bytes. */
  function FrameTake(bs: seq<byte>): (take: C.Take)
    ensures take.TakeBytes? && take.n <= |bs|
  {
    match Decode(bs)
    case Packet(body) => C.TakeBytes(if |body| + 4 <= |bs| then |body| + 4 else 0)
    case _ => C.TakeBytes(0)
  }

  /** A read event of the inbox is handleRead of an open connection with this handler as
      its message callback: the same input buffer, and closed exactly together, unless
      the handler crashes or makes a call that closes. */
  lemma InboxIsConnection(k: C.Conn, x: Inbox, input: seq<byte>, calls: seq<C.Call>)
    requires C.Usable(k) && C.Open(k.state) && x.buf == k.inp && x.status.Reading? && C.NeverCloses(calls)
    ensures B.Valid(B.ReadFD(k.inp, input))
    ensures var take := FrameTake(B.Readable(B.ReadFD(k.inp, input)));
            var y := OnReadable(x, input);
      && C.CanTake(B.ReadFD(k.inp, input), take)
      && (y.status.Closed? <==> C.HandleRead(k, input, take, calls).state.Disconnected?)
      && (!y.status.Crashed? ==> C.HandleRead(k, input, take, calls).inp == y.buf)
  {
    hide B.ReadFD, Decode, C.PerformAll;
    B.ReadExtends(k.inp, input);
    C.ReadClosesIff(k, input, FrameTake(B.Readable(B.ReadFD(k.inp, input))), calls);
  }

  // ---------- the handler ----------

  /** The part of OnMessage up to the switch; `ok` is false where the source panics. */
  method TakePacket(buf: B.Buffer) returns (packet: Decoded, ok: bool)
    requires B.Valid(buf.View())
    modifies buf
    ensures packet == Decode(B.Readable(old(buf.View()))) && buf.data == old(buf.data)
    ensures var x := OnMessage(Inbox(old(buf.View()), [], Reading));
      && (ok <==> x.status.Reading?)
      && (ok ==> buf.View() == x.buf)
  {
    hide Decode;
    var bs := buf.Peek();
    packet := Decode(bs);
    match packet
    case Incomplete => ok := true;
    case Panic => ok := false;
    case Packet(body) => ok := buf.RetrieveBytes(|body| + 4);
  }
}
