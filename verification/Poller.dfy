/** The poller: the channel map it keeps, the epoll set the kernel keeps, and a whole
    event loop of connections that register, change their interest and leave. */
module Poller {
  import opened Bytes
  import B = NetBuffer
  import C = Connection
  import S = ConnectionShutdown

  type Mask = C.Mask

  /** What the poller knows of a channel: its descriptor, and its index, -1 until the
      channel is first registered. */
  datatype Channel = Channel(fd: int, index: int)

  /** `kernel` is the epoll set: descriptor to interest mask. */
  datatype State = State(
    channels: map<nat, Channel>,
    channelMap: map<int, nat>,
    kernel: map<int, Mask>,
    idxCounter: nat)

  datatype Outcome = Ok(p: State) | Panic

  /** UpdateChannel: EPOLL_CTL_ADD for a new channel, EPOLL_CTL_MOD otherwise; the
      kernel's EEXIST and ENOENT are panics. */
  function UpdateChannel(p: State, c: nat, events: Mask): (o: Outcome)
    requires c in p.channels
    ensures o.Ok? ==> c in o.p.channels
  {
    var ch := p.channels[c];
    if ch.index < 0 then
      if ch.fd in p.kernel then Panic
      else Ok(State(p.channels[c := ch.(index := p.idxCounter + 1)], p.channelMap[ch.fd := c],
                    p.kernel[ch.fd := events], p.idxCounter + 1))
    else if ch.fd !in p.kernel then Panic
    else Ok(p.(kernel := p.kernel[ch.fd := events]))
  }

  function RemoveChannel(p: State, c: nat): (o: Outcome)
    requires c in p.channels
    ensures o.Ok? ==> c in o.p.channels
  {
    var ch := p.channels[c];
    if ch.index < 0 || ch.fd !in p.kernel then Panic
    else Ok(p.(kernel := p.kernel - {ch.fd}, channelMap := p.channelMap - {ch.fd}))
  }

  // ---------- the connections of one loop ----------

  datatype Reactor = Reactor(p: State, conns: map<nat, C.Conn>)

  const NEW_REACTOR := Reactor(State(map[], map[], map[], 0), map[])

  datatype Step =
    | Accept(c: nat, fd: int)
    | Establish(c: nat)
    | Act(c: nat, st: C.Step)

  /** The kernel hands out a descriptor that no live connection holds. */
  predicate Enabled(r: Reactor, step: Step) {
    match step
    case Accept(c, fd) =>
      && c !in r.conns && c !in r.p.channels
      && forall d :: d in r.conns && d in r.p.channels && r.p.channels[d].fd == fd ==> r.conns[d].state.Disconnected?
    case Establish(c) => c in r.conns && c in r.p.channels && r.conns[c].state.Connecting?
    case Act(c, st) => c in r.conns && c in r.p.channels && C.Enabled(r.conns[c], st)
  }

  /** What one call on a connection tells the poller when it takes it from `k` to `k'`: that
      it leaves, or its new interest mask when that changed. */
  function Report(p: State, c: nat, k: C.Conn, k': C.Conn): Outcome
    requires c in p.channels
  {
    if k'.state.Disconnected? && !k.state.Disconnected? then RemoveChannel(p, c)
    else if k'.events != k.events && C.Open(k'.state) then UpdateChannel(p, c, k'.events)
    else Ok(p)
  }

  /** The epoll_ctl calls of the calls a callback makes, one after the other. */
  function ReportCalls(p: State, c: nat, k: C.Conn, calls: seq<C.Call>): Outcome
    requires B.Valid(k.out) && c in p.channels
    decreases |calls|
  {
    if calls == [] then Ok(p)
    else
      C.KeepsValid(k, calls[0]);
      match Report(p, c, k, C.Perform(k, calls[0]))
      case Panic => Panic
      case Ok(q) => ReportCalls(q, c, C.Perform(k, calls[0]), calls[1..])
  }

  /** The epoll_ctl calls of one step of a connection: those of its callback, behind that of
      DisableWrite when a write event drained it. */
  function ReportStep(p: State, c: nat, k: C.Conn, st: C.Step): Outcome
    requires C.Enabled(k, st) && c in p.channels
  {
    match st
    case Api(call) => ReportCalls(p, c, k, [call])
    case WriteReady(n, calls) =>
      if n < |C.Pending(k)| then Ok(p)
      else
        (match UpdateChannel(p, c, C.Written(k, n).events)
         case Panic => Panic
         case Ok(q) => ReportCalls(q, c, C.Written(k, n), calls))
    case ReadReady(input, take, calls) =>
      if B.Delivered(k.inp, input) == [] then ReportCalls(p, c, k, [C.CallClose])
      else ReportCalls(p, c, C.Heard(k, input, take), calls)
  }

  datatype Result = Done(r: Reactor) | Crash

  function Next(r: Reactor, step: Step): Result
    requires Enabled(r, step)
  {
    match step
    case Accept(c, fd) =>
      Done(Reactor(r.p.(channels := r.p.channels[c := Channel(fd, -1)]), r.conns[c := C.NewConn()]))
    case Establish(c) =>
      var k := C.Establish(r.conns[c]);
      (match UpdateChannel(r.p, c, k.events)
       case Panic => Crash
       case Ok(p) => Done(Reactor(p, r.conns[c := k])))
    case Act(c, st) =>
      var k := C.Next(r.conns[c], st);
      (match ReportStep(r.p, c, r.conns[c], st)
       case Panic => Crash
       case Ok(p) => Done(Reactor(p, r.conns[c := k])))
  }

  // ---------- the invariant ----------

  /** The entry the poller and the kernel hold for connection `c`. */
  predicate Registered(p: State, c: nat, events: Mask) {
    && c in p.channels
    && var ch := p.channels[c];
       && ch.index >= 1
       && ch.fd in p.channelMap && p.channelMap[ch.fd] == c
       && ch.fd in p.kernel && p.kernel[ch.fd] == events
  }

  /** The channel map and the epoll set have the same keys; entries point back to
      their channel. */
  ghost predicate MapsAgree(p: State) {
    && p.kernel.Keys == p.channelMap.Keys
    && forall fd :: fd in p.channelMap ==>
         p.channelMap[fd] in p.channels && p.channels[p.channelMap[fd]].fd == fd
  }

  /** Indices are -1 or distinct numbers in 1..idxCounter. */
  ghost predicate Indexed(p: State) {
    && (forall c :: c in p.channels ==> p.channels[c].index == -1 || 1 <= p.channels[c].index <= p.idxCounter)
    && (forall c, d :: c in p.channels && d in p.channels && c != d && p.channels[c].index >= 1
          ==> p.channels[c].index != p.channels[d].index)
  }

  ghost predicate OpenRegistered(r: Reactor) {
    forall c :: c in r.conns && C.Open(r.conns[c].state) ==> Registered(r.p, c, r.conns[c].events)
  }

  ghost predicate ConnectingUnknown(r: Reactor) {
    forall c :: c in r.conns && c in r.p.channels && r.conns[c].state.Connecting? ==>
      r.p.channels[c].index == -1 && r.p.channels[c].fd !in r.p.kernel
  }

  ghost predicate EntriesOpen(r: Reactor) {
    forall fd :: fd in r.p.channelMap && r.p.channelMap[fd] in r.conns ==> C.Open(r.conns[r.p.channelMap[fd]].state)
  }

  /** No two connections that are not closed hold the same descriptor. */
  ghost predicate OwnDescriptors(r: Reactor) {
    forall c, d ::
      (&& c in r.conns && d in r.conns && c in r.p.channels && d in r.p.channels
       && c != d && r.p.channels[c].fd == r.p.channels[d].fd) ==>
      r.conns[c].state.Disconnected? || r.conns[d].state.Disconnected?
  }

  /** Each connection is registered, with its current mask, exactly while open; a
      connecting one is unknown to the kernel. */
  ghost predicate Tracked(r: Reactor) {
    && r.conns.Keys == r.p.channels.Keys
    && OpenRegistered(r) && ConnectingUnknown(r) && EntriesOpen(r) && OwnDescriptors(r)
  }

  ghost predicate Inv(r: Reactor) {
    MapsAgree(r.p) && Indexed(r.p) && Tracked(r)
  }

  lemma NewIsConnecting()
    ensures C.NewConn().state.Connecting?
  {
  }

  lemma AcceptTracked(r: Reactor, c: nat, fd: int)
    requires MapsAgree(r.p) && Tracked(r) && Enabled(r, Accept(c, fd))
    ensures Tracked(Next(r, Accept(c, fd)).r)
  {
    hide C.NewConn;
    NewIsConnecting();
    assert fd !in r.p.kernel by {
      assert fd in r.p.channelMap ==> C.Open(r.conns[r.p.channelMap[fd]].state);
    }
  }

  lemma AcceptKeepsInv(r: Reactor, c: nat, fd: int)
    requires Inv(r) && Enabled(r, Accept(c, fd))
    ensures Inv(Next(r, Accept(c, fd)).r)
  {
    hide C.NewConn, Tracked;
    AcceptTracked(r, c, fd);
  }

  lemma EstablishRegistered(r: Reactor, c: nat)
    requires MapsAgree(r.p) && Tracked(r) && Enabled(r, Establish(c))
    ensures Next(r, Establish(c)).Done?
    ensures OpenRegistered(Next(r, Establish(c)).r) && EntriesOpen(Next(r, Establish(c)).r)
  {
    hide OwnDescriptors;
    var r' := Next(r, Establish(c)).r;
    forall d | d in r'.conns && C.Open(r'.conns[d].state)
      ensures Registered(r'.p, d, r'.conns[d].events)
    {
      assert d != c ==> Registered(r.p, d, r.conns[d].events);
    }
  }

  lemma EstablishOthers(r: Reactor, c: nat)
    requires Tracked(r) && Enabled(r, Establish(c))
    ensures Next(r, Establish(c)).Done?
    ensures ConnectingUnknown(Next(r, Establish(c)).r) && OwnDescriptors(Next(r, Establish(c)).r)
  {
    hide OpenRegistered, EntriesOpen;
    var r' := Next(r, Establish(c)).r;
    forall d | d in r'.conns && d in r'.p.channels && r'.conns[d].state.Connecting?
      ensures r'.p.channels[d].index == -1 && r'.p.channels[d].fd !in r'.p.kernel
    {
      assert d != c && r.p.channels[d].fd != r.p.channels[c].fd;
    }
  }

  lemma EstablishTracked(r: Reactor, c: nat)
    requires MapsAgree(r.p) && Tracked(r) && Enabled(r, Establish(c))
    ensures Next(r, Establish(c)).Done? && Tracked(Next(r, Establish(c)).r)
  {
    hide OpenRegistered, ConnectingUnknown, EntriesOpen, OwnDescriptors;
    EstablishRegistered(r, c);
    EstablishOthers(r, c);
  }

  lemma EstablishMaps(r: Reactor, c: nat)
    requires MapsAgree(r.p) && Indexed(r.p) && Tracked(r) && Enabled(r, Establish(c))
    ensures Next(r, Establish(c)).Done?
    ensures MapsAgree(Next(r, Establish(c)).r.p) && Indexed(Next(r, Establish(c)).r.p)
  {
    hide OpenRegistered, EntriesOpen, OwnDescriptors;
    var p := Next(r, Establish(c)).r.p;
    assert MapsAgree(p) by { hide Indexed; }
    assert Indexed(p) by { hide MapsAgree; }
  }

  lemma EstablishKeepsInv(r: Reactor, c: nat)
    requires Inv(r) && Enabled(r, Establish(c))
    ensures Next(r, Establish(c)).Done? && Inv(Next(r, Establish(c)).r)
  {
    hide MapsAgree, Indexed, Tracked, Next;
    EstablishTracked(r, c);
    EstablishMaps(r, c);
  }

  /** An open connection stays open, with or without a new mask: its entry in the
      epoll set is all that changes. */
  lemma StayReport(r: Reactor, c: nat, k: C.Conn)
    requires Inv(r) && c in r.conns && C.Open(r.conns[c].state) && C.Open(k.state)
    ensures c in r.p.channels && Report(r.p, c, r.conns[c], k).Ok?
    ensures var p := Report(r.p, c, r.conns[c], k).p;
      && Registered(p, c, k.events)
      && p == r.p.(kernel := p.kernel)
      && p.kernel.Keys == r.p.kernel.Keys
      && forall fd :: fd in p.kernel && fd != p.channels[c].fd ==> p.kernel[fd] == r.p.kernel[fd]
  {
    hide Indexed, MapsAgree;
    assert Registered(r.p, c, r.conns[c].events);
  }

  lemma StayTracked(r: Reactor, p: State, c: nat, k: C.Conn)
    requires Tracked(r) && c in r.conns && C.Open(r.conns[c].state) && C.Open(k.state)
    requires Registered(p, c, k.events) && p == r.p.(kernel := p.kernel) && p.kernel.Keys == r.p.kernel.Keys
    requires forall fd :: fd in p.kernel && fd != p.channels[c].fd ==> p.kernel[fd] == r.p.kernel[fd]
    ensures Tracked(Reactor(p, r.conns[c := k]))
  {
    var r' := Reactor(p, r.conns[c := k]);
    assert OpenRegistered(r') by {
      hide ConnectingUnknown, EntriesOpen, OwnDescriptors;
      forall d | d in r'.conns && C.Open(r'.conns[d].state)
        ensures Registered(p, d, r'.conns[d].events)
      {
        assert d != c ==> Registered(r.p, d, r.conns[d].events);
      }
    }
    hide OpenRegistered;
    assert ConnectingUnknown(r') by { hide EntriesOpen, OwnDescriptors; }
    assert EntriesOpen(r') by { hide ConnectingUnknown, OwnDescriptors; }
    assert OwnDescriptors(r') by { hide ConnectingUnknown, EntriesOpen; }
  }

  lemma StayKeepsInv(r: Reactor, c: nat, k: C.Conn)
    requires Inv(r) && c in r.conns && C.Open(r.conns[c].state) && C.Open(k.state)
    ensures c in r.p.channels && Report(r.p, c, r.conns[c], k).Ok?
    ensures Inv(Reactor(Report(r.p, c, r.conns[c], k).p, r.conns[c := k]))
  {
    hide Tracked, Registered, Report;
    StayReport(r, c, k);
    StayTracked(r, Report(r.p, c, r.conns[c], k).p, c, k);
  }

  lemma LeaveTracked(r: Reactor, c: nat, k: C.Conn)
    requires Inv(r) && c in r.conns && C.Open(r.conns[c].state) && k.state.Disconnected?
    ensures c in r.p.channels && Report(r.p, c, r.conns[c], k).Ok?
    ensures Tracked(Reactor(Report(r.p, c, r.conns[c], k).p, r.conns[c := k]))
  {
    hide Indexed;
    assert Registered(r.p, c, r.conns[c].events);
  }

  lemma LeaveMaps(r: Reactor, c: nat, k: C.Conn)
    requires Inv(r) && c in r.conns && C.Open(r.conns[c].state) && k.state.Disconnected?
    ensures c in r.p.channels && Report(r.p, c, r.conns[c], k).Ok?
    ensures MapsAgree(Report(r.p, c, r.conns[c], k).p) && Indexed(Report(r.p, c, r.conns[c], k).p)
  {
    assert Registered(r.p, c, r.conns[c].events);
  }

  /** What one call can do to the state of a connection. */
  lemma CallShape(k: C.Conn, call: C.Call)
    requires B.Valid(k.out)
    ensures !C.Open(k.state) ==> C.Perform(k, call) == k
    ensures C.Open(k.state) ==> C.Open(C.Perform(k, call).state) || C.Perform(k, call).state.Disconnected?
  {
    hide B.Append;
  }

  lemma CallReported(r: Reactor, c: nat, call: C.Call)
    requires Inv(r) && c in r.conns && B.Valid(r.conns[c].out)
    ensures c in r.p.channels
    ensures var k' := C.Perform(r.conns[c], call);
      Report(r.p, c, r.conns[c], k').Ok? && Inv(Reactor(Report(r.p, c, r.conns[c], k').p, r.conns[c := k']))
  {
    hide MapsAgree, Indexed, OpenRegistered, ConnectingUnknown, EntriesOpen, OwnDescriptors, C.Perform, UpdateChannel, RemoveChannel;
    var k := r.conns[c];
    var k' := C.Perform(k, call);
    CallShape(k, call);
    if !C.Open(k.state) {
      assert r.conns[c := k] == r.conns;
    } else if C.Open(k'.state) {
      StayKeepsInv(r, c, k');
    } else {
      LeaveTracked(r, c, k');
      LeaveMaps(r, c, k');
    }
  }

  /** None of the epoll_ctl calls of a callback panics, and they leave all in agreement. */
  lemma {:induction false} CallsReported(r: Reactor, c: nat, calls: seq<C.Call>)
    requires Inv(r) && c in r.conns && B.Valid(r.conns[c].out)
    ensures c in r.p.channels
    ensures var o := ReportCalls(r.p, c, r.conns[c], calls);
      o.Ok? && Inv(Reactor(o.p, r.conns[c := C.PerformAll(r.conns[c], calls)]))
    decreases |calls|
  {
    hide Inv, Report, C.Perform;
    if calls == [] {
      assert r.conns[c := r.conns[c]] == r.conns;
      InvKnows(r, c);
    } else {
      var k' := C.Perform(r.conns[c], calls[0]);
      C.KeepsValid(r.conns[c], calls[0]);
      CallReported(r, c, calls[0]);
      var t := Reactor(Report(r.p, c, r.conns[c], k').p, r.conns[c := k']);
      CallsReported(t, c, calls[1..]);
      assert t.conns[c := C.PerformAll(k', calls[1..])] == r.conns[c := C.PerformAll(k', calls[1..])];
    }
  }

  lemma InvKnows(r: Reactor, c: nat)
    requires Inv(r) && c in r.conns
    ensures c in r.p.channels
  {
  }

  /** Fields the poller does not look at. */
  lemma SameToPoller(r: Reactor, c: nat, k: C.Conn)
    requires Inv(r) && c in r.conns && k.state == r.conns[c].state && k.events == r.conns[c].events
    ensures Inv(Reactor(r.p, r.conns[c := k]))
  {
    hide MapsAgree, Indexed;
    if C.Open(k.state) {
      hide Tracked;
      StayKeepsInv(r, c, k);
    } else {
      ClosedToPoller(r, c, k);
    }
  }

  lemma ClosedToPoller(r: Reactor, c: nat, k: C.Conn)
    requires Tracked(r) && c in r.conns && k.state == r.conns[c].state && !C.Open(k.state)
    ensures Tracked(Reactor(r.p, r.conns[c := k]))
  {
    var r' := Reactor(r.p, r.conns[c := k]);
    assert OpenRegistered(r') by { hide ConnectingUnknown, EntriesOpen, OwnDescriptors; }
    hide OpenRegistered;
    assert ConnectingUnknown(r') by { hide EntriesOpen, OwnDescriptors; }
    assert EntriesOpen(r') by { hide ConnectingUnknown, OwnDescriptors; }
    assert OwnDescriptors(r') by { hide ConnectingUnknown, EntriesOpen; }
  }

  /** EPOLL_CTL_MOD of an open connection, with a new mask or the old one. */
  lemma ModReported(r: Reactor, c: nat, k: C.Conn)
    requires Inv(r) && c in r.conns && C.Open(r.conns[c].state) && k.state == r.conns[c].state
    ensures c in r.p.channels && UpdateChannel(r.p, c, k.events).Ok?
    ensures Inv(Reactor(UpdateChannel(r.p, c, k.events).p, r.conns[c := k]))
  {
    hide MapsAgree, Indexed, ConnectingUnknown, EntriesOpen, OwnDescriptors;
    assert Registered(r.p, c, r.conns[c].events);
    if k.events == r.conns[c].events {
      var fd := r.p.channels[c].fd;
      assert r.p.kernel[fd := k.events] == r.p.kernel;
      SameToPoller(r, c, k);
    } else {
      StayKeepsInv(r, c, k);
    }
  }

  lemma WriteReported(r: Reactor, c: nat, n: int, calls: seq<C.Call>)
    requires Inv(r) && c in r.conns && C.Enabled(r.conns[c], C.WriteReady(n, calls))
    ensures c in r.p.channels
    ensures var o := ReportStep(r.p, c, r.conns[c], C.WriteReady(n, calls));
      o.Ok? && Inv(Reactor(o.p, r.conns[c := C.HandleWrite(r.conns[c], n, calls)]))
  {
    hide Inv, C.PerformAll, UpdateChannel, ReportCalls;
    InvKnows(r, c);
    var k := r.conns[c];
    var w := C.Written(k, n);
    var k' := C.HandleWrite(k, n, calls);
    if n < |C.Pending(k)| {
      SameToPoller(r, c, w);
    } else {
      ModReported(r, c, w);
      var t := Reactor(UpdateChannel(r.p, c, w.events).p, r.conns[c := w]);
      CallsReported(t, c, calls);
      var u := Reactor(ReportCalls(t.p, c, w, calls).p, t.conns[c := C.PerformAll(w, calls)]);
      SameToPoller(u, c, k');
      assert u.conns[c := k'] == r.conns[c := k'];
    }
  }

  lemma ReadReported(r: Reactor, c: nat, input: seq<byte>, take: C.Take, calls: seq<C.Call>)
    requires Inv(r) && c in r.conns && C.Enabled(r.conns[c], C.ReadReady(input, take, calls))
    ensures c in r.p.channels
    ensures var o := ReportStep(r.p, c, r.conns[c], C.ReadReady(input, take, calls));
      o.Ok? && Inv(Reactor(o.p, r.conns[c := C.HandleRead(r.conns[c], input, take, calls)]))
  {
    hide Inv, C.PerformAll, ReportCalls, B.ReadFD;
    InvKnows(r, c);
    var k := r.conns[c];
    if B.Delivered(k.inp, input) == [] {
      CallsReported(r, c, [C.CallClose]);
      C.OneCall(k, C.CallClose);
    } else {
      var h := C.Heard(k, input, take);
      SameToPoller(r, c, h);
      var t := Reactor(r.p, r.conns[c := h]);
      CallsReported(t, c, calls);
      assert t.conns[c := C.PerformAll(h, calls)] == r.conns[c := C.PerformAll(h, calls)];
    }
  }

  lemma ActKeepsInv(r: Reactor, c: nat, st: C.Step)
    requires Inv(r) && Enabled(r, Act(c, st))
    ensures Next(r, Act(c, st)).Done? && Inv(Next(r, Act(c, st)).r)
  {
    hide Inv, ReportCalls, C.HandleRead, C.HandleWrite, C.PerformAll, UpdateChannel, B.ReadFD;
    match st
    case Api(call) =>
      CallsReported(r, c, [call]);
      C.OneCall(r.conns[c], call);
    case WriteReady(n, calls) => WriteReported(r, c, n, calls);
    case ReadReady(input, take, calls) => ReadReported(r, c, input, take, calls);
  }

  // ---------- indices ----------

  predicate HasIndex(p: State, c: nat, i: int) {
    c in p.channels && p.channels[c].index == i
  }

  ghost predicate GivenOut(p: State, i: int) {
    exists c :: HasIndex(p, c, i)
  }

  /** Every number up to the counter is the index of some channel. */
  ghost predicate AllGiven(p: State) {
    forall i :: 1 <= i <= p.idxCounter ==> GivenOut(p, i)
  }

  lemma UpdateGiven(p: State, c: nat, events: Mask)
    requires AllGiven(p) && c in p.channels && UpdateChannel(p, c, events).Ok?
    ensures AllGiven(UpdateChannel(p, c, events).p)
  {
    var q := UpdateChannel(p, c, events).p;
    forall i | 1 <= i <= q.idxCounter
      ensures GivenOut(q, i)
    {
      if i <= p.idxCounter {
        assert GivenOut(p, i);
        var d :| HasIndex(p, d, i);
        assert HasIndex(q, d, i);
      } else {
        assert HasIndex(q, c, i);
      }
    }
  }

  lemma SameGiven(p: State, q: State)
    requires AllGiven(p) && q.channels == p.channels && q.idxCounter == p.idxCounter
    ensures AllGiven(q)
  {
    forall i | 1 <= i <= q.idxCounter
      ensures GivenOut(q, i)
    {
      assert GivenOut(p, i);
      var d :| HasIndex(p, d, i);
      assert HasIndex(q, d, i);
    }
  }

  lemma ReportGiven(p: State, c: nat, k: C.Conn, k': C.Conn)
    requires AllGiven(p) && c in p.channels && Report(p, c, k, k').Ok?
    ensures AllGiven(Report(p, c, k, k').p)
  {
    hide AllGiven, UpdateChannel;
    if k'.state.Disconnected? && !k.state.Disconnected? {
      SameGiven(p, RemoveChannel(p, c).p);
    } else if k'.events != k.events && C.Open(k'.state) {
      UpdateGiven(p, c, k'.events);
    }
  }

  lemma {:induction false} ReportCallsGiven(p: State, c: nat, k: C.Conn, calls: seq<C.Call>)
    requires AllGiven(p) && B.Valid(k.out) && c in p.channels && ReportCalls(p, c, k, calls).Ok?
    ensures AllGiven(ReportCalls(p, c, k, calls).p)
    decreases |calls|
  {
    hide AllGiven, C.Perform;
    if calls != [] {
      var k' := C.Perform(k, calls[0]);
      C.KeepsValid(k, calls[0]);
      ReportGiven(p, c, k, k');
      ReportCallsGiven(Report(p, c, k, k').p, c, k', calls[1..]);
    }
  }

  lemma AcceptGiven(p: State, c: nat, fd: int)
    requires AllGiven(p) && c !in p.channels
    ensures AllGiven(p.(channels := p.channels[c := Channel(fd, -1)]))
  {
    var q := p.(channels := p.channels[c := Channel(fd, -1)]);
    forall i | 1 <= i <= q.idxCounter
      ensures GivenOut(q, i)
    {
      assert GivenOut(p, i);
      var d :| HasIndex(p, d, i);
      assert HasIndex(q, d, i);
    }
  }

  lemma StepKeepsGiven(r: Reactor, step: Step)
    requires AllGiven(r.p) && Enabled(r, step) && Next(r, step).Done?
    ensures AllGiven(Next(r, step).r.p)
  {
    hide AllGiven, UpdateChannel, ReportCalls, C.Next, C.NewConn, B.ReadFD;
    match step
    case Accept(c, fd) => AcceptGiven(r.p, c, fd);
    case Establish(c) => UpdateGiven(r.p, c, C.Establish(r.conns[c]).events);
    case Act(c, st) =>
      var k := r.conns[c];
      match st
      case Api(call) => ReportCallsGiven(r.p, c, k, [call]);
      case WriteReady(n, calls) =>
        if n == |C.Pending(k)| {
          var w := C.Written(k, n);
          UpdateGiven(r.p, c, w.events);
          ReportCallsGiven(UpdateChannel(r.p, c, w.events).p, c, w, calls);
        }
      case ReadReady(input, take, calls) =>
        if B.Delivered(k.inp, input) == [] {
          ReportCallsGiven(r.p, c, k, [C.CallClose]);
        } else {
          ReportCallsGiven(r.p, c, C.Heard(k, input, take), calls);
        }
  }

  // ---------- what the kernel watches for ----------

  /** A connection that is not closed wants reads; and one whose output buffer is usable
      wants what its pending output needs. */
  ghost predicate Minded(k: C.Conn) {
    (!k.state.Disconnected? ==> k.events.read) && (B.Valid(k.out) ==> S.Tidy(k))
  }

  ghost predicate AllMinded(r: Reactor) {
    forall c :: c in r.conns ==> Minded(r.conns[c])
  }

  lemma NewMinded()
    ensures Minded(C.NewConn()) && C.NewConn().state.Connecting?
  {
    hide B.NewBuf;
    S.FreshTidy(C.NewConn());
  }

  lemma EstablishMinded(k: C.Conn)
    requires Minded(k) && k.state.Connecting?
    ensures Minded(C.Establish(k))
  {
  }

  lemma ActMinded(k: C.Conn, st: C.Step)
    requires Minded(k) && C.Enabled(k, st)
    ensures Minded(C.Next(k, st))
  {
    hide C.Next, S.Tidy, B.ReadFD;
    C.StepKeepsRead(k, st);
    S.EarlyShutdownIff(k, st);
    if !C.Next(k, st).state.Disconnected? {
      C.StateAdvances(k, st);
    }
  }

  lemma StepKeepsMinded(r: Reactor, step: Step)
    requires AllMinded(r) && Enabled(r, step) && Next(r, step).Done?
    ensures AllMinded(Next(r, step).r)
  {
    hide Minded, C.NewConn, C.Next, C.Enabled, ReportStep, UpdateChannel;
    match step
    case Accept(_, _) => NewMinded();
    case Establish(c) => EstablishMinded(r.conns[c]);
    case Act(c, st) => ActMinded(r.conns[c], st);
  }

  lemma StepKeepsInv(r: Reactor, step: Step)
    requires Inv(r) && Enabled(r, step)
    ensures Next(r, step).Done? && Inv(Next(r, step).r)
  {
    hide Inv, C.Next, C.Enabled;
    match step
    case Accept(c, fd) => AcceptKeepsInv(r, c, fd);
    case Establish(c) => EstablishKeepsInv(r, c);
    case Act(c, st) => ActKeepsInv(r, c, st);
  }

  // ---------- runs ----------

  /** `s` is how performing `steps` from `r` ends: in a state, or in a crash. */
  ghost predicate Run(r: Reactor, steps: seq<Step>, s: Result)
    decreases |steps|
  {
    if steps == [] then s == Done(r)
    else
      && Enabled(r, steps[0])
      && match Next(r, steps[0])
         case Crash => s == Crash
         case Done(t) => Run(t, steps[1..], s)
  }

  lemma {:induction false} RunKeepsInv(r: Reactor, steps: seq<Step>, s: Result)
    requires Inv(r) && Run(r, steps, s)
    ensures s.Done? && Inv(s.r)
    ensures AllMinded(r) && AllGiven(r.p) ==> AllMinded(s.r) && AllGiven(s.r.p)
    decreases |steps|
  {
    hide Inv, Enabled, Next, AllMinded, AllGiven;
    if steps != [] {
      StepKeepsInv(r, steps[0]);
      if AllMinded(r) && AllGiven(r.p) {
        StepKeepsMinded(r, steps[0]);
        StepKeepsGiven(r, steps[0]);
      }
      RunKeepsInv(Next(r, steps[0]).r, steps[1..], s);
    }
  }

  /** In every run of any number of connections, whatever their message and
      write-complete callbacks do to their own connection: no
      EEXIST or ENOENT panic, the channel map and the epoll set have the same
      descriptors, every open connection is registered with its current interest
      mask, in which reads are always on and writes whenever output is pending, every
      entry belongs to an open connection, and the registered channels have the indices
      1..idxCounter, each once. */
  lemma PollerInSync(steps: seq<Step>, s: Result)
    requires Run(NEW_REACTOR, steps, s)
    ensures s.Done?
    ensures s.r.p.kernel.Keys == s.r.p.channelMap.Keys
    ensures forall c :: c in s.r.conns && C.Open(s.r.conns[c].state) ==>
              && Registered(s.r.p, c, s.r.conns[c].events)
              && s.r.conns[c].events.read
              && (B.Valid(s.r.conns[c].out) && C.Pending(s.r.conns[c]) != [] ==> s.r.conns[c].events.write)
    ensures forall fd :: fd in s.r.p.channelMap ==>
              s.r.p.channelMap[fd] in s.r.conns && C.Open(s.r.conns[s.r.p.channelMap[fd]].state)
    ensures Indexed(s.r.p) && AllGiven(s.r.p)
  {
    hide Run, Indexed, Registered, AllGiven;
    NewInv();
    NothingGiven();
    RunKeepsInv(NEW_REACTOR, steps, s);
    forall c | c in s.r.conns && C.Open(s.r.conns[c].state)
      ensures Minded(s.r.conns[c])
    {
    }
  }

  lemma NothingGiven()
    ensures AllGiven(NEW_REACTOR.p)
  {
  }

  lemma NewInv()
    ensures Inv(NEW_REACTOR)
  {
  }

  // ---------- callbacks that close ----------

  /** What Send above the high-water level tells the poller: the callback may close the
      connection, and write interest is turned on after it. */
  function ReportOver(p: State, c: nat, events: Mask, callback: S.HighWater): Outcome
    requires c in p.channels
  {
    var left := if callback.Closes? then RemoveChannel(p, c) else Ok(p);
    if left.Panic? || events.write then left else UpdateChannel(left.p, c, events.(write := true))
  }

  /** A high-water callback makes Send panic, on EPOLL_CTL_MOD of a descriptor that is no
      longer registered, if and only if it closes the connection while write interest
      is off. */
  lemma HighWaterPanicIff(r: Reactor, c: nat, callback: S.HighWater)
    requires Inv(r) && c in r.conns && r.conns[c].state.Connected?
    ensures c in r.p.channels
    ensures ReportOver(r.p, c, r.conns[c].events, callback).Panic? <==> callback.Closes? && !r.conns[c].events.write
  {
    hide Indexed, ConnectingUnknown, EntriesOpen, OwnDescriptors;
    assert Registered(r.p, c, r.conns[c].events);
  }

  predicate OpenIn(r: Reactor, c: nat) {
    c in r.conns && C.Open(r.conns[c].state)
  }

  /** ForceClose from a callback of any connection. */
  function Close(r: Reactor, c: nat): Result {
    if !OpenIn(r, c) || c !in r.p.channels then Done(r)
    else
      match RemoveChannel(r.p, c)
      case Panic => Crash
      case Ok(p) => Done(Reactor(p, r.conns[c := C.ForceClose(r.conns[c])]))
  }

  function CloseAll(r: Reactor, victims: seq<nat>): Result
    decreases |victims|
  {
    if victims == [] then Done(r)
    else
      match Close(r, victims[0])
      case Crash => Crash
      case Done(t) => CloseAll(t, victims[1..])
  }

  /** An event Poll reported, and the connections that its handling closes: the read event of
      a connection, or any other one, such as a write event, a timer that evicts
      connections, or an accepted connection. */
  datatype Event = ReadEvent(c: nat, closes: seq<nat>) | OtherEvent(closes: seq<nat>)

  /** The event reads from a connection that is not open. */
  predicate Stale(r: Reactor, e: Event) {
    e.ReadEvent? && !OpenIn(r, e.c)
  }

  /** The events of one poll in order.  The read handler of a connection that was closed
      meanwhile reads nothing from the closed descriptor and panics in handleClose. */
  function HandleBatch(r: Reactor, batch: seq<Event>): Result
    decreases |batch|
  {
    if batch == [] then Done(r)
    else if Stale(r, batch[0]) then Crash
    else
      match CloseAll(r, batch[0].closes)
      case Crash => Crash
      case Done(t) => HandleBatch(t, batch[1..])
  }

  lemma CloseKeepsInv(r: Reactor, c: nat)
    requires Inv(r)
    ensures Close(r, c).Done? && Inv(Close(r, c).r)
    ensures forall d :: OpenIn(Close(r, c).r, d) <==> OpenIn(r, d) && d != c
  {
    hide MapsAgree, Indexed, OpenRegistered, ConnectingUnknown, EntriesOpen, OwnDescriptors, RemoveChannel;
    if OpenIn(r, c) && c in r.p.channels {
      var k := C.ForceClose(r.conns[c]);
      LeaveTracked(r, c, k);
      LeaveMaps(r, c, k);
    }
  }

  lemma {:induction false} CloseAllKeepsInv(r: Reactor, victims: seq<nat>)
    requires Inv(r)
    ensures CloseAll(r, victims).Done? && Inv(CloseAll(r, victims).r)
    ensures forall d :: OpenIn(CloseAll(r, victims).r, d) <==> OpenIn(r, d) && d !in victims
    decreases |victims|
  {
    hide Inv, Close, OpenIn;
    if victims != [] {
      CloseKeepsInv(r, victims[0]);
      CloseAllKeepsInv(Close(r, victims[0]).r, victims[1..]);
    }
  }

  /** The events of one poll bring the loop down if and only if one of them reads from a
      connection that is not open, or from one that is closed while an earlier event of
      the same poll is handled. */
  lemma {:induction false} StaleReadIff(r: Reactor, batch: seq<Event>)
    requires Inv(r)
    ensures HandleBatch(r, batch).Crash? <==>
      || (exists j :: 0 <= j < |batch| && Stale(r, batch[j]))
      || (exists i, j :: 0 <= i < j < |batch| && ClosesReader(batch[i], batch[j]))
    decreases |batch|
  {
    hide Inv, CloseAll, OpenIn;
    if batch != [] && !Stale(r, batch[0]) {
      CloseAllKeepsInv(r, batch[0].closes);
      var t := CloseAll(r, batch[0].closes).r;
      var rest := batch[1..];
      StaleReadIff(t, rest);
      StaleShift(r, t, batch, rest);
    }
  }

  predicate ClosesReader(e: Event, f: Event) {
    f.ReadEvent? && f.c in e.closes
  }

  lemma StaleShift(r: Reactor, t: Reactor, batch: seq<Event>, rest: seq<Event>)
    requires batch != [] && rest == batch[1..] && !Stale(r, batch[0])
    requires forall d :: OpenIn(t, d) <==> OpenIn(r, d) && d !in batch[0].closes
    ensures (|| (exists j :: 0 <= j < |rest| && Stale(t, rest[j]))
             || (exists i, j :: 0 <= i < j < |rest| && ClosesReader(rest[i], rest[j]))) <==>
            (|| (exists j :: 0 <= j < |batch| && Stale(r, batch[j]))
             || (exists i, j :: 0 <= i < j < |batch| && ClosesReader(batch[i], batch[j])))
  {
    hide OpenIn;
    assert forall j :: 0 <= j < |rest| ==> rest[j] == batch[j + 1];
    if j :| 0 <= j < |rest| && Stale(t, rest[j]) {
      assert Stale(r, batch[j + 1]) || ClosesReader(batch[0], batch[j + 1]);
    }
    if i, j :| 0 <= i < j < |rest| && ClosesReader(rest[i], rest[j]) {
      assert ClosesReader(batch[i + 1], batch[j + 1]);
    }
    if j :| 0 <= j < |batch| && Stale(r, batch[j]) {
      assert Stale(t, rest[j - 1]);
    }
    if i, j :| 0 <= i < j < |batch| && ClosesReader(batch[i], batch[j]) {
      if i == 0 {
        assert Stale(t, rest[j - 1]);
      } else {
        assert ClosesReader(rest[i - 1], rest[j - 1]);
      }
    }
  }

  // ---------- runs that go wrong ----------

  lemma OneOpen(c: nat, fd: int) returns (r: Reactor)
    ensures Run(NEW_REACTOR, [Accept(c, fd), Establish(c)], Done(r)) && Inv(r)
    ensures r.conns == map[c := C.Establish(C.NewConn())] && r.p.channels == map[c := Channel(fd, 1)]
  {
    hide C.NewConn, Inv;
    NewIsConnecting();
    var steps := [Accept(c, fd), Establish(c)];
    var a := Next(NEW_REACTOR, steps[0]).r;
    r := Next(a, steps[1]).r;
    assert Run(r, steps[2..], Done(r));
    assert Run(a, steps[1..], Done(r));
    NewInv();
    RunKeepsInv(NEW_REACTOR, steps, Done(r));
  }

  lemma {:induction false} RunThen(r: Reactor, steps: seq<Step>, s: Reactor, step: Step)
    requires Run(r, steps, Done(s)) && Enabled(s, step) && Next(s, step).Done?
    ensures Run(r, steps + [step], Next(s, step))
    decreases |steps|
  {
    hide Enabled, Next;
    if steps == [] {
      assert (steps + [step])[1..] == [];
    } else {
      assert (steps + [step])[1..] == steps[1..] + [step];
      RunThen(Next(r, steps[0]).r, steps[1..], s, step);
    }
  }

  /** A connection after its first write event: a high-water callback that closes it makes
      the next Send panic. */
  lemma HighWaterPanics() returns (r: Reactor)
    ensures Run(NEW_REACTOR, [Accept(1, 7), Establish(1)] + [Act(1, C.WriteReady(0, []))], Done(r))
    ensures 1 in r.conns && r.conns[1].state.Connected? && 1 in r.p.channels
    ensures ReportOver(r.p, 1, r.conns[1].events, S.Closes).Panic?
  {
    hide Inv, Run, B.NewBuf, UpdateChannel, ReportOver;
    var o := OneOpen(1, 7);
    InvKnows(o, 1);
    ActKeepsInv(o, 1, C.WriteReady(0, []));
    RunThen(NEW_REACTOR, [Accept(1, 7), Establish(1)], o, Act(1, C.WriteReady(0, [])));
    r := Next(o, Act(1, C.WriteReady(0, []))).r;
    HighWaterPanicIff(r, 1, S.Closes);
  }

  /** Two connections of which the first one's callback closes the second, and a connection
      that a timer evicts: a read event of the closed one in the same poll panics. */
  lemma StaleReadsPanic() returns (r: Reactor)
    ensures Run(NEW_REACTOR, [Accept(1, 7), Establish(1)] + [Accept(2, 8)] + [Establish(2)], Done(r))
    ensures OpenIn(r, 1) && OpenIn(r, 2)
    ensures HandleBatch(r, [ReadEvent(1, [2]), ReadEvent(2, [])]).Crash?
    ensures HandleBatch(r, [OtherEvent([1]), ReadEvent(1, [])]).Crash?
  {
    hide Inv, Run, C.NewConn, UpdateChannel, HandleBatch;
    NewIsConnecting();
    var o := OneOpen(1, 7);
    InvKnows(o, 1);
    var steps := [Accept(1, 7), Establish(1)];
    AcceptKeepsInv(o, 2, 8);
    RunThen(NEW_REACTOR, steps, o, Accept(2, 8));
    var a := Next(o, Accept(2, 8)).r;
    EstablishKeepsInv(a, 2);
    RunThen(NEW_REACTOR, steps + [Accept(2, 8)], a, Establish(2));
    r := Next(a, Establish(2)).r;
    var first := [ReadEvent(1, [2]), ReadEvent(2, [])];
    assert ClosesReader(first[0], first[1]);
    StaleReadIff(r, first);
    var second := [OtherEvent([1]), ReadEvent(1, [])];
    assert ClosesReader(second[0], second[1]);
    StaleReadIff(r, second);
  }

  // ---------- the poller object ----------

  class EpollPoller {
    var channels: map<nat, Channel>
    var channelMap: map<int, nat>
    var idxCounter: nat
    var kernel: map<int, Mask>

    ghost function View(): State
      reads this
    {
      State(channels, channelMap, kernel, idxCounter)
    }

    constructor ()
      ensures View() == NEW_REACTOR.p
    {
      channels, channelMap, idxCounter, kernel := map[], map[], 0, map[];
    }

    /** `ok` is false where the source panics; nothing has changed then. */
    method Update(c: nat, events: Mask) returns (ok: bool)
      requires c in channels
      modifies this
      ensures ok <==> UpdateChannel(old(View()), c, events).Ok?
      ensures View() == if ok then UpdateChannel(old(View()), c, events).p else old(View())
    {
      var fd := channels[c].fd;
      if channels[c].index < 0 {
        if fd in kernel {
          return false;
        }
        kernel := kernel[fd := events];
        idxCounter := idxCounter + 1;
        channelMap := channelMap[fd := c];
        channels := channels[c := channels[c].(index := idxCounter)];
      } else {
        if fd !in kernel {
          return false;
        }
        kernel := kernel[fd := events];
      }
      return true;
    }

    method Remove(c: nat) returns (ok: bool)
      requires c in channels
      modifies this
      ensures ok <==> RemoveChannel(old(View()), c).Ok?
      ensures View() == if ok then RemoveChannel(old(View()), c).p else old(View())
    {
      var fd := channels[c].fd;
      if channels[c].index < 0 || fd !in kernel {
        return false;
      }
      kernel := kernel - {fd};
      channelMap := channelMap - {fd};
      return true;
    }
  }
}
