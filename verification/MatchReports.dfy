/** What the clients of the match server get to see: the mail every event causes, who is
    evicted by a timeout, and runs that go wrong. */
module MatchReports {
  import opened Chess
  import opened ChessGame
  import opened MatchServer

  // ---------- what the clients are told ----------

  /** The two players of a game, by side. */
  predicate Players(s: Server, g: nat, id: nat, side: Side, peer: nat) {
    && g in s.games && id != peer
    && if side == Red then s.games[g].red == id && s.games[g].black == peer
       else s.games[g].black == id && s.games[g].red == peer
  }

  lemma PlayersOf(s: Server, id: nat, g: nat, side: Side, peer: nat)
    requires Inv(s) && id in s.conns && s.conns[id].game == InGame(g) && Players(s, g, id, side, peer)
    ensures SideOf(s.games[g], id) == side && Other(s.games[g], id) == peer && peer in s.conns
    ensures s.conns[id].state.Gaming? && Fair(s.games[g]) && s.conns[peer].game == InGame(g)
  {
    hide Fair;
    GameOf(s, id);
  }

  /** A move out of turn, or one that DoMove rejects, gets the mover a refusal and changes
      nothing else. */
  lemma RefusedMove(s: Server, id: nat, g: nat, side: Side, peer: nat, fx: int, fy: int, tx: int, ty: int)
    requires Inv(s) && id in s.conns && s.conns[id].game == InGame(g) && Players(s, g, id, side, peer)
    requires s.games[g].turn != side || DoMove(s.games[g].table, side, fx, fy, tx, ty).Reject?
    ensures OnMove(s, id, fx, fy, tx, ty) == Done(s.(outbox := s.outbox + [Mail(id, MoveResp(false))]))
  {
    hide Fair, DoMove;
    PlayersOf(s, id, g, side, peer);
  }

  /** A move in turn that goes on with the game: the other player is told that its opponent
      moved and the mover that its move is good, in this order; the piece goes from one
      point to the other, the turn passes, and nothing else changes. */
  lemma AcceptedMove(s: Server, id: nat, g: nat, side: Side, peer: nat, fx: int, fy: int, tx: int, ty: int)
    requires Inv(s) && id in s.conns && s.conns[id].game == InGame(g) && Players(s, g, id, side, peer)
    requires s.games[g].turn == side
    requires var o := DoMove(s.games[g].table, side, fx, fy, tx, ty); o.Accept? && !o.gameover
    ensures OnMove(s, id, fx, fy, tx, ty).Done?
    ensures var t := OnMove(s, id, fx, fy, tx, ty).s;
      && t.outbox == s.outbox + [Mail(peer, RemoteMoved), Mail(id, MoveResp(true))]
      && t.conns == s.conns && t.lastId == s.lastId && t.nextGame == s.nextGame
      && t.games.Keys == s.games.Keys && (forall h :: h in s.games && h != g ==> t.games[h] == s.games[h])
      && Players(t, g, id, side, peer) && t.games[g].turn == (if side == Red then Black else Red)
      && t.games[g].moves == s.games[g].moves + [side]
      && Transfers(s.games[g].table, t.games[g].table, fx, fy, tx, ty)
  {
    hide Fair, DoMove, Transfers;
    PlayersOf(s, id, g, side, peer);
    AcceptTransfers(s.games[g].table, side, fx, fy, tx, ty);
  }

  /** A move in turn that ends the game: both players are idle again, and the other one gets
      the only mail. */
  lemma LastMove(s: Server, id: nat, g: nat, side: Side, peer: nat, fx: int, fy: int, tx: int, ty: int)
    requires Inv(s) && id in s.conns && s.conns[id].game == InGame(g) && Players(s, g, id, side, peer)
    requires s.games[g].turn == side
    requires var o := DoMove(s.games[g].table, side, fx, fy, tx, ty); o.Accept? && o.gameover
    ensures OnMove(s, id, fx, fy, tx, ty).Done?
    ensures var t := OnMove(s, id, fx, fy, tx, ty).s;
      && t.outbox == s.outbox + [Mail(peer, GameOver(side))]
      && t.conns.Keys == s.conns.Keys
      && (forall k :: k in s.conns && k != id && k != peer ==> t.conns[k] == s.conns[k])
      && t.conns[id] == Ctx(s.conns[id].lose, Idle, NoGame) && t.conns[peer] == Ctx(s.conns[peer].lose, Idle, NoGame)
  {
    hide Fair, DoMove;
    PlayersOf(s, id, g, side, peer);
  }

  /** A close during a game tells the other player, who is idle again; any other close tells
      nobody.  Exactly the closed connection goes. */
  lemma CloseTells(s: Server, id: nat)
    requires Inv(s) && id in s.conns
    ensures OnClose(s, id).Done?
    ensures var t := OnClose(s, id).s;
      && t.conns.Keys == s.conns.Keys - {id} && t.games == s.games && t.lastId == s.lastId && t.nextGame == s.nextGame
      && (s.conns[id].game.NoGame? ==> t.outbox == s.outbox && forall k :: k in t.conns ==> t.conns[k] == s.conns[k])
      && (s.conns[id].game.InGame? ==>
            exists side, peer :: Players(s, s.conns[id].game.g, id, side, peer) && peer in t.conns
              && t.outbox == s.outbox + [Mail(peer, RemoteLost)]
              && t.conns[peer] == Ctx(s.conns[peer].lose, Idle, NoGame)
              && forall k :: k in t.conns && k != peer ==> t.conns[k] == s.conns[k])
  {
    hide Fair;
    assert ConnOk(s, id);
    if s.conns[id].game.InGame? {
      GameOf(s, id);
      var g := s.conns[id].game.g;
      assert Players(s, g, id, SideOf(s.games[g], id), Other(s.games[g], id));
    }
  }

  /** A packet that cannot be parsed closes its connection, like a close by the client. */
  lemma BadPacketCloses(s: Server, id: nat)
    requires Inv(s) && id in s.conns
    ensures Next(s, BadPacket(id)) == Next(s, Close(id)) && Next(s, BadPacket(id)).Done?
    ensures Next(s, BadPacket(id)).s.conns.Keys == s.conns.Keys - {id}
  {
    hide Inv;
    CloseTells(s, id);
  }

  /** A connection gets a number nobody had, waits for nothing and has missed no beat. */
  lemma ConnectIsFresh(s: Server)
    requires Inv(s)
    ensures var t := OnConnect(s);
      && t.lastId == s.lastId + 1 && t.lastId !in s.conns
      && t.conns == s.conns[t.lastId := Ctx(0, Idle, NoGame)]
      && t.games == s.games && t.outbox == s.outbox && t.nextGame == s.nextGame
  {
    hide Fair;
    forall id | id in s.conns
      ensures id <= s.lastId
    {
      assert ConnOk(s, id);
    }
  }

  /** A match request with somebody waiting: the one that waited plays Black and is told
      first, the one that asked plays Red, and the turn is Red's. */
  lemma MatchTells(s: Server, id: nat, rival: nat, opening: Board)
    requires Inv(s) && id in s.conns && s.conns[id].state.Idle? && IsRival(s, id, rival)
    ensures OnStartMatch(s, id, rival, opening).Done?
    ensures var t := OnStartMatch(s, id, rival, opening).s;
            var g := s.nextGame;
      && t.outbox == s.outbox + [Mail(rival, MatchingNow), Mail(rival, MatchedOK(Black)), Mail(id, MatchingNow), Mail(id, MatchedOK(Red))]
      && Players(t, g, id, Red, rival) && t.games[g].turn == Red && t.games[g].table == opening && t.games[g].moves == []
      && t.conns.Keys == s.conns.Keys && t.nextGame == g + 1 && t.lastId == s.lastId
      && (forall k :: k in s.conns && k != id && k != rival ==> t.conns[k] == s.conns[k])
      && t.conns[id] == Ctx(s.conns[id].lose, Gaming, InGame(g)) && t.conns[rival] == Ctx(s.conns[rival].lose, Gaming, InGame(g))
  {
  }

  /** With nobody waiting the connection waits itself and is told so. */
  lemma WaitTells(s: Server, id: nat, rival: nat, opening: Board)
    requires id in s.conns && s.conns[id].state.Idle? && !IsRival(s, id, rival)
    ensures OnStartMatch(s, id, rival, opening) ==
            Done(s.(conns := s.conns[id := Ctx(s.conns[id].lose, Matching, s.conns[id].game)],
                    outbox := s.outbox + [Mail(id, MatchingNow)]))
  {
  }

  // ---------- heartbeats ----------

  /** The timeouts of `id` in a run since it last answered. */
  function Missed(events: seq<Event>, id: nat): nat
    decreases |events|
  {
    if events == [] then 0
    else
      var before := Missed(events[..|events| - 1], id);
      match events[|events| - 1]
      case Beat(k) => if k == id then 0 else before
      case Timeout(k) => if k == id then before + 1 else before
      case _ => before
  }

  lemma {:induction false} RunInit(s: Server, events: seq<Event>, t: Server) returns (m: Server)
    requires events != [] && Run(s, events, t)
    ensures var n := |events| - 1;
      Run(s, events[..n], m) && Enabled(m, events[n]) && Next(m, events[n]) == Done(t)
    decreases |events|
  {
    hide Enabled, Next;
    var n := |events| - 1;
    if n == 0 {
      m := s;
      assert Run(Next(s, events[0]).s, events[1..], t);
      assert events[..0] == [];
    } else {
      m := RunInit(Next(s, events[0]).s, events[1..], t);
      assert events[1..][..n - 1] == events[..n][1..];
      assert events[1..][n - 1] == events[n];
    }
  }

  /** What a step does to the count of lost beats of a connection that is there before. */
  lemma LoseStep(s: Server, e: Event, k: nat)
    requires Inv(s) && Enabled(s, e) && Next(s, e).Done? && k in s.conns && k in Next(s, e).s.conns
    ensures Next(s, e).s.conns[k].lose ==
            if e == Beat(k) then 0 else if e == Timeout(k) then s.conns[k].lose + 1 else s.conns[k].lose
  {
    hide Inv, DoMove, IsOpening;
    match e
    case Timeout(id) => TickLose(s, id);
    case Connect => ConnectIsFresh(s);
    case _ =>
  }

  /** A connection that is there after a step was there before it, or it is the new one. */
  lemma KeysStep(s: Server, e: Event, k: nat)
    requires Inv(s) && Enabled(s, e) && Next(s, e).Done? && k in Next(s, e).s.conns && k !in s.conns
    ensures e.Connect? && k == s.lastId + 1 && Next(s, e).s.conns[k].lose == 0
  {
    hide Inv, DoMove, IsOpening;
    match e
    case Timeout(id) => TickLose(s, id);
    case _ =>
  }

  lemma {:induction false} NeverSeen(s: Server, events: seq<Event>, t: Server, k: nat)
    requires Inv(s) && Run(s, events, t) && k > t.lastId
    ensures k > s.lastId && Beat(k) !in events && Timeout(k) !in events
    decreases |events|
  {
    hide Inv, Enabled, Next;
    if events != [] {
      StepKeepsInv(s, events[0]);
      var m := Next(s, events[0]).s;
      NeverSeen(m, events[1..], t, k);
      IdsKnown(s, events[0], k);
      assert forall e :: e in events ==> e == events[0] || e in events[1..];
    }
  }

  lemma IdsKnown(s: Server, e: Event, k: nat)
    requires Inv(s) && Enabled(s, e) && Next(s, e).Done? && k > Next(s, e).s.lastId
    ensures k > s.lastId && e != Beat(k) && e != Timeout(k)
  {
    hide DoMove, IsOpening, Fair;
    match e
    case Timeout(id) => assert ConnOk(s, id);
    case Beat(id) => assert ConnOk(s, id);
    case _ =>
  }

  lemma {:induction false} NothingMissed(events: seq<Event>, k: nat)
    requires Timeout(k) !in events
    ensures Missed(events, k) == 0
    decreases |events|
  {
    if events != [] {
      NothingMissed(events[..|events| - 1], k);
    }
  }

  /** In every run the count of a live connection is the number of timeouts since it last
      answered, and it is below five. */
  lemma {:induction false} LoseExactly(events: seq<Event>, t: Server, k: nat)
    requires Run(NEW_SERVER, events, t) && k in t.conns
    ensures t.conns[k].lose == Missed(events, k) < 5
    decreases |events|
  {
    hide Inv, Enabled, Next, Run;
    if events == [] {
      RunNothing(t);
    } else {
      var n := |events| - 1;
      var m := RunInit(NEW_SERVER, events, t);
      NewInv();
      RunKeepsInv(NEW_SERVER, events[..n], m);
      if k in m.conns {
        LoseExactly(events[..n], m, k);
        LoseStep(m, events[n], k);
        StaysBelow(m, events[n], k);
      } else {
        KeysStep(m, events[n], k);
        NeverSeen(NEW_SERVER, events[..n], m, k);
        NothingMissed(events[..n], k);
      }
    }
  }

  lemma RunNothing(t: Server)
    requires Run(NEW_SERVER, [], t)
    ensures t == NEW_SERVER
  {
  }

  lemma StaysBelow(s: Server, e: Event, k: nat)
    requires Inv(s) && Enabled(s, e) && Next(s, e).Done? && k in s.conns && k in Next(s, e).s.conns && s.conns[k].lose < 5
    ensures Next(s, e).s.conns[k].lose < 5
  {
    hide Inv, DoMove, IsOpening;
    if e == Timeout(k) {
      TickLose(s, k);
    } else {
      LoseStep(s, e, k);
    }
  }

  /** In every run a timeout evicts its connection if and only if it is the fifth since that
      last answered.  So a connection that answers between any two timeouts stays. */
  lemma EvictedIff(events: seq<Event>, s: Server, id: nat)
    requires Run(NEW_SERVER, events, s) && id in s.conns
    ensures Tick(s, id).Done?
    ensures id !in Tick(s, id).s.conns <==> Missed(events, id) == 4
    ensures forall k :: k in s.conns && k != id ==> k in Tick(s, id).s.conns
    ensures exists rest :: Tick(s, id).s.outbox == s.outbox + [Mail(id, Heartbeat)] + rest
  {
    hide Run, Tick;
    NewInv();
    RunKeepsInv(NEW_SERVER, events, s);
    LoseExactly(events, s, id);
    TickLose(s, id);
    TickMail(s, id);
  }

  lemma TickMail(s: Server, id: nat)
    requires Inv(s) && id in s.conns
    ensures Tick(s, id).Done? && exists rest :: Tick(s, id).s.outbox == s.outbox + [Mail(id, Heartbeat)] + rest
  {
    hide Inv;
    var u := Post(s.(conns := s.conns[id := s.conns[id].(lose := s.conns[id].lose + 1)]), id, Heartbeat);
    BookkeepingKeepsInv(s, u);
    CloseTells(u, id);
    if Tick(s, id).s.outbox == u.outbox {
      assert u.outbox + [] == u.outbox;
      assert Tick(s, id).s.outbox == s.outbox + [Mail(id, Heartbeat)] + [];
    } else {
      var side, peer :| Players(u, u.conns[id].game.g, id, side, peer) && OnClose(u, id).s.outbox == u.outbox + [Mail(peer, RemoteLost)];
      assert Tick(s, id).s.outbox == s.outbox + [Mail(id, Heartbeat)] + [Mail(peer, RemoteLost)];
    }
  }

  // ---------- runs that go wrong ----------

  lemma {:induction false} RunThen(s: Server, events: seq<Event>, t: Server, e: Event)
    requires Run(s, events, t) && Enabled(t, e) && Next(t, e).Done?
    ensures Run(s, events + [e], Next(t, e).s)
    decreases |events|
  {
    hide Enabled, Next;
    if events == [] {
      assert (events + [e])[1..] == [];
    } else {
      assert (events + [e])[1..] == events[1..] + [e];
      RunThen(Next(s, events[0]).s, events[1..], t, e);
    }
  }

  function Pairing(opening: Board): seq<Event> {
    [Connect, Connect, StartMatch(1, 0, opening), StartMatch(2, 1, opening)]
  }

  const IN_GAME_0 := Ctx(0, Gaming, InGame(0))

  /** Two connections that ask for a match play it, the second one as Red. */
  lemma TwoPlayers(opening: Board) returns (t: Server)
    requires IsOpening(opening)
    ensures Run(NEW_SERVER, Pairing(opening), t)
    ensures t.conns == map[1 := IN_GAME_0, 2 := IN_GAME_0] && t.games == map[0 := Game(2, 1, opening, Red, [])]
  {
    hide IsOpening;
    var a := OnConnect(NEW_SERVER);
    var b := OnConnect(a);
    assert b.conns == map[1 := Ctx(0, Idle, NoGame), 2 := Ctx(0, Idle, NoGame)];
    var c := OnStartMatch(b, 1, 0, opening).s;
    assert c.conns == map[1 := Ctx(0, Matching, NoGame), 2 := Ctx(0, Idle, NoGame)];
    assert IsRival(c, 2, 1);
    t := OnStartMatch(c, 2, 1, opening).s;
    var events := Pairing(opening);
    assert Run(t, events[4..], t);
    assert Run(c, events[3..], t);
    assert Run(b, events[2..], t);
    assert Run(a, events[1..], t);
  }

  /** Four things a client can send that bring the server down: a cannon move in the
      opening, a second match request while waiting, one while playing, and a move
      before any match. */
  lemma ClientsCanCrashServer(opening: Board) returns (playing: Server, waiting: Server)
    requires IsOpening(opening)
    ensures Run(NEW_SERVER, Pairing(opening), playing)
    ensures Enabled(playing, Move(2, 1, 2, 1, 8)) && Next(playing, Move(2, 1, 2, 1, 8)).Panic?
    ensures Enabled(playing, StartMatch(2, 0, opening)) && Next(playing, StartMatch(2, 0, opening)).Panic?
    ensures Run(NEW_SERVER, [Connect, StartMatch(1, 0, opening)], waiting)
    ensures Enabled(waiting, StartMatch(1, 0, opening)) && Next(waiting, StartMatch(1, 0, opening)).Panic?
    ensures Run(NEW_SERVER, [Connect], OnConnect(NEW_SERVER))
    ensures forall fx, fy, tx, ty :: Next(OnConnect(NEW_SERVER), Move(1, fx, fy, tx, ty)).Panic?
  {
    hide IsOpening, DoMove;
    playing := TwoPlayers(opening);
    OpeningCannonCrashes(opening);
    assert forall v :: !IsRival(playing, 2, v);
    var one := OnConnect(NEW_SERVER);
    assert one.conns == map[1 := Ctx(0, Idle, NoGame)];
    waiting := OnStartMatch(one, 1, 0, opening).s;
    var events := [Connect, StartMatch(1, 0, opening)];
    assert Run(waiting, events[2..], waiting);
    assert Run(one, events[1..], waiting);
    assert Run(one, [Connect][1..], one);
  }

  /** A whole match that Red loses by taking its own general, in which Black is told that
      Red has won. */
  lemma SelfDefeatIsReportedAsWin(opening: Board) returns (s: Server)
    requires IsOpening(opening)
    ensures Run(NEW_SERVER, Pairing(opening) + [Move(2, 4, 0, 4, 1)] + [Move(1, 0, 9, 0, 8)] + [Move(2, 3, 0, 4, 1)], s)
    ensures |s.outbox| > 0 && s.outbox[|s.outbox| - 1] == Mail(1, GameOver(Red))
    ensures 0 in s.games && !HasGeneral(s.games[0].table, Red) && HasGeneral(s.games[0].table, Black)
  {
    hide IsOpening, DoMove, HasGeneral, Run, Pairing;
    var t := TwoPlayers(opening);
    var m, r := AdvisorTakesOwnGeneral(opening);
    RunThen(NEW_SERVER, Pairing(opening), t, Move(2, 4, 0, 4, 1));
    var t1 := Next(t, Move(2, 4, 0, 4, 1)).s;
    assert t1.conns == t.conns && t1.games[0] == Game(2, 1, m, Black, [Red]);
    RunThen(NEW_SERVER, Pairing(opening) + [Move(2, 4, 0, 4, 1)], t1, Move(1, 0, 9, 0, 8));
    var t2 := Next(t1, Move(1, 0, 9, 0, 8)).s;
    assert t2.conns == t.conns && t2.games[0] == Game(2, 1, r, Red, [Red] + [Black]);
    RunThen(NEW_SERVER, Pairing(opening) + [Move(2, 4, 0, 4, 1)] + [Move(1, 0, 9, 0, 8)], t2, Move(2, 3, 0, 4, 1));
    s := Next(t2, Move(2, 3, 0, 4, 1)).s;
  }

  /** A whole match that Red wins with its second move, a cannon's jump over two pieces. */
  lemma SecondMoveWins(opening: Board) returns (s: Server)
    requires IsOpening(opening)
    ensures Run(NEW_SERVER, Pairing(opening) + [Move(2, 1, 2, 4, 2)] + [Move(1, 0, 9, 0, 8)] + [Move(2, 4, 2, 4, 9)], s)
    ensures |s.outbox| > 0 && s.outbox[|s.outbox| - 1] == Mail(1, GameOver(Red))
    ensures 0 in s.games && !HasGeneral(s.games[0].table, Black)
  {
    hide IsOpening, DoMove, HasGeneral, Run, Pairing, OneScreen;
    var t := TwoPlayers(opening);
    var m, r := CannonJumpsTwo(opening);
    RunThen(NEW_SERVER, Pairing(opening), t, Move(2, 1, 2, 4, 2));
    var t1 := Next(t, Move(2, 1, 2, 4, 2)).s;
    assert t1.conns == t.conns && t1.games[0] == Game(2, 1, m, Black, [Red]);
    RunThen(NEW_SERVER, Pairing(opening) + [Move(2, 1, 2, 4, 2)], t1, Move(1, 0, 9, 0, 8));
    var t2 := Next(t1, Move(1, 0, 9, 0, 8)).s;
    assert t2.conns == t.conns && t2.games[0] == Game(2, 1, r, Red, [Red] + [Black]);
    RunThen(NEW_SERVER, Pairing(opening) + [Move(2, 1, 2, 4, 2)] + [Move(1, 0, 9, 0, 8)], t2, Move(2, 4, 2, 4, 9));
    s := Next(t2, Move(2, 4, 2, 4, 9)).s;
  }
}
