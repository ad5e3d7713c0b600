/** The match server of the chess example: connections that ask for a match, are
    paired into games, move in turn, lose heartbeats and go away.

    All callbacks run on one event loop, so each is one step.  A `GameContext` shared
    by two connections is a number into `games`. */
module MatchServer {
  import opened Chess
  import opened ChessGame

  const MAX_LOSE_HEARTBEAT: nat := 5

  datatype ConnState = Idle | Matching | Gaming

  datatype GameRef = NoGame | InGame(g: nat)

  datatype Ctx = Ctx(lose: nat, state: ConnState, game: GameRef)

  /** `moves` records the side of every accepted move that did not end the game. */
  datatype Game = Game(red: nat, black: nat, table: Board, turn: Side, moves: seq<Side>)

  datatype Packet =
    | Heartbeat
    | MatchingNow
    | MatchedOK(side: Side)
    | MoveResp(ok: bool)
    | RemoteMoved
    | RemoteLost
    | GameOver(winner: Side)

  datatype Mail = Mail(to: nat, packet: Packet)

  datatype Server = Server(conns: map<nat, Ctx>, games: map<nat, Game>, lastId: nat, nextGame: nat, outbox: seq<Mail>)

  const NEW_SERVER := Server(map[], map[], 0, 0, [])

  datatype Result = Done(s: Server) | Panic

  function Post(s: Server, to: nat, packet: Packet): Server {
    s.(outbox := s.outbox + [Mail(to, packet)])
  }

  function Other(game: Game, id: nat): nat {
    if game.black == id then game.red else game.black
  }

  // ---------- the callbacks ----------

  function OnConnect(s: Server): Server {
    s.(lastId := s.lastId + 1, conns := s.conns[s.lastId + 1 := Ctx(0, Idle, NoGame)])
  }

  /** OnClose: a peer left behind in a game goes back to idle and is told. */
  function OnClose(s: Server, id: nat): Result
    requires id in s.conns
  {
    var ctx := s.conns[id];
    if !ctx.state.Gaming? then Done(s.(conns := s.conns - {id}))
    else if ctx.game.NoGame? || ctx.game.g !in s.games then Panic
    else
      var peer := Other(s.games[ctx.game.g], id);
      if peer !in s.conns then Panic
      else
        var freed := s.conns[peer := s.conns[peer].(state := Idle, game := NoGame)];
        Done(Post(s.(conns := freed - {id}), peer, RemoteLost))
  }

  predicate IsRival(s: Server, id: nat, v: nat) {
    v in s.conns && v != id && s.conns[v].state.Matching?
  }

  /** StartMatch; `rival` is the matching connection the range over the map meets
      first.  Outside state Idle the handler force-closes the connection, carries on,
      and dereferences the context it has just deleted. */
  function OnStartMatch(s: Server, id: nat, rival: nat, opening: Board): Result
    requires id in s.conns
  {
    var ctx := s.conns[id];
    if !ctx.state.Idle? then Panic
    else if IsRival(s, id, rival) then
      var g := s.nextGame;
      var conns := s.conns[rival := s.conns[rival].(state := Gaming, game := InGame(g))]
                          [id := ctx.(state := Gaming, game := InGame(g))];
      var t := s.(conns := conns, games := s.games[g := Game(id, rival, opening, Red, [])], nextGame := g + 1);
      Done(Post(Post(Post(Post(t, rival, MatchingNow), rival, MatchedOK(Black)), id, MatchingNow), id, MatchedOK(Red)))
    else
      Done(Post(s.(conns := s.conns[id := ctx.(state := Matching)]), id, MatchingNow))
  }

  function OnHeartbeat(s: Server, id: nat): Server
    requires id in s.conns
  {
    s.(conns := s.conns[id := s.conns[id].(lose := 0)])
  }

  function SideOf(game: Game, id: nat): Side {
    if game.black == id then Black else Red
  }

  /** Move: without a game context the handler dereferences nil. */
  function OnMove(s: Server, id: nat, fx: int, fy: int, tx: int, ty: int): Result
    requires id in s.conns
  {
    var ctx := s.conns[id];
    if ctx.game.NoGame? || ctx.game.g !in s.games then Panic
    else
      var g := ctx.game.g;
      var game := s.games[g];
      var side := SideOf(game, id);
      var peer := Other(game, id);
      if !ctx.state.Gaming? then OnClose(s, id)
      else if game.turn != side then Done(Post(s, id, MoveResp(false)))
      else
        match DoMove(game.table, side, fx, fy, tx, ty)
        case Crash => Panic
        case Reject => Done(Post(s, id, MoveResp(false)))
        case Accept(over, table) =>
          if peer !in s.conns then Panic
          else if !over then
            var next := game.(table := table, turn := Opponent(side), moves := game.moves + [side]);
            Done(Post(Post(s.(games := s.games[g := next]), peer, RemoteMoved), id, MoveResp(true)))
          else
            var conns := s.conns[id := ctx.(state := Idle, game := NoGame)]
                                [peer := s.conns[peer].(state := Idle, game := NoGame)];
            Done(Post(s.(conns := conns, games := s.games[g := game.(table := table)]), peer, GameOver(side)))
  }

  /** What OnTimeout does for one connection. */
  function Tick(s: Server, id: nat): Result
    requires id in s.conns
  {
    var n := s.conns[id].lose + 1;
    var t := Post(s.(conns := s.conns[id := s.conns[id].(lose := n)]), id, Heartbeat);
    if n >= MAX_LOSE_HEARTBEAT then OnClose(t, id) else Done(t)
  }

  // ---------- the invariant ----------

  predicate Alternates(moves: seq<Side>) {
    forall i :: 0 <= i < |moves| ==> moves[i] == if i % 2 == 0 then Red else Black
  }

  /** Red moved first, the sides took turns, and the position is good. */
  ghost predicate Fair(game: Game) {
    && Alternates(game.moves)
    && game.turn == (if |game.moves| % 2 == 0 then Red else Black)
    && Good(game.table)
  }

  /** The two players of the game are different live connections, both gaming, and
      both point back to it. */
  predicate Paired(s: Server, g: nat) {
    && g in s.games
    && var game := s.games[g];
       && game.red != game.black
       && game.red in s.conns && s.conns[game.red].game == InGame(g) && s.conns[game.red].state.Gaming?
       && game.black in s.conns && s.conns[game.black].game == InGame(g) && s.conns[game.black].state.Gaming?
  }

  predicate PlaysIn(s: Server, id: nat, g: nat)
    requires g in s.games
  {
    id == s.games[g].red || id == s.games[g].black
  }

  ghost predicate ConnOk(s: Server, id: nat)
    requires id in s.conns
  {
    var ctx := s.conns[id];
    && 1 <= id <= s.lastId
    && (ctx.state.Gaming? <==> ctx.game.InGame?)
    && (ctx.game.InGame? ==>
          && ctx.game.g < s.nextGame
          && Paired(s, ctx.game.g) && PlaysIn(s, id, ctx.game.g) && Fair(s.games[ctx.game.g]))
  }

  ghost predicate AllOk(s: Server) {
    forall id :: id in s.conns ==> ConnOk(s, id)
  }

  ghost predicate OneWaits(s: Server) {
    forall a, b :: a in s.conns && b in s.conns && s.conns[a].state.Matching? && s.conns[b].state.Matching? ==> a == b
  }

  ghost predicate Inv(s: Server) {
    AllOk(s) && OneWaits(s)
  }

  // ---------- every callback keeps it ----------

  /** Connection `k` is there before and after, in the same state and game. */
  predicate Same(s: Server, t: Server, k: nat) {
    && k in s.conns && k in t.conns
    && s.conns[k].state == t.conns[k].state && s.conns[k].game == t.conns[k].game
  }

  /** A connection stays in order when it, its game and both players of it stay. */
  lemma FrameOk(s: Server, t: Server, d: nat)
    requires d in s.conns && ConnOk(s, d) && Same(s, t, d) && s.lastId <= t.lastId && s.nextGame <= t.nextGame
    requires s.conns[d].game.InGame? ==>
      var g := s.conns[d].game.g;
      && g in s.games && g in t.games && t.games[g] == s.games[g]
      && Same(s, t, s.games[g].red) && Same(s, t, s.games[g].black)
    ensures ConnOk(t, d)
  {
    hide Fair;
  }

  /** The players of two different games are different connections. */
  lemma PlayersDiffer(s: Server, d: nat, k: nat)
    requires AllOk(s) && d in s.conns && s.conns[d].game.InGame?
    requires k in s.conns && s.conns[k].game != s.conns[d].game
    ensures var g := s.conns[d].game.g; g in s.games && k != s.games[g].red && k != s.games[g].black
  {
    hide Fair;
    assert ConnOk(s, d);
  }

  lemma ConnectKeepsInv(s: Server)
    requires Inv(s)
    ensures Inv(OnConnect(s))
  {
    hide Fair;
    var t := OnConnect(s);
    forall d | d in t.conns
      ensures ConnOk(t, d)
    {
      if d in s.conns {
        assert ConnOk(s, d);
        if s.conns[d].game.InGame? {
          var g := s.conns[d].game.g;
          assert ConnOk(s, s.games[g].red) && ConnOk(s, s.games[g].black);
        }
        FrameOk(s, t, d);
      }
    }
  }

  /** Changing a heartbeat count and posting mail disturb nothing. */
  lemma BookkeepingKeepsInv(s: Server, t: Server)
    requires Inv(s) && t.games == s.games && t.lastId == s.lastId && t.nextGame == s.nextGame
    requires t.conns.Keys == s.conns.Keys && forall k :: k in s.conns ==> Same(s, t, k)
    ensures Inv(t)
  {
    hide Fair, Same;
    forall d | d in t.conns
      ensures ConnOk(t, d)
    {
      assert ConnOk(s, d);
      FrameOk(s, t, d);
    }
    assert OneWaits(t) by {
      OneWaitsSame(s, t);
    }
  }

  lemma OneWaitsSame(s: Server, t: Server)
    requires OneWaits(s) && forall k :: k in t.conns && t.conns[k].state.Matching? ==> Same(s, t, k)
    ensures OneWaits(t)
  {
  }

  /** Both players of `id`'s game. */
  lemma GameOf(s: Server, id: nat)
    requires AllOk(s) && id in s.conns && s.conns[id].game.InGame?
    ensures var g := s.conns[id].game.g;
      && g in s.games && Paired(s, g) && s.conns[id].state.Gaming? && Fair(s.games[g])
      && var peer := Other(s.games[g], id);
         && peer in s.conns && peer != id && s.conns[peer].game == InGame(g) && s.conns[peer].state.Gaming?
         && ((s.games[g].red == id && s.games[g].black == peer) || (s.games[g].black == id && s.games[g].red == peer))
  {
    hide Fair;
    assert ConnOk(s, id);
  }

  /** Setting the two players of game `g` idle, keeping or dropping them, leaves all
      other connections in order. */
  lemma DissolveKeeps(s: Server, t: Server, g: nat, a: nat, b: nat, d: nat)
    requires AllOk(s) && Paired(s, g) && t.lastId == s.lastId && t.nextGame == s.nextGame
    requires (s.games[g].red == a && s.games[g].black == b) || (s.games[g].red == b && s.games[g].black == a)
    requires forall k :: k in s.games && k != g ==> k in t.games && t.games[k] == s.games[k]
    requires forall k :: k in s.conns && k != a && k != b ==> Same(s, t, k)
    requires d in s.conns && d in t.conns && d != a && d != b
    ensures ConnOk(t, d)
  {
    hide Fair, Same;
    assert ConnOk(s, d);
    if s.conns[d].game.InGame? {
      var h := s.conns[d].game.g;
      assert h != g;
      PlayersDiffer(s, d, a);
      PlayersDiffer(s, d, b);
    }
    FrameOk(s, t, d);
  }

  lemma CloseKeepsInv(s: Server, id: nat)
    requires Inv(s) && id in s.conns
    ensures OnClose(s, id).Done? && Inv(OnClose(s, id).s)
    ensures OnClose(s, id).s.conns.Keys == s.conns.Keys - {id}
  {
    hide Fair;
    assert ConnOk(s, id);
    if s.conns[id].state.Gaming? {
      GameOf(s, id);
      var g := s.conns[id].game.g;
      var peer := Other(s.games[g], id);
      var t := OnClose(s, id).s;
      forall d | d in t.conns
        ensures ConnOk(t, d)
      {
        if d != peer {
          DissolveKeeps(s, t, g, id, peer, d);
        } else {
          assert ConnOk(s, peer);
        }
      }
      OneWaitsSame(s, t);
    } else {
      LeaveIdle(s, id);
    }
  }

  lemma LeaveIdle(s: Server, id: nat)
    requires Inv(s) && id in s.conns && !s.conns[id].state.Gaming?
    ensures Inv(s.(conns := s.conns - {id}))
  {
    hide Fair;
    assert ConnOk(s, id);
    var t := s.(conns := s.conns - {id});
    forall d | d in t.conns
      ensures ConnOk(t, d)
    {
      assert ConnOk(s, d);
      if s.conns[d].game.InGame? {
        PlayersDiffer(s, d, id);
      }
      FrameOk(s, t, d);
    }
  }

  /** A new game between two connections that were in none. */
  lemma PairKeepsInv(s: Server, id: nat, rival: nat, opening: Board)
    requires Inv(s) && id in s.conns && s.conns[id].state.Idle? && IsRival(s, id, rival) && IsOpening(opening)
    ensures Inv(OnStartMatch(s, id, rival, opening).s)
  {
    hide Good;
    OpeningIsGood(opening);
    var t := OnStartMatch(s, id, rival, opening).s;
    assert ConnOk(s, id) && ConnOk(s, rival);
    assert Fair(t.games[s.nextGame]);
    assert Paired(t, s.nextGame);
    forall d | d in t.conns && d != id && d != rival
      ensures ConnOk(t, d)
    {
      OtherKeeps(s, t, id, rival, d);
    }
    OneWaitsSame(s, t);
  }

  lemma OtherKeeps(s: Server, t: Server, id: nat, rival: nat, d: nat)
    requires AllOk(s) && id in s.conns && rival in s.conns && d in s.conns && d in t.conns && d != id && d != rival
    requires s.conns[id].game.NoGame? && s.conns[rival].game.NoGame?
    requires t.lastId == s.lastId && t.nextGame >= s.nextGame
    requires forall k :: k in s.games && k < s.nextGame ==> k in t.games && t.games[k] == s.games[k]
    requires forall k :: k in s.conns && k != id && k != rival ==> Same(s, t, k)
    ensures ConnOk(t, d)
  {
    hide Fair, Same;
    assert ConnOk(s, d);
    if s.conns[d].game.InGame? {
      PlayersDiffer(s, d, id);
      PlayersDiffer(s, d, rival);
    }
    FrameOk(s, t, d);
  }

  /** Nobody else is waiting: the connection waits itself. */
  lemma WaitKeepsInv(s: Server, id: nat, rival: nat, opening: Board)
    requires Inv(s) && id in s.conns && s.conns[id].state.Idle? && forall v :: !IsRival(s, id, v)
    ensures Inv(OnStartMatch(s, id, rival, opening).s)
  {
    hide Fair;
    var t := OnStartMatch(s, id, rival, opening).s;
    assert ConnOk(s, id);
    forall d | d in t.conns
      ensures ConnOk(t, d)
    {
      assert ConnOk(s, d);
      if d != id {
        OtherKeeps(s, t, id, id, d);
      }
    }
    forall a, b | a in t.conns && b in t.conns && t.conns[a].state.Matching? && t.conns[b].state.Matching?
      ensures a == b
    {
      assert !IsRival(s, id, a) && !IsRival(s, id, b);
    }
  }

  lemma FairMove(game: Game, side: Side, fx: int, fy: int, tx: int, ty: int)
    requires Fair(game) && game.turn == side
    requires DoMove(game.table, side, fx, fy, tx, ty).Accept? && !DoMove(game.table, side, fx, fy, tx, ty).gameover
    ensures Fair(game.(table := DoMove(game.table, side, fx, fy, tx, ty).table,
                       turn := Opponent(side), moves := game.moves + [side]))
  {
    hide Good, DoMove;
    MoveKeepsGood(game.table, side, fx, fy, tx, ty);
  }

  /** The state after an accepted move that goes on: only the game changed. */
  lemma GameGoesOn(s: Server, t: Server, g: nat)
    requires Inv(s) && Paired(s, g) && t.conns == s.conns && t.lastId == s.lastId && t.nextGame == s.nextGame
    requires g in t.games && t.games.Keys == s.games.Keys && forall k :: k in s.games && k != g ==> t.games[k] == s.games[k]
    requires t.games[g].red == s.games[g].red && t.games[g].black == s.games[g].black && Fair(t.games[g])
    ensures Inv(t)
  {
    hide Fair;
    forall d | d in t.conns
      ensures ConnOk(t, d)
    {
      assert ConnOk(s, d);
    }
  }

  /** The game ended: both players are idle again. */
  lemma GameEnds(s: Server, t: Server, g: nat, a: nat, b: nat)
    requires Inv(s) && Paired(s, g) && t.lastId == s.lastId && t.nextGame == s.nextGame
    requires (s.games[g].red == a && s.games[g].black == b) || (s.games[g].red == b && s.games[g].black == a)
    requires forall k :: k in s.games && k != g ==> k in t.games && t.games[k] == s.games[k]
    requires t.conns.Keys == s.conns.Keys && forall k :: k in s.conns && k != a && k != b ==> Same(s, t, k)
    requires t.conns[a].state.Idle? && t.conns[a].game.NoGame? && t.conns[b].state.Idle? && t.conns[b].game.NoGame?
    ensures Inv(t)
  {
    hide Fair;
    forall d | d in t.conns
      ensures ConnOk(t, d)
    {
      assert ConnOk(s, d);
      if d != a && d != b {
        DissolveKeeps(s, t, g, a, b, d);
      }
    }
    OneWaitsSame(s, t);
  }

  lemma MoveKeepsInv(s: Server, id: nat, fx: int, fy: int, tx: int, ty: int)
    requires Inv(s) && id in s.conns && OnMove(s, id, fx, fy, tx, ty).Done?
    ensures Inv(OnMove(s, id, fx, fy, tx, ty).s)
  {
    hide Fair, DoMove, Inv, Paired;
    InvParts(s);
    GameOf(s, id);
    var g := s.conns[id].game.g;
    var game := s.games[g];
    var side := SideOf(game, id);
    var peer := Other(game, id);
    var t := OnMove(s, id, fx, fy, tx, ty).s;
    var o := DoMove(game.table, side, fx, fy, tx, ty);
    if game.turn != side || o.Reject? {
      BookkeepingKeepsInv(s, t);
    } else if !o.gameover {
      FairMove(game, side, fx, fy, tx, ty);
      GameGoesOn(s, t, g);
    } else {
      GameEnds(s, t, g, id, peer);
    }
  }

  lemma InvParts(s: Server)
    requires Inv(s)
    ensures AllOk(s) && OneWaits(s)
  {
  }

  lemma TickKeepsInv(s: Server, id: nat)
    requires Inv(s) && id in s.conns
    ensures Tick(s, id).Done? && Inv(Tick(s, id).s)
  {
    hide Inv, OnClose;
    var t := Post(s.(conns := s.conns[id := s.conns[id].(lose := s.conns[id].lose + 1)]), id, Heartbeat);
    BookkeepingKeepsInv(s, t);
    CloseKeepsInv(t, id);
  }

  // ---------- when the server crashes ----------

  datatype Event =
    | Connect
    | Close(id: nat)
    | Beat(id: nat)
    | StartMatch(id: nat, rival: nat, opening: Board)
    | Move(id: nat, fx: int, fy: int, tx: int, ty: int)
    | BadPacket(id: nat)
    | Timeout(id: nat)

  /** Packets and timeouts come for live connections; the range over the map finds a
      waiting connection whenever there is one. */
  ghost predicate Enabled(s: Server, e: Event) {
    match e
    case Connect => true
    case StartMatch(id, rival, opening) =>
      && id in s.conns && IsOpening(opening)
      && ((exists v :: IsRival(s, id, v)) ==> IsRival(s, id, rival))
    case Close(id) => id in s.conns
    case Beat(id) => id in s.conns
    case Move(id, _, _, _, _) => id in s.conns
    case BadPacket(id) => id in s.conns
    case Timeout(id) => id in s.conns
  }

  function Next(s: Server, e: Event): Result
    requires Enabled(s, e)
  {
    match e
    case Connect => Done(OnConnect(s))
    case Close(id) => OnClose(s, id)
    case Beat(id) => Done(OnHeartbeat(s, id))
    case StartMatch(id, rival, opening) => OnStartMatch(s, id, rival, opening)
    case Move(id, fx, fy, tx, ty) => OnMove(s, id, fx, fy, tx, ty)
    case BadPacket(id) => OnClose(s, id)
    case Timeout(id) => Tick(s, id)
  }

  /** The event a client must not send: a match request while not idle, a move while
      in no game, or a move of the kind that makes DoMove dereference nil. */
  predicate Offends(s: Server, e: Event) {
    match e
    case StartMatch(id, _, _) => id in s.conns && !s.conns[id].state.Idle?
    case Move(id, fx, fy, tx, ty) =>
      && id in s.conns
      && (|| s.conns[id].game.NoGame?
          || (&& s.conns[id].game.g in s.games
              && var game := s.games[s.conns[id].game.g];
                 game.turn == SideOf(game, id) && DoMove(game.table, SideOf(game, id), fx, fy, tx, ty).Crash?))
    case _ => false
  }

  /** The server goes down exactly on these events. */
  lemma PanicIff(s: Server, e: Event)
    requires Inv(s) && Enabled(s, e)
    ensures Next(s, e).Panic? <==> Offends(s, e)
  {
    hide Fair, DoMove, OnClose;
    match e
    case Close(id) => CloseKeepsInv(s, id);
    case BadPacket(id) => CloseKeepsInv(s, id);
    case Timeout(id) => TickKeepsInv(s, id);
    case Move(id, _, _, _, _) =>
      if s.conns[id].game.InGame? {
        GameOf(s, id);
      }
    case _ =>
  }

  lemma StepKeepsInv(s: Server, e: Event)
    requires Inv(s) && Enabled(s, e) && Next(s, e).Done?
    ensures Inv(Next(s, e).s)
  {
    hide Inv, OnClose, OnMove, OnStartMatch, Tick, OnConnect;
    match e
    case Connect => ConnectKeepsInv(s);
    case Close(id) => CloseKeepsInv(s, id);
    case BadPacket(id) => CloseKeepsInv(s, id);
    case Timeout(id) => TickKeepsInv(s, id);
    case Beat(id) => BookkeepingKeepsInv(s, OnHeartbeat(s, id));
    case Move(id, fx, fy, tx, ty) => MoveKeepsInv(s, id, fx, fy, tx, ty);
    case StartMatch(id, rival, opening) => StartKeepsInv(s, id, rival, opening);
  }

  lemma StartKeepsInv(s: Server, id: nat, rival: nat, opening: Board)
    requires Inv(s) && Enabled(s, StartMatch(id, rival, opening)) && OnStartMatch(s, id, rival, opening).Done?
    ensures Inv(OnStartMatch(s, id, rival, opening).s)
  {
    hide Inv, IsOpening;
    if IsRival(s, id, rival) {
      PairKeepsInv(s, id, rival, opening);
    } else {
      WaitKeepsInv(s, id, rival, opening);
    }
  }

  ghost predicate Run(s: Server, events: seq<Event>, t: Server)
    decreases |events|
  {
    if events == [] then t == s
    else Enabled(s, events[0]) && Next(s, events[0]).Done? && Run(Next(s, events[0]).s, events[1..], t)
  }

  /** In every run of the server up to a crash: gaming means having a game; both
      players of a game are live, gaming and in the same game; no connection is in
      two games; at most one connection waits; and the accepted moves of each game
      alternate starting with Red, from good position to good position. */
  lemma {:induction false} RunKeepsInv(s: Server, events: seq<Event>, t: Server)
    requires Inv(s) && Run(s, events, t)
    ensures Inv(t)
    decreases |events|
  {
    hide Inv, Next, Enabled;
    if events != [] {
      StepKeepsInv(s, events[0]);
      RunKeepsInv(Next(s, events[0]).s, events[1..], t);
    }
  }

  lemma NewInv()
    ensures Inv(NEW_SERVER)
  {
  }

  /** The rules of the service, spelled out for any state a run can reach. */
  lemma MatchRules(events: seq<Event>, t: Server)
    requires Run(NEW_SERVER, events, t)
    ensures forall id :: id in t.conns ==> (t.conns[id].state.Gaming? <==> t.conns[id].game.InGame?)
    ensures forall id :: id in t.conns && t.conns[id].game.InGame? ==>
              Paired(t, t.conns[id].game.g) && PlaysIn(t, id, t.conns[id].game.g) && Fair(t.games[t.conns[id].game.g])
    ensures forall g, h :: Paired(t, g) && Paired(t, h) && PlaysIn(t, t.games[h].red, g) ==> g == h
    ensures forall g, h :: Paired(t, g) && Paired(t, h) && PlaysIn(t, t.games[h].black, g) ==> g == h
    ensures OneWaits(t)
  {
    hide Run, Fair;
    NewInv();
    RunKeepsInv(NEW_SERVER, events, t);
    forall id | id in t.conns
      ensures ConnOk(t, id)
    {
    }
  }

  /** A move ends the game exactly if it is the mover's turn and DoMove says so.  The end
      is told to one connection only, the peer of the mover, and the mover is reported
      as the winner; that winner still has its general if and only if the move did not
      take the mover's own one. */
  lemma MoverIsReported(s: Server, id: nat, fx: int, fy: int, tx: int, ty: int)
    requires Inv(s) && id in s.conns && s.conns[id].game.InGame? && OnMove(s, id, fx, fy, tx, ty).Done?
    ensures var t := OnMove(s, id, fx, fy, tx, ty).s;
            var g := s.conns[id].game.g;
      && g in s.games && g in t.games && id in t.conns
      && var game := s.games[g];
         var side := SideOf(game, id);
         var o := DoMove(game.table, side, fx, fy, tx, ty);
         && (t.conns[id].game.NoGame? <==> game.turn == side && o.Accept? && o.gameover)
         && (t.conns[id].game.NoGame? ==>
               && t.outbox == s.outbox + [Mail(Other(game, id), GameOver(side))]
               && t.games[g].table == o.table && On(tx, ty)
               && (HasGeneral(o.table, side) <==> !BelongsTo(Slot(game.table, tx, ty), side)))
  {
    hide DoMove, Good, HasGeneral;
    GameOf(s, id);
    var game := s.games[s.conns[id].game.g];
    var side := SideOf(game, id);
    var o := DoMove(game.table, side, fx, fy, tx, ty);
    if o.Accept? && o.gameover {
      WinnerKeepsGeneralIff(game.table, side, fx, fy, tx, ty);
    }
  }

  /** Whoever is told of a match is told the side it then plays. */
  lemma PlayersAreToldTheirSide(s: Server, id: nat, rival: nat, opening: Board, i: nat)
    requires Inv(s) && id in s.conns && OnStartMatch(s, id, rival, opening).Done?
    requires |s.outbox| <= i < |OnStartMatch(s, id, rival, opening).s.outbox|
    requires OnStartMatch(s, id, rival, opening).s.outbox[i].packet.MatchedOK?
    ensures var t := OnStartMatch(s, id, rival, opening).s;
            var mail := t.outbox[i];
      && mail.to in t.conns && t.conns[mail.to].game.InGame? && t.conns[mail.to].game.g in t.games
      && SideOf(t.games[t.conns[mail.to].game.g], mail.to) == mail.packet.side
  {
    hide Inv;
  }

  // ---------- the handler object ----------

  class GameHandler {
    var connMap: map<nat, Ctx>
    var games: map<nat, Game>
    var lastId: nat
    var nextGame: nat
    var outbox: seq<Mail>

    ghost function View(): Server
      reads this
    {
      Server(connMap, games, lastId, nextGame, outbox)
    }

    constructor ()
      ensures View() == NEW_SERVER
    {
      connMap, games, lastId, nextGame, outbox := map[], map[], 0, 0, [];
    }

    method Send(to: nat, packet: Packet)
      modifies this`outbox
      ensures outbox == old(outbox) + [Mail(to, packet)]
    {
      outbox := outbox + [Mail(to, packet)];
    }

    /** `ok` is false where the source dereferences nil. */
    method Closed(id: nat) returns (ok: bool)
      requires id in connMap
      modifies this
      ensures ok <==> OnClose(old(View()), id).Done?
      ensures ok ==> View() == OnClose(old(View()), id).s
    {
      if connMap[id].state == Gaming {
        if connMap[id].game.NoGame? || connMap[id].game.g !in games {
          return false;
        }
        var game := games[connMap[id].game.g];
        var remote := if game.black == id then game.red else game.black;
        if remote !in connMap {
          return false;
        }
        connMap := connMap[remote := connMap[remote].(game := NoGame, state := Idle)];
        Send(remote, RemoteLost);
      }
      connMap := connMap - {id};
      return true;
    }

    /** The range over the connection map: any waiting connection but this one. */
    method FindRival(id: nat) returns (rival: nat, found: bool)
      ensures found <==> exists v :: IsRival(View(), id, v)
      ensures found ==> IsRival(View(), id, rival)
    {
      var left := connMap.Keys;
      rival, found := 0, false;
      while left != {} && !found
        invariant left <= connMap.Keys
        invariant !found ==> forall v :: IsRival(View(), id, v) ==> v in left
        invariant found ==> IsRival(View(), id, rival)
        decreases left, !found
      {
        var v :| v in left;
        left := left - {v};
        if v != id && connMap[v].state == Matching {
          rival, found := v, true;
        }
      }
    }

    /** The StartMatch case of OnMessage; `ok` is false where the source dereferences the
        context it deleted when it closed a connection that was not idle. */
    method MatchRequested(id: nat, opening: Board) returns (rival: nat, ok: bool)
      requires id in connMap && IsOpening(opening)
      modifies this
      ensures Enabled(old(View()), StartMatch(id, rival, opening))
      ensures ok <==> OnStartMatch(old(View()), id, rival, opening).Done?
      ensures ok ==> View() == OnStartMatch(old(View()), id, rival, opening).s
    {
      var found: bool;
      rival, found := FindRival(id);
      assert View() == old(View());
      assert Enabled(old(View()), StartMatch(id, rival, opening));
      if connMap[id].state != Idle {
        var _ := Closed(id);
        return rival, false;
      }
      if found {
        games := games[nextGame := Game(id, rival, opening, Red, [])];
        connMap := connMap[rival := connMap[rival].(state := Gaming, game := InGame(nextGame))];
        Send(rival, MatchingNow);
        Send(rival, MatchedOK(Black));
        connMap := connMap[id := connMap[id].(state := Gaming, game := InGame(nextGame))];
        nextGame := nextGame + 1;
        Send(id, MatchingNow);
        Send(id, MatchedOK(Red));
      } else {
        connMap := connMap[id := connMap[id].(state := Matching)];
        Send(id, MatchingNow);
      }
      return rival, true;
    }

    /** The Heartbeat case of OnMessage. */
    method Beaten(id: nat)
      requires id in connMap
      modifies this`connMap
      ensures View() == OnHeartbeat(old(View()), id)
    {
      connMap := connMap[id := connMap[id].(lose := 0)];
    }

    /** The Move case of OnMessage; `ok` is false where the source dereferences nil. */
    method MoveRequested(id: nat, fx: int, fy: int, tx: int, ty: int) returns (ok: bool)
      requires id in connMap
      modifies this
      ensures ok <==> OnMove(old(View()), id, fx, fy, tx, ty).Done?
      ensures ok ==> View() == OnMove(old(View()), id, fx, fy, tx, ty).s
    {
      hide DoMove;
      if connMap[id].game.NoGame? || connMap[id].game.g !in games {
        return false;
      }
      var g := connMap[id].game.g;
      var game := games[g];
      var side, remote := Red, game.black;
      if game.black == id {
        side, remote := Black, game.red;
      }
      if connMap[id].state != Gaming {
        ok := Closed(id);
        return;
      }
      if game.turn != side {
        Send(id, MoveResp(false));
        return true;
      }
      var o := DoMove(game.table, side, fx, fy, tx, ty);
      if o.Crash? {
        return false;
      }
      if o.Reject? {
        Send(id, MoveResp(false));
        return true;
      }
      if remote !in connMap {
        return false;
      }
      if !o.gameover {
        games := games[g := game.(table := o.table, turn := Opponent(side), moves := game.moves + [side])];
        Send(remote, RemoteMoved);
        Send(id, MoveResp(true));
        return true;
      }
      games := games[g := game.(table := o.table)];
      connMap := connMap[id := connMap[id].(state := Idle, game := NoGame)];
      connMap := connMap[remote := connMap[remote].(state := Idle, game := NoGame)];
      Send(remote, GameOver(side));
      return true;
    }

    /** The body of the loop in OnTimeout. */
    method TickOne(k: nat)
      requires Inv(View()) && k in connMap
      modifies this
      ensures Tick(old(View()), k).Done? && View() == Tick(old(View()), k).s
    {
      hide Inv, OnClose;
      TickKeepsInv(View(), k);
      Send(k, Heartbeat);
      connMap := connMap[k := connMap[k].(lose := connMap[k].lose + 1)];
      if connMap[k].lose >= MAX_LOSE_HEARTBEAT {
        var _ := Closed(k);
      }
    }

    /** OnTimeout: everybody gets a heartbeat and one more lost beat on the account, and
        those with five are closed, in whatever order the map is ranged over. */
    method OnTimeout()
      requires Inv(View())
      modifies this
      ensures Inv(View())
      ensures forall id :: id in connMap <==> id in old(connMap) && old(connMap)[id].lose + 1 < MAX_LOSE_HEARTBEAT
      ensures forall id :: id in connMap ==> connMap[id].lose == old(connMap)[id].lose + 1
    {
      hide Inv, Tick;
      var left := connMap.Keys;
      while left != {}
        invariant Inv(View()) && left <= connMap.Keys && left <= old(connMap).Keys
        invariant forall id :: id in left ==> connMap[id].lose == old(connMap)[id].lose
        invariant forall id :: id !in left ==>
          (id in connMap <==> id in old(connMap) && old(connMap)[id].lose + 1 < MAX_LOSE_HEARTBEAT)
        invariant forall id :: id in connMap && id !in left ==> connMap[id].lose == old(connMap)[id].lose + 1
        decreases left
      {
        var k :| k in left;
        left := left - {k};
        TickKeepsInv(View(), k);
        TickLose(View(), k);
        TickOne(k);
      }
    }
  }

  /** A tick touches no other heartbeat count and closes only its own connection. */
  lemma TickLose(s: Server, id: nat)
    requires Inv(s) && id in s.conns
    ensures Tick(s, id).Done?
    ensures var t := Tick(s, id).s;
      && t.conns.Keys == (if s.conns[id].lose + 1 >= MAX_LOSE_HEARTBEAT then s.conns.Keys - {id} else s.conns.Keys)
      && forall k :: k in t.conns ==> t.conns[k].lose == s.conns[k].lose + if k == id then 1 else 0
  {
    hide Inv;
    TickKeepsInv(s, id);
    var u := Post(s.(conns := s.conns[id := s.conns[id].(lose := s.conns[id].lose + 1)]), id, Heartbeat);
    BookkeepingKeepsInv(s, u);
    CloseKeepsInv(u, id);
  }
}
