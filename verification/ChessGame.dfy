/** What holds of every position of a game of Chinese chess that starts from the
    opening and goes on until a move reports the end. */
module ChessGame {
  import opened Chess

  // ---------- where pieces can stand ----------

  predicate Palace(side: Side, x: int, y: int) {
    3 <= x <= 5 && if side.Red? then 0 <= y <= 2 else 7 <= y <= 9
  }

  /** The seven points of an elephant; `h` counts rows from its own edge. */
  predicate ElephantPoint(side: Side, x: int, y: int) {
    var h := if side.Red? then y else 9 - y;
    (h == 0 && (x == 2 || x == 6)) || (h == 2 && (x == 0 || x == 4 || x == 8)) || (h == 4 && (x == 2 || x == 6))
  }

  /** A soldier never stands behind its start row, and on an even file until it
      has crossed the river. */
  predicate SoldierPoint(side: Side, x: int, y: int) {
    && (if side.Red? then y >= 3 else y <= 6)
    && (!CrossedRiver(side, y) ==> x % 2 == 0)
  }

  predicate MayStand(ty: PieceType, side: Side, x: int, y: int) {
    match ty
    case Shuai => Palace(side, x, y)
    case Shi => AdvisorPoint(side, x, y)
    case Xiang => ElephantPoint(side, x, y)
    case Bing => SoldierPoint(side, x, y)
    case _ => true
  }

  /** The slot at (x, y) is empty, or its piece stores (x, y) and may stand there. */
  predicate WellPlaced(b: Board, x: int, y: int)
    requires On(x, y)
  {
    var c := Slot(b, x, y);
    c.Piece? ==> c.x == x && c.y == y && MayStand(c.ty, c.side, x, y)
  }

  ghost predicate AllPlaced(b: Board) {
    forall x, y :: On(x, y) ==> WellPlaced(b, x, y)
  }

  predicate GeneralAt(b: Board, side: Side, x: int, y: int) {
    On(x, y) && IsGeneral(Slot(b, x, y)) && Slot(b, x, y).side == side
  }

  ghost predicate HasGeneral(b: Board, side: Side) {
    exists x, y :: GeneralAt(b, side, x, y)
  }

  ghost predicate AtMostOneGeneral(b: Board, side: Side) {
    forall x, y, u, v :: GeneralAt(b, side, x, y) && GeneralAt(b, side, u, v) ==> x == u && y == v
  }

  /** Every piece stands where its kind can, and each side has exactly one general,
      which is in its own palace. */
  ghost predicate Good(b: Board) {
    && AllPlaced(b)
    && HasGeneral(b, Red) && HasGeneral(b, Black)
    && AtMostOneGeneral(b, Red) && AtMostOneGeneral(b, Black)
  }

  lemma OpeningIsGood(b: Board)
    requires IsOpening(b)
    ensures Good(b)
  {
    assert GeneralAt(b, Red, 4, 0);
    assert GeneralAt(b, Black, 4, 9);
    forall x, y | On(x, y)
      ensures WellPlaced(b, x, y)
      ensures IsGeneral(Slot(b, x, y)) ==> x == 4 && y == if Slot(b, x, y).side.Red? then 0 else 9
    {
      assert Slot(b, x, y) == OpeningCell(x, y);
    }
  }

  // ---------- what an accepted move does ----------

  /** The result of a move from (fx, fy) to (tx, ty): the piece goes from one to the
      other, nothing else changes. */
  ghost predicate Transfers(b: Board, r: Board, fx: int, fy: int, tx: int, ty: int) {
    && On(fx, fy) && On(tx, ty) && (fx != tx || fy != ty)
    && Slot(b, fx, fy).Piece?
    && Slot(r, fx, fy).Empty?
    && Slot(r, tx, ty) == Piece(tx, ty, Slot(b, fx, fy).ty, Slot(b, fx, fy).side)
    && forall x, y :: On(x, y) && !(x == fx && y == fy) && !(x == tx && y == ty) ==> Slot(r, x, y) == Slot(b, x, y)
  }

  /** Accepted moves transfer the mover's own piece; rejected and crashing ones have
      no new table at all. */
  lemma AcceptTransfers(b: Board, side: Side, fx: int, fy: int, tx: int, ty: int)
    requires DoMove(b, side, fx, fy, tx, ty).Accept?
    ensures Transfers(b, DoMove(b, side, fx, fy, tx, ty).table, fx, fy, tx, ty)
    ensures Slot(b, fx, fy).side == side
  {
    hide Blocked, BingMay, MaMay, XiangMay, ShiMay, ShuaiMay, Moved;
    MovedTransfers(b, fx, fy, tx, ty);
  }

  lemma MovedTransfers(b: Board, fx: int, fy: int, tx: int, ty: int)
    requires On(fx, fy) && On(tx, ty) && (fx != tx || fy != ty) && Slot(b, fx, fy).Piece?
    ensures var c := Slot(b, fx, fy); Transfers(b, Moved(b, c.side, c.ty, fx, fy, tx, ty), fx, fy, tx, ty)
  {
    var r := Moved(b, Slot(b, fx, fy).side, Slot(b, fx, fy).ty, fx, fy, tx, ty);
    forall x, y | On(x, y) && !(x == fx && y == fy) && !(x == tx && y == ty)
      ensures Slot(r, x, y) == Slot(b, x, y)
    {
      assert Index(x, y) != Index(fx, fy) && Index(x, y) != Index(tx, ty);
    }
  }

  /** Every kind of piece that is confined moves within its own points. */
  lemma KindStays(b: Board, side: Side, fx: int, fy: int, tx: int, ty: int)
    requires DoMove(b, side, fx, fy, tx, ty).Accept?
    requires MayStand(Slot(b, fx, fy).ty, side, fx, fy)
    requires !ShuaiTakes(b, fx, fy, tx, ty)
    ensures MayStand(Slot(b, fx, fy).ty, side, tx, ty)
  {
    hide Blocked, Moved;
  }

  /** The move is the special capture of one general by the other. */
  predicate ShuaiTakes(b: Board, fx: int, fy: int, tx: int, ty: int) {
    On(fx, fy) && On(tx, ty) && IsGeneral(Slot(b, fx, fy)) && ShuaiTakesShuai(b, fx, fy, tx, ty)
  }

  /** Every accepted advisor move is one diagonal step. */
  lemma AdvisorStepsDiagonally(b: Board, side: Side, fx: int, fy: int, tx: int, ty: int)
    requires Good(b) && DoMove(b, side, fx, fy, tx, ty).Accept? && Slot(b, fx, fy).ty == Shi
    ensures Abs(fx - tx) == 1 && Abs(fy - ty) == 1
  {
    hide Blocked, Moved;
    assert WellPlaced(b, fx, fy);
  }

  // ---------- the generals ----------

  /** An ordinary step of a general never meets the other general: the palaces are
      apart, so reporting no end of the game is right. */
  lemma GeneralStepMeetsNoGeneral(b: Board, side: Side, fx: int, fy: int, tx: int, ty: int)
    requires Good(b) && On(fx, fy) && On(tx, ty)
    requires BelongsTo(Slot(b, fx, fy), side) && Slot(b, fx, fy).ty == Shuai
    requires ShuaiMay(b, side, fx, fy, tx, ty)
    ensures !IsGeneral(Slot(b, tx, ty))
  {
    assert WellPlaced(b, tx, ty);
  }

  /** In a good position DoMove reports the end of the game exactly when the target
      holds a general. */
  lemma GameoverIffGeneralTaken(b: Board, side: Side, fx: int, fy: int, tx: int, ty: int)
    requires Good(b) && DoMove(b, side, fx, fy, tx, ty).Accept?
    ensures On(tx, ty)
    ensures DoMove(b, side, fx, fy, tx, ty).gameover <==> IsGeneral(Slot(b, tx, ty))
  {
    hide Blocked, BingMay, MaMay, XiangMay, ShiMay, Moved, Good;
    if Slot(b, fx, fy).ty == Shuai && !ShuaiTakesShuai(b, fx, fy, tx, ty) {
      GeneralStepMeetsNoGeneral(b, side, fx, fy, tx, ty);
    }
  }

  lemma TransferGenerals(b: Board, r: Board, fx: int, fy: int, tx: int, ty: int, side: Side)
    requires Transfers(b, r, fx, fy, tx, ty) && HasGeneral(b, side) && AtMostOneGeneral(b, side)
    ensures AtMostOneGeneral(r, side)
    ensures HasGeneral(r, side) <==> !GeneralAt(b, side, tx, ty)
  {
    forall x, y | GeneralAt(r, side, x, y)
      ensures GeneralAt(b, side, x, y) || (x == tx && y == ty && GeneralAt(b, side, fx, fy))
    {
    }
    var gx, gy :| GeneralAt(b, side, gx, gy);
    if GeneralAt(b, side, fx, fy) {
      assert GeneralAt(r, side, tx, ty);
    } else if !GeneralAt(b, side, tx, ty) {
      assert GeneralAt(r, side, gx, gy);
    }
  }

  lemma TransferPlaced(b: Board, r: Board, fx: int, fy: int, tx: int, ty: int)
    requires Transfers(b, r, fx, fy, tx, ty) && AllPlaced(b)
    requires MayStand(Slot(b, fx, fy).ty, Slot(b, fx, fy).side, tx, ty)
    ensures AllPlaced(r)
  {
    forall x, y | On(x, y)
      ensures WellPlaced(r, x, y)
    {
      assert WellPlaced(b, x, y);
    }
  }

  /** From a good position, an accepted move removes a general exactly when it reports
      the end of the game; otherwise it leads to a good position again. */
  lemma MoveKeepsGood(b: Board, side: Side, fx: int, fy: int, tx: int, ty: int)
    requires Good(b) && DoMove(b, side, fx, fy, tx, ty).Accept?
    ensures var o := DoMove(b, side, fx, fy, tx, ty);
      && (o.gameover <==> !HasGeneral(o.table, Red) || !HasGeneral(o.table, Black))
      && (!o.gameover ==> Good(o.table))
  {
    hide Blocked, BingMay, MaMay, XiangMay, ShiMay, ShuaiMay, Moved, MovePiece, AtMostOneGeneral, HasGeneral, AllPlaced, Transfers;
    var o := DoMove(b, side, fx, fy, tx, ty);
    AcceptTransfers(b, side, fx, fy, tx, ty);
    GameoverIffGeneralTaken(b, side, fx, fy, tx, ty);
    TransferGenerals(b, o.table, fx, fy, tx, ty, Red);
    TransferGenerals(b, o.table, fx, fy, tx, ty, Black);
    if !o.gameover {
      PlacedAt(b, fx, fy);
      KindStays(b, side, fx, fy, tx, ty);
      TransferPlaced(b, o.table, fx, fy, tx, ty);
    }
  }

  lemma PlacedAt(b: Board, x: int, y: int)
    requires AllPlaced(b) && On(x, y)
    ensures WellPlaced(b, x, y)
  {
  }

  // ---------- conservation ----------

  predicate IsKind(c: Cell, side: Side, ty: PieceType) {
    c.Piece? && c.side == side && c.ty == ty
  }

  /** How many pieces of one kind stand in these slots. */
  function Count(s: seq<Cell>, side: Side, ty: PieceType): nat {
    if s == [] then 0 else (if IsKind(s[0], side, ty) then 1 else 0) + Count(s[1..], side, ty)
  }

  function One(b: bool): nat {
    if b then 1 else 0
  }

  lemma {:induction false} CountUpdate(s: seq<Cell>, i: nat, c: Cell, side: Side, ty: PieceType)
    requires i < |s|
    ensures Count(s[i := c], side, ty) == Count(s, side, ty) - One(IsKind(s[i], side, ty)) + One(IsKind(c, side, ty))
    ensures IsKind(s[i], side, ty) ==> Count(s, side, ty) >= 1
    decreases |s|
  {
    if i > 0 {
      CountUpdate(s[1..], i - 1, c, side, ty);
      assert s[i := c][1..] == s[1..][i - 1 := c];
    } else {
      assert s[0 := c][1..] == s[1..];
    }
  }

  /** An accepted move takes exactly the piece at its target off the table: the number
      of pieces of every kind stays the same, but for one less of that piece's kind. */
  lemma MoveConserves(b: Board, side: Side, fx: int, fy: int, tx: int, ty: int, who: Side, kind: PieceType)
    requires DoMove(b, side, fx, fy, tx, ty).Accept?
    ensures On(tx, ty)
    ensures Count(DoMove(b, side, fx, fy, tx, ty).table, who, kind) ==
            Count(b, who, kind) - One(IsKind(Slot(b, tx, ty), who, kind))
  {
    hide Blocked, BingMay, MaMay, XiangMay, ShiMay, ShuaiMay;
    var piece := Slot(b, fx, fy);
    var cleared := b[Index(fx, fy) := Empty];
    CountUpdate(b, Index(fx, fy), Empty, who, kind);
    CountUpdate(cleared, Index(tx, ty), Piece(tx, ty, piece.ty, side), who, kind);
  }

  // ---------- own pieces ----------

  /** Soldier, horse, elephant and advisor do not look at what stands on their target;
      chariot, cannon and general refuse a piece of their own side. */
  predicate IgnoresTarget(ty: PieceType) {
    ty == Bing || ty == Ma || ty == Xiang || ty == Shi
  }

  /** Putting an own piece, also the own general unless that is the mover itself, on the
      target of an accepted move leaves it acceptable exactly for the four kinds that
      do not look. */
  lemma OwnCaptureIff(b: Board, side: Side, fx: int, fy: int, tx: int, ty: int, own: PieceType)
    requires DoMove(b, side, fx, fy, tx, ty).Accept?
    requires own == Shuai ==> Slot(b, fx, fy).ty != Shuai
    ensures On(fx, fy) && On(tx, ty)
    ensures DoMove(SetPoint(b, tx, ty, side, own), side, fx, fy, tx, ty).Accept? <==>
            IgnoresTarget(Slot(b, fx, fy).ty)
  {
    hide Moved, BingMay, ShiMay;
    var b' := SetPoint(b, tx, ty, side, own);
    assert Slot(b', fx, fy) == Slot(b, fx, fy);
    if Slot(b, fx, fy).ty == Ma {
      HorseIgnores(b, side, fx, fy, tx, ty, own);
    } else if Slot(b, fx, fy).ty == Xiang {
      ElephantIgnores(b, side, fx, fy, tx, ty, own);
    }
  }

  /** The move that ends a game leaves its mover, whom the server reports as the winner,
      its general if and only if the target did not hold that very general; the other
      side keeps its own exactly in the opposite case. */
  lemma WinnerKeepsGeneralIff(b: Board, side: Side, fx: int, fy: int, tx: int, ty: int)
    requires Good(b) && DoMove(b, side, fx, fy, tx, ty).Accept? && DoMove(b, side, fx, fy, tx, ty).gameover
    ensures On(tx, ty)
    ensures var r := DoMove(b, side, fx, fy, tx, ty).table;
      && (HasGeneral(r, side) <==> !BelongsTo(Slot(b, tx, ty), side))
      && (HasGeneral(r, Opponent(side)) <==> BelongsTo(Slot(b, tx, ty), side))
  {
    hide DoMove, AtMostOneGeneral, HasGeneral, AllPlaced, Transfers;
    var r := DoMove(b, side, fx, fy, tx, ty).table;
    AcceptTransfers(b, side, fx, fy, tx, ty);
    GameoverIffGeneralTaken(b, side, fx, fy, tx, ty);
    TransferGenerals(b, r, fx, fy, tx, ty, Red);
    TransferGenerals(b, r, fx, fy, tx, ty, Black);
  }

  function Opponent(side: Side): Side {
    if side.Red? then Black else Red
  }

  lemma HorseIgnores(b: Board, side: Side, fx: int, fy: int, tx: int, ty: int, own: PieceType)
    requires On(fx, fy) && On(tx, ty) && MaMay(b, fx, fy, tx, ty)
    ensures MaMay(SetPoint(b, tx, ty, side, own), fx, fy, tx, ty)
  {
  }

  lemma ElephantIgnores(b: Board, side: Side, fx: int, fy: int, tx: int, ty: int, own: PieceType)
    requires On(fx, fy) && On(tx, ty) && XiangMay(b, side, fx, fy, tx, ty)
    ensures XiangMay(SetPoint(b, tx, ty, side, own), side, fx, fy, tx, ty)
  {
    assert (fx + tx) / 2 != tx;
  }

  // ---------- the cannon ----------

  /** DoMove dereferences nil exactly for a cannon of the mover that goes along a line
      over a piece to an empty point. */
  lemma CrashIff(b: Board, side: Side, fx: int, fy: int, tx: int, ty: int)
    ensures DoMove(b, side, fx, fy, tx, ty).Crash? <==>
      && On(fx, fy) && On(tx, ty) && (fx != tx || fy != ty)
      && BelongsTo(Slot(b, fx, fy), side) && Slot(b, fx, fy).ty == Pao
      && SameLine(fx, fy, tx, ty) && Blocked(b, fx, fy, tx, ty)
      && Slot(b, tx, ty).Empty?
  {
    hide Blocked, BingMay, MaMay, XiangMay, ShiMay, ShuaiMay, Moved;
  }

  /** The very first move can do it: Red's cannon from (1, 2) over the black one to the
      empty point (1, 8). */
  lemma OpeningCannonCrashes(b: Board)
    requires IsOpening(b)
    ensures DoMove(b, Red, 1, 2, 1, 8).Crash?
  {
    assert Slot(b, 1, 2) == OpeningCell(1, 2) && Slot(b, 1, 8) == OpeningCell(1, 8);
    assert Slot(b, 1, 7) == OpeningCell(1, 7);
    assert StrictlyBetween(2, 7, 8) && Slot(b, 1, 7).Piece?;
  }

  // ---------- screens ----------

  /** Where on the line the pieces strictly between two points stand. */
  ghost function Screens(b: Board, x1: int, y1: int, x2: int, y2: int): set<int>
    requires On(x1, y1) && On(x2, y2)
  {
    if x1 == x2 then set y | 0 <= y <= 9 && StrictlyBetween(y1, y, y2) && Slot(b, x1, y).Piece?
    else set x | 0 <= x <= 8 && StrictlyBetween(x1, x, x2) && Slot(b, x, y1).Piece?
  }

  /** The rule of the game for a capture by the cannon: it jumps over one piece and
      otherwise moves over free points, before the jump and behind it. */
  ghost predicate OneScreen(b: Board, x1: int, y1: int, x2: int, y2: int)
    requires On(x1, y1) && On(x2, y2)
  {
    if x1 == x2 then
      exists y :: 0 <= y <= 9 && StrictlyBetween(y1, y, y2) && Slot(b, x1, y).Piece?
                  && !Blocked(b, x1, y1, x1, y) && !Blocked(b, x1, y, x1, y2)
    else
      exists x :: 0 <= x <= 8 && StrictlyBetween(x1, x, x2) && Slot(b, x, y1).Piece?
                  && !Blocked(b, x1, y1, x, y1) && !Blocked(b, x, y1, x2, y1)
  }

  lemma BlockedIffScreens(b: Board, x1: int, y1: int, x2: int, y2: int)
    requires On(x1, y1) && On(x2, y2)
    ensures Blocked(b, x1, y1, x2, y2) <==> |Screens(b, x1, y1, x2, y2)| >= 1
  {
    var s := Screens(b, x1, y1, x2, y2);
    if !Blocked(b, x1, y1, x2, y2) {
      assert s == {};
    } else if x1 == x2 {
      var y :| 0 <= y <= 9 && StrictlyBetween(y1, y, y2) && Slot(b, x1, y).Piece?;
      assert y in s;
    } else {
      var x :| 0 <= x <= 8 && StrictlyBetween(x1, x, x2) && Slot(b, x, y1).Piece?;
      assert x in s;
    }
  }

  lemma SingleIff(s: set<int>, m: int)
    requires m in s
    ensures |s| == 1 <==> forall k :: k in s ==> k == m
  {
    var rest := s - {m};
    if |s| == 1 {
      assert |rest| == 0;
      forall k | k in s
        ensures k == m
      {
        assert k !in rest;
      }
    }
    if forall k :: k in s ==> k == m {
      assert s == {m};
    }
  }

  lemma OneScreenColumn(b: Board, x: int, y1: int, y2: int)
    requires On(x, y1) && On(x, y2)
    ensures OneScreen(b, x, y1, x, y2) <==> |Screens(b, x, y1, x, y2)| == 1
  {
    var s := Screens(b, x, y1, x, y2);
    if m :| m in s {
      SingleIff(s, m);
      if |s| == 1 {
        forall k | 0 <= k <= 9 && (StrictlyBetween(y1, k, m) || StrictlyBetween(m, k, y2))
          ensures Slot(b, x, k).Empty?
        {
          assert k !in s;
        }
      }
    }
    if OneScreen(b, x, y1, x, y2) {
      var m :| 0 <= m <= 9 && StrictlyBetween(y1, m, y2) && Slot(b, x, m).Piece?
               && !Blocked(b, x, y1, x, m) && !Blocked(b, x, m, x, y2);
      SingleIff(s, m);
      forall k | k in s
        ensures k == m
      {
        assert StrictlyBetween(y1, k, m) || StrictlyBetween(m, k, y2) || k == m;
      }
    }
  }

  lemma OneScreenRow(b: Board, y: int, x1: int, x2: int)
    requires On(x1, y) && On(x2, y) && x1 != x2
    ensures OneScreen(b, x1, y, x2, y) <==> |Screens(b, x1, y, x2, y)| == 1
  {
    var s := Screens(b, x1, y, x2, y);
    if m :| m in s {
      SingleIff(s, m);
      if |s| == 1 {
        forall k | 0 <= k <= 8 && (StrictlyBetween(x1, k, m) || StrictlyBetween(m, k, x2))
          ensures Slot(b, k, y).Empty?
        {
          assert k !in s;
        }
      }
    }
    if OneScreen(b, x1, y, x2, y) {
      var m :| 0 <= m <= 8 && StrictlyBetween(x1, m, x2) && Slot(b, m, y).Piece?
               && !Blocked(b, x1, y, m, y) && !Blocked(b, m, y, x2, y);
      SingleIff(s, m);
      forall k | k in s
        ensures k == m
      {
        assert StrictlyBetween(x1, k, m) || StrictlyBetween(m, k, x2) || k == m;
      }
    }
  }

  /** A cannon's capture is accepted exactly along a line, of an enemy, over at least one
      piece; so an accepted one obeys the rule if and only if there is exactly one. */
  lemma CannonCaptureIff(b: Board, side: Side, fx: int, fy: int, tx: int, ty: int)
    requires On(fx, fy) && On(tx, ty) && (fx != tx || fy != ty)
    requires BelongsTo(Slot(b, fx, fy), side) && Slot(b, fx, fy).ty == Pao && Slot(b, tx, ty).Piece?
    ensures DoMove(b, side, fx, fy, tx, ty).Accept? <==>
      SameLine(fx, fy, tx, ty) && !BelongsTo(Slot(b, tx, ty), side) && |Screens(b, fx, fy, tx, ty)| >= 1
    ensures DoMove(b, side, fx, fy, tx, ty).Accept? ==>
      (OneScreen(b, fx, fy, tx, ty) <==> |Screens(b, fx, fy, tx, ty)| == 1)
  {
    hide Blocked, Moved, Screens, OneScreen;
    BlockedIffScreens(b, fx, fy, tx, ty);
    if SameLine(fx, fy, tx, ty) {
      if fx == tx {
        OneScreenColumn(b, fx, fy, ty);
      } else {
        OneScreenRow(b, fy, fx, tx);
      }
    }
  }

  // ---------- lines ----------

  function Sign(n: int): int {
    if n < 0 then -1 else if n > 0 then 1 else 0
  }

  /** Walking from (x, y) in direction (dx, dy), the next `n` points are free. */
  predicate Free(b: Board, x: int, y: int, dx: int, dy: int, n: nat)
    decreases n
  {
    n == 0 || (On(x + dx, y + dy) && Slot(b, x + dx, y + dy).Empty? && Free(b, x + dx, y + dy, dx, dy, n - 1))
  }

  lemma BlockedColumnStep(b: Board, x: int, y: int, v: int)
    requires On(x, y) && On(x, v) && Abs(v - y) >= 2
    ensures var m := y + Sign(v - y);
      On(x, m) && (Blocked(b, x, y, x, v) <==> Slot(b, x, m).Piece? || Blocked(b, x, m, x, v))
  {
    var m := y + Sign(v - y);
    assert StrictlyBetween(y, m, v);
    assert forall k :: StrictlyBetween(y, k, v) <==> k == m || StrictlyBetween(m, k, v);
  }

  lemma {:induction false} BlockedColumn(b: Board, x: int, y: int, v: int)
    requires On(x, y) && On(x, v) && y != v
    ensures Blocked(b, x, y, x, v) <==> !Free(b, x, y, 0, Sign(v - y), Abs(v - y) - 1)
    decreases Abs(v - y)
  {
    hide Blocked;
    if Abs(v - y) == 1 {
      NothingBetween(b, x, y, x, v);
    } else {
      BlockedColumnStep(b, x, y, v);
      BlockedColumn(b, x, y + Sign(v - y), v);
    }
  }

  lemma NothingBetween(b: Board, x: int, y: int, u: int, v: int)
    requires On(x, y) && On(u, v) && SameLine(x, y, u, v) && Abs(u - x) + Abs(v - y) == 1
    ensures !Blocked(b, x, y, u, v)
  {
  }

  lemma BlockedRowStep(b: Board, x: int, y: int, u: int)
    requires On(x, y) && On(u, y) && Abs(u - x) >= 2
    ensures var m := x + Sign(u - x);
      On(m, y) && (Blocked(b, x, y, u, y) <==> Slot(b, m, y).Piece? || Blocked(b, m, y, u, y))
  {
    var m := x + Sign(u - x);
    assert StrictlyBetween(x, m, u);
    assert forall k :: StrictlyBetween(x, k, u) <==> k == m || StrictlyBetween(m, k, u);
  }

  lemma {:induction false} BlockedRow(b: Board, x: int, y: int, u: int)
    requires On(x, y) && On(u, y) && x != u
    ensures Blocked(b, x, y, u, y) <==> !Free(b, x, y, Sign(u - x), 0, Abs(u - x) - 1)
    decreases Abs(u - x)
  {
    hide Blocked;
    if Abs(u - x) == 1 {
      NothingBetween(b, x, y, u, y);
    } else {
      BlockedRowStep(b, x, y, u);
      BlockedRow(b, x + Sign(u - x), y, u);
    }
  }

  /** The scan between two points of a line finds a piece exactly when walking from
      one towards the other, step by step, meets one before arriving. */
  lemma BlockedIffWalkStops(b: Board, fx: int, fy: int, tx: int, ty: int)
    requires On(fx, fy) && On(tx, ty) && SameLine(fx, fy, tx, ty) && (fx != tx || fy != ty)
    ensures Blocked(b, fx, fy, tx, ty) <==>
            !Free(b, fx, fy, Sign(tx - fx), Sign(ty - fy), Abs(tx - fx) + Abs(ty - fy) - 1)
  {
    hide Free;
    if fx == tx {
      BlockedColumn(b, fx, fy, ty);
    } else {
      BlockedRow(b, fx, fy, tx);
    }
  }

  // ---------- whole games ----------

  datatype Try = Try(side: Side, fx: int, fy: int, tx: int, ty: int)

  /** `r` is a position reached by trying these moves, in any order of sides, when
      none crashed and none reported the end; a rejected move changes nothing. */
  ghost predicate Plays(b: Board, tries: seq<Try>, r: Board)
    decreases |tries|
  {
    if tries == [] then r == b
    else
      var t := tries[0];
      match DoMove(b, t.side, t.fx, t.fy, t.tx, t.ty)
      case Crash => false
      case Reject => Plays(b, tries[1..], r)
      case Accept(over, table) => !over && Plays(table, tries[1..], r)
  }

  /** Every position of every game up to its end is good. */
  lemma {:induction false} GamesStayGood(b: Board, tries: seq<Try>, r: Board)
    requires Good(b) && Plays(b, tries, r)
    ensures Good(r)
    decreases |tries|
  {
    hide Good, DoMove;
    if tries != [] {
      var t := tries[0];
      var o := DoMove(b, t.side, t.fx, t.fy, t.tx, t.ty);
      if o.Accept? {
        MoveKeepsGood(b, t.side, t.fx, t.fy, t.tx, t.ty);
        GamesStayGood(o.table, tries[1..], r);
      } else {
        GamesStayGood(b, tries[1..], r);
      }
    }
  }

  /** From the opening: one general per side, each in its own palace, in every position
      before the end, and the next accepted move ends the game exactly when it takes
      a general away. */
  lemma GeneralsSurvive(start: Board, tries: seq<Try>, r: Board, t: Try)
    requires IsOpening(start) && Plays(start, tries, r)
    ensures Good(r)
    ensures forall x, y, side :: GeneralAt(r, side, x, y) ==> Palace(side, x, y)
    ensures var o := DoMove(r, t.side, t.fx, t.fy, t.tx, t.ty);
      o.Accept? ==> (o.gameover <==> !HasGeneral(o.table, Red) || !HasGeneral(o.table, Black))
  {
    hide Plays, DoMove, HasGeneral, AtMostOneGeneral;
    OpeningIsGood(start);
    GamesStayGood(start, tries, r);
    forall x, y, side | GeneralAt(r, side, x, y)
      ensures Palace(side, x, y)
    {
      assert WellPlaced(r, x, y);
    }
    if DoMove(r, t.side, t.fx, t.fy, t.tx, t.ty).Accept? {
      MoveKeepsGood(r, t.side, t.fx, t.fy, t.tx, t.ty);
    }
  }

  // ---------- a side that takes its own general ----------

  /** From the opening: Red's general steps to (4, 1), Black moves a chariot, and Red's
      advisor takes the general at (4, 1).  The move is accepted, it is reported as
      the end of the game, and Red, the mover, has no general left. */
  lemma AdvisorTakesOwnGeneral(b: Board) returns (m: Board, r: Board)
    requires IsOpening(b)
    ensures DoMove(b, Red, 4, 0, 4, 1) == Accept(false, m) && DoMove(m, Black, 0, 9, 0, 8) == Accept(false, r)
    ensures Plays(b, [Try(Red, 4, 0, 4, 1), Try(Black, 0, 9, 0, 8)], r)
    ensures var o := DoMove(r, Red, 3, 0, 4, 1);
      o.Accept? && o.gameover && !HasGeneral(o.table, Red) && HasGeneral(o.table, Black)
  {
    hide Good, HasGeneral, Plays;
    m := GeneralSteps(b);
    r := ChariotSteps(b, m);
    assert Slot(r, 3, 0) == Slot(b, 3, 0) == OpeningCell(3, 0);
    var tries := [Try(Red, 4, 0, 4, 1), Try(Black, 0, 9, 0, 8)];
    PlaysTwo(b, tries[0], m, tries[1], r);
    OpeningIsGood(b);
    GamesStayGood(b, tries, r);
    AdvisorTakes(r);
    WinnerKeepsGeneralIff(r, Red, 3, 0, 4, 1);
  }

  lemma PlaysTwo(b: Board, s: Try, m: Board, t: Try, r: Board)
    requires DoMove(b, s.side, s.fx, s.fy, s.tx, s.ty) == Accept(false, m)
    requires DoMove(m, t.side, t.fx, t.fy, t.tx, t.ty) == Accept(false, r)
    ensures Plays(b, [s, t], r)
  {
    hide DoMove;
    assert [s, t][1..] == [t] && [t][1..] == [];
    assert Plays(r, [], r);
    assert Plays(m, [t], r);
  }

  lemma GeneralSteps(b: Board) returns (m: Board)
    requires IsOpening(b)
    ensures DoMove(b, Red, 4, 0, 4, 1) == Accept(false, m) && Transfers(b, m, 4, 0, 4, 1)
    ensures GeneralAt(m, Red, 4, 1)
  {
    hide Blocked, Moved;
    assert Slot(b, 4, 0) == OpeningCell(4, 0) && Slot(b, 4, 1) == OpeningCell(4, 1);
    m := DoMove(b, Red, 4, 0, 4, 1).table;
    MovedTransfers(b, 4, 0, 4, 1);
  }

  lemma ChariotSteps(b: Board, m: Board) returns (r: Board)
    requires IsOpening(b) && Transfers(b, m, 4, 0, 4, 1) && GeneralAt(m, Red, 4, 1)
    ensures DoMove(m, Black, 0, 9, 0, 8) == Accept(false, r) && Transfers(m, r, 0, 9, 0, 8)
    ensures GeneralAt(r, Red, 4, 1) && Slot(r, 3, 0) == Slot(b, 3, 0)
  {
    hide Blocked, Moved;
    assert Slot(m, 0, 9) == Slot(b, 0, 9) == OpeningCell(0, 9);
    assert Slot(m, 0, 8) == Slot(b, 0, 8) == OpeningCell(0, 8);
    NothingBetween(m, 0, 9, 0, 8);
    r := DoMove(m, Black, 0, 9, 0, 8).table;
    MovedTransfers(m, 0, 9, 0, 8);
    assert Slot(r, 4, 1) == Slot(m, 4, 1) && Slot(r, 3, 0) == Slot(m, 3, 0);
  }

  lemma AdvisorTakes(r: Board)
    requires Slot(r, 3, 0) == Piece(3, 0, Shi, Red) && GeneralAt(r, Red, 4, 1)
    ensures DoMove(r, Red, 3, 0, 4, 1).Accept? && DoMove(r, Red, 3, 0, 4, 1).gameover
  {
    hide Moved;
  }

  // ---------- a cannon that jumps over two pieces ----------

  lemma CannonSlides(b: Board) returns (m: Board)
    requires IsOpening(b)
    ensures DoMove(b, Red, 1, 2, 4, 2) == Accept(false, m) && Transfers(b, m, 1, 2, 4, 2)
  {
    hide Moved;
    assert Slot(b, 1, 2) == OpeningCell(1, 2) && Slot(b, 4, 2) == OpeningCell(4, 2);
    assert Slot(b, 2, 2) == OpeningCell(2, 2) && Slot(b, 3, 2) == OpeningCell(3, 2);
    assert !Blocked(b, 1, 2, 4, 2);
    m := DoMove(b, Red, 1, 2, 4, 2).table;
    MovedTransfers(b, 1, 2, 4, 2);
  }

  /** The point is as in the opening. */
  predicate AsAtFirst(b: Board, x: int, y: int)
    requires On(x, y)
  {
    Slot(b, x, y) == OpeningCell(x, y)
  }

  lemma ChariotFollows(b: Board, m: Board) returns (r: Board)
    requires IsOpening(b) && Transfers(b, m, 1, 2, 4, 2)
    ensures DoMove(m, Black, 0, 9, 0, 8) == Accept(false, r)
    ensures Slot(r, 4, 2) == Piece(4, 2, Pao, Red)
    ensures AsAtFirst(r, 4, 3) && AsAtFirst(r, 4, 6) && AsAtFirst(r, 4, 9)
  {
    hide Blocked, Moved;
    assert Slot(b, 1, 2) == OpeningCell(1, 2);
    assert Slot(m, 0, 9) == Slot(b, 0, 9) == OpeningCell(0, 9);
    assert Slot(m, 0, 8) == Slot(b, 0, 8) == OpeningCell(0, 8);
    NothingBetween(m, 0, 9, 0, 8);
    r := DoMove(m, Black, 0, 9, 0, 8).table;
    MovedTransfers(m, 0, 9, 0, 8);
    assert Slot(r, 4, 2) == Slot(m, 4, 2);
    assert Slot(r, 4, 3) == Slot(m, 4, 3) == Slot(b, 4, 3);
    assert Slot(r, 4, 6) == Slot(m, 4, 6) == Slot(b, 4, 6);
    assert Slot(r, 4, 9) == Slot(m, 4, 9) == Slot(b, 4, 9);
  }

  lemma TwoScreens(r: Board)
    requires AsAtFirst(r, 4, 3) && AsAtFirst(r, 4, 6)
    ensures |Screens(r, 4, 2, 4, 9)| >= 2
  {
    var s := Screens(r, 4, 2, 4, 9);
    assert 3 in s && 6 in s;
    SingleIff(s, 3);
  }

  /** From the opening: Red's cannon goes from (1, 2) to (4, 2), Black moves a chariot, and
      the cannon takes the general at (4, 9) over the soldiers at (4, 3) and (4, 6).  The
      rule forbids that; the move is accepted and ends the game. */
  lemma CannonJumpsTwo(b: Board) returns (m: Board, r: Board)
    requires IsOpening(b)
    ensures DoMove(b, Red, 1, 2, 4, 2) == Accept(false, m) && DoMove(m, Black, 0, 9, 0, 8) == Accept(false, r)
    ensures !OneScreen(r, 4, 2, 4, 9)
    ensures var o := DoMove(r, Red, 4, 2, 4, 9); o.Accept? && o.gameover && !HasGeneral(o.table, Black)
  {
    hide HasGeneral, Good, Screens, OneScreen, Plays;
    m := CannonSlides(b);
    r := ChariotFollows(b, m);
    TwoScreens(r);
    CannonCaptureIff(r, Red, 4, 2, 4, 9);
    var tries := [Try(Red, 1, 2, 4, 2), Try(Black, 0, 9, 0, 8)];
    PlaysTwo(b, tries[0], m, tries[1], r);
    OpeningIsGood(b);
    GamesStayGood(b, tries, r);
    GameoverIffGeneralTaken(r, Red, 4, 2, 4, 9);
    WinnerKeepsGeneralIff(r, Red, 4, 2, 4, 9);
  }
}
