/** The rules of DoMove piece by piece, said in terms of points and steps: for every table,
    which moves of which kind are accepted, and how the pieces stand at the start. */
module ChessRules {
  import opened Chess
  import opened ChessGame

  /** A move between two points of the table by the side whose piece of this kind it is. */
  predicate Moves(b: Board, side: Side, kind: PieceType, fx: int, fy: int, tx: int, ty: int) {
    && 0 <= fx <= 8 && 0 <= fy <= 9 && 0 <= tx <= 8 && 0 <= ty <= 9 && (fx != tx || fy != ty)
    && IsKind(Slot(b, fx, fy), side, kind)
  }

  /** Anything else is rejected: points off the table, an empty point, a piece of the other
      side, or no move at all. */
  lemma OthersRejected(b: Board, side: Side, fx: int, fy: int, tx: int, ty: int)
    requires forall kind :: !Moves(b, side, kind, fx, fy, tx, ty)
    ensures DoMove(b, side, fx, fy, tx, ty).Reject?
  {
    if On(fx, fy) && On(tx, ty) && (fx != tx || fy != ty) && Slot(b, fx, fy).Piece? {
      assert !Moves(b, side, Slot(b, fx, fy).ty, fx, fy, tx, ty);
    }
  }

  /** The points strictly between two points of a row or column are free, walking from one to
      the other. */
  predicate ClearLine(b: Board, fx: int, fy: int, tx: int, ty: int) {
    && (fx == tx || fy == ty)
    && Free(b, fx, fy, Sign(tx - fx), Sign(ty - fy), Abs(tx - fx) + Abs(ty - fy) - if fx == tx && fy == ty then 0 else 1)
  }

  predicate OwnAt(b: Board, side: Side, x: int, y: int)
    requires On(x, y)
  {
    Slot(b, x, y).Piece? && Slot(b, x, y).side == side
  }

  lemma LineIsClear(b: Board, fx: int, fy: int, tx: int, ty: int)
    requires On(fx, fy) && On(tx, ty) && (fx != tx || fy != ty)
    ensures SameLine(fx, fy, tx, ty) && !Blocked(b, fx, fy, tx, ty) <==> ClearLine(b, fx, fy, tx, ty)
  {
    hide Blocked, Free;
    if SameLine(fx, fy, tx, ty) {
      BlockedIffWalkStops(b, fx, fy, tx, ty);
    }
  }

  /** A chariot goes along a clear line to any point without a piece of its own. */
  lemma ChariotIff(b: Board, side: Side, fx: int, fy: int, tx: int, ty: int)
    requires Moves(b, side, Che, fx, fy, tx, ty)
    ensures !DoMove(b, side, fx, fy, tx, ty).Crash?
    ensures DoMove(b, side, fx, fy, tx, ty).Accept? <==> ClearLine(b, fx, fy, tx, ty) && !OwnAt(b, side, tx, ty)
  {
    hide Blocked, Moved, ClearLine;
    LineIsClear(b, fx, fy, tx, ty);
  }

  /** A cannon that takes nothing goes along a clear line; jumping to an empty point crashes. */
  lemma CannonIff(b: Board, side: Side, fx: int, fy: int, tx: int, ty: int)
    requires Moves(b, side, Pao, fx, fy, tx, ty) && Slot(b, tx, ty).Empty?
    ensures DoMove(b, side, fx, fy, tx, ty).Accept? <==> ClearLine(b, fx, fy, tx, ty)
    ensures DoMove(b, side, fx, fy, tx, ty).Reject? <==> fx != tx && fy != ty
  {
    hide Blocked, Moved, ClearLine;
    LineIsClear(b, fx, fy, tx, ty);
    assert ClearLine(b, fx, fy, tx, ty) ==> fx == tx || fy == ty by { ClearIsLine(b, fx, fy, tx, ty); }
  }

  lemma ClearIsLine(b: Board, fx: int, fy: int, tx: int, ty: int)
    ensures ClearLine(b, fx, fy, tx, ty) ==> fx == tx || fy == ty
  {
  }

  predicate EmptyAt(b: Board, x: int, y: int)
    requires On(x, y)
  {
    Slot(b, x, y).Empty?
  }

  /** A horse goes two points one way and one point across, and the point next to it on its
      way must be free. */
  lemma HorseIff(b: Board, side: Side, fx: int, fy: int, tx: int, ty: int)
    requires Moves(b, side, Ma, fx, fy, tx, ty)
    ensures !DoMove(b, side, fx, fy, tx, ty).Crash?
    ensures DoMove(b, side, fx, fy, tx, ty).Accept? <==>
      || (tx == fx + 2 && (ty == fy + 1 || ty == fy - 1) && EmptyAt(b, fx + 1, fy))
      || (tx == fx - 2 && (ty == fy + 1 || ty == fy - 1) && EmptyAt(b, fx - 1, fy))
      || (ty == fy + 2 && (tx == fx + 1 || tx == fx - 1) && EmptyAt(b, fx, fy + 1))
      || (ty == fy - 2 && (tx == fx + 1 || tx == fx - 1) && EmptyAt(b, fx, fy - 1))
  {
    hide Moved;
  }

  /** An elephant goes two points diagonally over a free point and stays on its own half. */
  lemma ElephantIff(b: Board, side: Side, fx: int, fy: int, tx: int, ty: int)
    requires Moves(b, side, Xiang, fx, fy, tx, ty)
    ensures !DoMove(b, side, fx, fy, tx, ty).Crash?
    ensures DoMove(b, side, fx, fy, tx, ty).Accept? <==>
      && (side == Red ==> ty <= 4) && (side == Black ==> ty >= 5)
      && (|| (tx == fx + 2 && ty == fy + 2 && EmptyAt(b, fx + 1, fy + 1))
          || (tx == fx + 2 && ty == fy - 2 && EmptyAt(b, fx + 1, fy - 1))
          || (tx == fx - 2 && ty == fy + 2 && EmptyAt(b, fx - 1, fy + 1))
          || (tx == fx - 2 && ty == fy - 2 && EmptyAt(b, fx - 1, fy - 1)))
  {
    hide Moved;
  }

  /** A soldier goes one point forward, or one sideways once it stands across the river. */
  lemma SoldierIff(b: Board, side: Side, fx: int, fy: int, tx: int, ty: int)
    requires Moves(b, side, Bing, fx, fy, tx, ty)
    ensures !DoMove(b, side, fx, fy, tx, ty).Crash?
    ensures DoMove(b, side, fx, fy, tx, ty).Accept? <==>
      || (tx == fx && ty == if side == Red then fy + 1 else fy - 1)
      || (ty == fy && (tx == fx + 1 || tx == fx - 1) && if side == Red then fy >= 5 else fy <= 4)
  {
    hide Moved;
  }

  /** An advisor goes to one of the five points of its palace that is no more than one point
      away either way. */
  lemma AdvisorIff(b: Board, side: Side, fx: int, fy: int, tx: int, ty: int)
    requires Moves(b, side, Shi, fx, fy, tx, ty)
    ensures !DoMove(b, side, fx, fy, tx, ty).Crash?
    ensures DoMove(b, side, fx, fy, tx, ty).Accept? <==>
      && (if side == Red then (tx, ty) in {(3, 0), (5, 0), (4, 1), (3, 2), (5, 2)}
          else (tx, ty) in {(3, 9), (5, 9), (4, 8), (3, 7), (5, 7)})
      && fx - 1 <= tx <= fx + 1 && fy - 1 <= ty <= fy + 1
  {
    hide Moved;
  }

  /** A general takes the other one, or any general, along a clear line, which ends the game;
      otherwise it goes one point within its palace to where no piece of its own is, which
      does not. */
  lemma GeneralIff(b: Board, side: Side, fx: int, fy: int, tx: int, ty: int)
    requires Moves(b, side, Shuai, fx, fy, tx, ty)
    ensures var o := DoMove(b, side, fx, fy, tx, ty);
      && !o.Crash?
      && (o.Accept? && o.gameover <==> Slot(b, tx, ty).Piece? && Slot(b, tx, ty).ty == Shuai && ClearLine(b, fx, fy, tx, ty))
      && (o.Accept? <==>
            || (Slot(b, tx, ty).Piece? && Slot(b, tx, ty).ty == Shuai && ClearLine(b, fx, fy, tx, ty))
            || (&& 3 <= tx <= 5 && (if side == Red then ty <= 2 else ty >= 7)
                && ((tx == fx && (ty == fy + 1 || ty == fy - 1)) || (ty == fy && (tx == fx + 1 || tx == fx - 1)))
                && !OwnAt(b, side, tx, ty)))
  {
    hide Blocked, Moved, ClearLine;
    LineIsClear(b, fx, fy, tx, ty);
  }

  /** All kinds but the general end the game exactly by taking a general, on any table. */
  lemma OthersEndIff(b: Board, side: Side, fx: int, fy: int, tx: int, ty: int)
    requires DoMove(b, side, fx, fy, tx, ty).Accept? && !Moves(b, side, Shuai, fx, fy, tx, ty)
    ensures On(tx, ty)
    ensures DoMove(b, side, fx, fy, tx, ty).gameover <==> Slot(b, tx, ty).Piece? && Slot(b, tx, ty).ty == Shuai
  {
    hide Blocked, Moved, BingMay, MaMay, XiangMay, ShiMay, ShuaiMay;
  }

  // ---------- the opening ----------

  predicate At(b: Board, x: int, y: int, kind: PieceType, side: Side)
    requires On(x, y)
  {
    Slot(b, x, y) == Piece(x, y, kind, side)
  }

  predicate BackRankAt(b: Board, y: int, side: Side)
    requires On(0, y)
  {
    && At(b, 0, y, Che, side) && At(b, 1, y, Ma, side) && At(b, 2, y, Xiang, side) && At(b, 3, y, Shi, side)
    && At(b, 4, y, Shuai, side)
    && At(b, 5, y, Shi, side) && At(b, 6, y, Xiang, side) && At(b, 7, y, Ma, side) && At(b, 8, y, Che, side)
  }

  predicate CannonsAndSoldiersAt(b: Board, cannons: int, soldiers: int, side: Side)
    requires On(0, cannons) && On(0, soldiers)
  {
    && At(b, 1, cannons, Pao, side) && At(b, 7, cannons, Pao, side)
    && At(b, 0, soldiers, Bing, side) && At(b, 2, soldiers, Bing, side) && At(b, 4, soldiers, Bing, side)
    && At(b, 6, soldiers, Bing, side) && At(b, 8, soldiers, Bing, side)
  }

  lemma OpeningRank(b: Board, y: int, side: Side)
    requires IsOpening(b) && ((y == 0 && side == Red) || (y == 9 && side == Black))
    ensures BackRankAt(b, y, side)
  {
    hide Slot;
    forall x | 0 <= x <= 8
      ensures Slot(b, x, y) == OpeningCell(x, y)
    {
    }
  }

  lemma OpeningFront(b: Board, cannons: int, soldiers: int, side: Side)
    requires IsOpening(b)
    requires (cannons == 2 && soldiers == 3 && side == Red) || (cannons == 7 && soldiers == 6 && side == Black)
    ensures CannonsAndSoldiersAt(b, cannons, soldiers, side)
  {
    hide Slot, BackRank;
    forall x | 0 <= x <= 8
      ensures Slot(b, x, cannons) == OpeningCell(x, cannons) && Slot(b, x, soldiers) == OpeningCell(x, soldiers)
    {
    }
  }

  /** The 32 pieces of the opening, one by one, and nothing else: Red below, Black above. */
  lemma OpeningPieces(b: Board)
    requires IsOpening(b)
    ensures BackRankAt(b, 0, Red) && CannonsAndSoldiersAt(b, 2, 3, Red)
    ensures BackRankAt(b, 9, Black) && CannonsAndSoldiersAt(b, 7, 6, Black)
    ensures forall x, y :: On(x, y) && Slot(b, x, y).Piece? ==>
      y == 0 || y == 9 || ((y == 2 || y == 7) && (x == 1 || x == 7)) || ((y == 3 || y == 6) && x % 2 == 0)
  {
    hide Slot, BackRankAt, CannonsAndSoldiersAt;
    OpeningRank(b, 0, Red);
    OpeningRank(b, 9, Black);
    OpeningFront(b, 2, 3, Red);
    OpeningFront(b, 7, 6, Black);
  }
}
