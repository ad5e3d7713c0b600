/** Chinese chess: the table of 90 points and the legality of moves.

    The lower left corner is (0, 0), the upper right one (8, 9); Red starts below. */
module Chess {

  datatype PieceType = Che | Ma | Xiang | Shi | Shuai | Pao | Bing

  datatype Side = Red | Black

  /** A slot of the table; a piece stores the coordinates it was set at. */
  datatype Cell = Empty | Piece(x: int, y: int, ty: PieceType, side: Side)

  type Board = b: seq<Cell> | |b| == 90 witness seq(90, _ => Empty)

  predicate On(x: int, y: int) {
    0 <= x <= 8 && 0 <= y <= 9
  }

  function Index(x: int, y: int): (i: nat)
    requires On(x, y)
    ensures i < 90
  {
    y * 9 + x
  }

  function Slot(b: Board, x: int, y: int): Cell
    requires On(x, y)
  {
    b[Index(x, y)]
  }

  function ClearPoint(b: Board, x: int, y: int): Board
    requires On(x, y)
  {
    b[Index(x, y) := Empty]
  }

  function SetPoint(b: Board, x: int, y: int, side: Side, ty: PieceType): Board
    requires On(x, y)
  {
    b[Index(x, y) := Piece(x, y, ty, side)]
  }

  /** The mover's piece leaves (fx, fy) and takes (tx, ty). */
  function Moved(b: Board, side: Side, piece: PieceType, fx: int, fy: int, tx: int, ty: int): Board
    requires On(fx, fy) && On(tx, ty)
  {
    SetPoint(ClearPoint(b, fx, fy), tx, ty, side, piece)
  }

  predicate CrossedRiver(side: Side, y: int) {
    if side.Red? then y >= 5 else y <= 4
  }

  predicate SameLine(x1: int, y1: int, x2: int, y2: int) {
    x1 == x2 || y1 == y2
  }

  predicate StrictlyBetween(a: int, m: int, b: int) {
    a < m < b || b < m < a
  }

  /** Some point strictly between two points of one line is taken. */
  predicate Blocked(b: Board, x1: int, y1: int, x2: int, y2: int)
    requires On(x1, y1) && On(x2, y2)
  {
    if x1 == x2 then exists y :: 0 <= y <= 9 && StrictlyBetween(y1, y, y2) && Slot(b, x1, y).Piece?
    else exists x :: 0 <= x <= 8 && StrictlyBetween(x1, x, x2) && Slot(b, x, y1).Piece?
  }

  predicate BelongsTo(c: Cell, side: Side) {
    c.Piece? && c.side == side
  }

  function Abs(n: int): nat {
    if n < 0 then -n else n
  }

  // ---------- one branch of DoMove each ----------

  /** A soldier: one step, never backwards, sideways only across the river. */
  predicate BingMay(side: Side, fx: int, fy: int, tx: int, ty: int) {
    && (if CrossedRiver(side, fy) then
          (tx == fx + 1 && ty == fy) || (tx == fx && ty == fy + 1) || (tx == fx - 1 && ty == fy) || (tx == fx && ty == fy - 1)
        else (tx == fx && ty == fy + 1) || (tx == fx && ty == fy - 1))
    && (if side.Red? then fy <= ty else fy >= ty)
  }

  predicate CheMay(b: Board, side: Side, fx: int, fy: int, tx: int, ty: int)
    requires On(fx, fy) && On(tx, ty)
  {
    SameLine(fx, fy, tx, ty) && !Blocked(b, fx, fy, tx, ty) && !BelongsTo(Slot(b, tx, ty), side)
  }

  predicate KnightJump(fx: int, fy: int, tx: int, ty: int) {
    (Abs(tx - fx) == 1 && Abs(ty - fy) == 2) || (Abs(tx - fx) == 2 && Abs(ty - fy) == 1)
  }

  /** The point next to a horse in the long direction of its jump. */
  function HorseLeg(fx: int, fy: int, tx: int, ty: int): (leg: (int, int))
    requires On(fx, fy) && On(tx, ty) && KnightJump(fx, fy, tx, ty)
    ensures On(leg.0, leg.1)
  {
    if tx == fx + 2 then (fx + 1, fy)
    else if tx == fx - 2 then (fx - 1, fy)
    else if ty == fy + 2 then (fx, fy + 1)
    else (fx, fy - 1)
  }

  /** A horse: its leg must be free. */
  predicate MaMay(b: Board, fx: int, fy: int, tx: int, ty: int)
    requires On(fx, fy) && On(tx, ty)
  {
    KnightJump(fx, fy, tx, ty) && var leg := HorseLeg(fx, fy, tx, ty); Slot(b, leg.0, leg.1).Empty?
  }

  /** An elephant: two diagonal steps on its own side over a free point. */
  predicate XiangMay(b: Board, side: Side, fx: int, fy: int, tx: int, ty: int)
    requires On(fx, fy) && On(tx, ty)
  {
    && Abs(tx - fx) == 2 && Abs(ty - fy) == 2
    && !CrossedRiver(side, ty)
    && Slot(b, (fx + tx) / 2, (fy + ty) / 2).Empty?
  }

  /** The five points of an advisor. */
  predicate AdvisorPoint(side: Side, x: int, y: int) {
    var h := if side.Red? then y else 9 - y;
    (h == 0 && (x == 3 || x == 5)) || (h == 1 && x == 4) || (h == 2 && (x == 3 || x == 5))
  }

  predicate ShiMay(side: Side, fx: int, fy: int, tx: int, ty: int) {
    AdvisorPoint(side, tx, ty) && -1 <= fx - tx <= 1 && -1 <= fy - ty <= 1
  }

  /** The condition of the source: the palace rows without a lower bound for Red and
      without an upper bound for Black, which the table supplies. */
  predicate PalaceTarget(side: Side, x: int, y: int) {
    3 <= x <= 5 && if side.Red? then y <= 2 else y >= 7
  }

  /** The generals face each other on an open line. */
  predicate ShuaiTakesShuai(b: Board, fx: int, fy: int, tx: int, ty: int)
    requires On(fx, fy) && On(tx, ty)
  {
    && Slot(b, tx, ty).Piece? && Slot(b, tx, ty).ty == Shuai
    && SameLine(fx, fy, tx, ty) && !Blocked(b, fx, fy, tx, ty)
  }

  predicate ShuaiMay(b: Board, side: Side, fx: int, fy: int, tx: int, ty: int)
    requires On(fx, fy) && On(tx, ty)
  {
    && PalaceTarget(side, tx, ty)
    && Abs(fx - tx) + Abs(fy - ty) == 1
    && !BelongsTo(Slot(b, tx, ty), side)
  }

  datatype Outcome =
    | Crash                                    // a nil dereference
    | Reject                                   // moveok == false
    | Accept(gameover: bool, table: Board)

  predicate IsGeneral(c: Cell) {
    c.Piece? && c.ty == Shuai
  }

  function Accepted(b: Board, side: Side, piece: PieceType, fx: int, fy: int, tx: int, ty: int): Outcome
    requires On(fx, fy) && On(tx, ty)
  {
    Accept(IsGeneral(Slot(b, tx, ty)), Moved(b, side, piece, fx, fy, tx, ty))
  }

  /** The branches of DoMove after its common checks, for a piece of type `piece`. */
  function MovePiece(b: Board, side: Side, piece: PieceType, fx: int, fy: int, tx: int, ty: int): Outcome
    requires On(fx, fy) && On(tx, ty)
  {
    match piece
    case Bing => if BingMay(side, fx, fy, tx, ty) then Accepted(b, side, Bing, fx, fy, tx, ty) else Reject
    case Pao =>
      if !SameLine(fx, fy, tx, ty) then Reject
      else if !Blocked(b, fx, fy, tx, ty) then
        if Slot(b, tx, ty).Piece? then Reject else Accepted(b, side, Pao, fx, fy, tx, ty)
      else if Slot(b, tx, ty).Empty? then Crash
      else if Slot(b, tx, ty).side == side then Reject
      else Accepted(b, side, Pao, fx, fy, tx, ty)
    case Che => if CheMay(b, side, fx, fy, tx, ty) then Accepted(b, side, Che, fx, fy, tx, ty) else Reject
    case Ma => if MaMay(b, fx, fy, tx, ty) then Accepted(b, side, Ma, fx, fy, tx, ty) else Reject
    case Xiang => if XiangMay(b, side, fx, fy, tx, ty) then Accepted(b, side, Xiang, fx, fy, tx, ty) else Reject
    case Shi => if ShiMay(side, fx, fy, tx, ty) then Accepted(b, side, Shi, fx, fy, tx, ty) else Reject
    case Shuai =>
      if ShuaiTakesShuai(b, fx, fy, tx, ty) then Accept(true, Moved(b, side, Shuai, fx, fy, tx, ty))
      else if ShuaiMay(b, side, fx, fy, tx, ty) then Accept(false, Moved(b, side, Shuai, fx, fy, tx, ty))
      else Reject
  }

  function DoMove(b: Board, side: Side, fx: int, fy: int, tx: int, ty: int): Outcome {
    if !On(fx, fy) || !On(tx, ty) then Reject
    else if !BelongsTo(Slot(b, fx, fy), side) then Reject
    else if fx == tx && fy == ty then Reject
    else MovePiece(b, side, Slot(b, fx, fy).ty, fx, fy, tx, ty)
  }

  // ---------- the opening ----------

  function BackRank(x: int): PieceType
    requires 0 <= x <= 8
  {
    [Che, Ma, Xiang, Shi, Shuai, Shi, Xiang, Ma, Che][x]
  }

  /** The opening is symmetric: `h` counts rows from the player's own edge. */
  function OpeningCell(x: int, y: int): Cell
    requires On(x, y)
  {
    var side := if y <= 4 then Red else Black;
    var h := if y <= 4 then y else 9 - y;
    if h == 0 then Piece(x, y, BackRank(x), side)
    else if h == 2 && (x == 1 || x == 7) then Piece(x, y, Pao, side)
    else if h == 3 && x % 2 == 0 then Piece(x, y, Bing, side)
    else Empty
  }

  ghost predicate IsOpening(b: Board) {
    forall x, y :: On(x, y) ==> Slot(b, x, y) == OpeningCell(x, y)
  }

  // ---------- the table object ----------

  class ChessTable {
    const cells: array<Cell>

    constructor Blank()
      ensures cells.Length == 90 && fresh(cells) && cells[..] == seq(90, _ => Empty)
    {
      cells := new Cell[90](_ => Empty);
    }

    /** SetPoint for a point `x` of row `y`. */
    method Set(x: int, y: int, side: Side, ty: PieceType)
      requires cells.Length == 90 && On(x, y)
      modifies cells
      ensures cells[y * 9 + x] == Piece(x, y, ty, side)
      ensures forall i :: 0 <= i < 90 && i != y * 9 + x ==> cells[i] == old(cells[i])
    {
      cells[y * 9 + x] := Piece(x, y, ty, side);
    }

    method SetBackRank(y: int, side: Side)
      requires cells.Length == 90 && On(0, y)
      modifies cells
      ensures forall i :: y * 9 <= i <= y * 9 + 8 ==> cells[i] == Piece(i - y * 9, y, BackRank(i - y * 9), side)
      ensures forall i :: 0 <= i < 90 && !(y * 9 <= i <= y * 9 + 8) ==> cells[i] == old(cells[i])
    {
      Set(0, y, side, Che);
      Set(1, y, side, Ma);
      Set(2, y, side, Xiang);
      Set(3, y, side, Shi);
      Set(4, y, side, Shuai);
      Set(5, y, side, Shi);
      Set(6, y, side, Xiang);
      Set(7, y, side, Ma);
      Set(8, y, side, Che);
    }

    method SetCannons(y: int, side: Side)
      requires cells.Length == 90 && On(0, y)
      modifies cells
      ensures cells[y * 9 + 1] == Piece(1, y, Pao, side) && cells[y * 9 + 7] == Piece(7, y, Pao, side)
      ensures forall i :: 0 <= i < 90 && i != y * 9 + 1 && i != y * 9 + 7 ==> cells[i] == old(cells[i])
    {
      Set(1, y, side, Pao);
      Set(7, y, side, Pao);
    }

    method SetSoldiers(y: int, side: Side)
      requires cells.Length == 90 && On(0, y)
      modifies cells
      ensures forall i :: y * 9 <= i <= y * 9 + 8 ==>
        cells[i] == if (i - y * 9) % 2 == 0 then Piece(i - y * 9, y, Bing, side) else old(cells[i])
      ensures forall i :: 0 <= i < 90 && !(y * 9 <= i <= y * 9 + 8) ==> cells[i] == old(cells[i])
    {
      Set(0, y, side, Bing);
      Set(2, y, side, Bing);
      Set(4, y, side, Bing);
      Set(6, y, side, Bing);
      Set(8, y, side, Bing);
    }

    /** NewDefaultChessTable */
    constructor Opening()
      ensures cells.Length == 90 && fresh(cells) && IsOpening(cells[..])
    {
      cells := new Cell[90](_ => Empty);
      new;
      SetBackRank(0, Red);
      SetCannons(2, Red);
      SetSoldiers(3, Red);
      SetBackRank(9, Black);
      SetCannons(7, Black);
      SetSoldiers(6, Black);
      forall x, y | On(x, y)
        ensures Slot(cells[..], x, y) == OpeningCell(x, y)
      {
        assert Slot(cells[..], x, y) == cells[y * 9 + x];
      }
    }

    /** Are there pieces strictly between two points of one line? */
    method HasChessBetween(x1: int, y1: int, x2: int, y2: int) returns (found: bool)
      requires cells.Length == 90 && On(x1, y1) && On(x2, y2)
      ensures found <==> Blocked(cells[..], x1, y1, x2, y2)
    {
      var b: Board := cells[..];
      if x1 == x2 {
        var lo, hi := if y1 < y2 then y1 else y2, if y1 < y2 then y2 else y1;
        var y0 := lo + 1;
        while y0 < hi
          invariant lo < y0
          invariant forall y :: lo < y < y0 && On(x1, y) ==> Slot(b, x1, y).Empty?
        {
          if cells[y0 * 9 + x1].Piece? {
            assert StrictlyBetween(y1, y0, y2) && Slot(b, x1, y0).Piece?;
            return true;
          }
          y0 := y0 + 1;
        }
      } else {
        var lo, hi := if x1 < x2 then x1 else x2, if x1 < x2 then x2 else x1;
        var x0 := lo + 1;
        while x0 < hi
          invariant lo < x0
          invariant forall x :: lo < x < x0 && On(x, y1) ==> Slot(b, x, y1).Empty?
        {
          if cells[y1 * 9 + x0].Piece? {
            assert StrictlyBetween(x1, x0, x2) && Slot(b, x0, y1).Piece?;
            return true;
          }
          x0 := x0 + 1;
        }
      }
      return false;
    }

    method Place(side: Side, piece: PieceType, fx: int, fy: int, tx: int, ty: int) returns (pre: Cell)
      requires cells.Length == 90 && On(fx, fy) && On(tx, ty) && (fx != tx || fy != ty)
      modifies cells
      ensures cells[..] == Moved(old(cells[..]), side, piece, fx, fy, tx, ty)
      ensures pre == Slot(old(cells[..]), tx, ty)
    {
      cells[fy * 9 + fx] := Empty;
      pre := cells[ty * 9 + tx];
      cells[ty * 9 + tx] := Piece(tx, ty, piece, side);
    }

    /** The straight-line pieces and the general: the branches that scan the table. */
    method LineMove(side: Side, piece: PieceType, fx: int, fy: int, tx: int, ty: int)
      returns (crashed: bool, gameover: bool, moveok: bool)
      requires cells.Length == 90 && On(fx, fy) && On(tx, ty) && (fx != tx || fy != ty)
      requires piece == Pao || piece == Che || piece == Shuai
      modifies cells
      ensures Matches(MovePiece(old(cells[..]), side, piece, fx, fy, tx, ty), crashed, gameover, moveok, old(cells[..]), cells[..])
    {
      hide Blocked, Moved;
      var target := cells[ty * 9 + tx];
      var between := HasChessBetween(fx, fy, tx, ty);
      if piece == Pao {
        if !SameLine(fx, fy, tx, ty) {
          return false, false, false;
        }
        if !between {
          if target.Piece? {
            return false, false, false;
          }
        } else {
          if target.Empty? {
            return true, false, false;
          }
          if target.side == side {
            return false, false, false;
          }
        }
        var pre := Place(side, Pao, fx, fy, tx, ty);
        return false, IsGeneral(pre), true;
      } else if piece == Che {
        if !SameLine(fx, fy, tx, ty) || between || BelongsTo(target, side) {
          return false, false, false;
        }
        var pre := Place(side, Che, fx, fy, tx, ty);
        return false, IsGeneral(pre), true;
      } else {
        if IsGeneral(target) && SameLine(fx, fy, tx, ty) && !between {
          var _ := Place(side, Shuai, fx, fy, tx, ty);
          return false, true, true;
        }
        if !ShuaiMay(cells[..], side, fx, fy, tx, ty) {
          return false, false, false;
        }
        var _ := Place(side, Shuai, fx, fy, tx, ty);
        return false, false, true;
      }
    }

    /** DoMove; `crashed` where the source dereferences a nil point. */
    method Move(side: Side, fx: int, fy: int, tx: int, ty: int)
      returns (crashed: bool, gameover: bool, moveok: bool)
      requires cells.Length == 90
      modifies cells
      ensures Matches(DoMove(old(cells[..]), side, fx, fy, tx, ty), crashed, gameover, moveok, old(cells[..]), cells[..])
    {
      hide Blocked, Moved;
      if !On(fx, fy) || !On(tx, ty) {
        return false, false, false;
      }
      var from := cells[fy * 9 + fx];
      if from.Empty? || from.side != side || (fx == tx && fy == ty) {
        return false, false, false;
      }
      match from.ty {
        case Bing => if !BingMay(side, fx, fy, tx, ty) { return false, false, false; }
        case Ma => if !MaMay(cells[..], fx, fy, tx, ty) { return false, false, false; }
        case Xiang => if !XiangMay(cells[..], side, fx, fy, tx, ty) { return false, false, false; }
        case Shi => if !ShiMay(side, fx, fy, tx, ty) { return false, false, false; }
        case _ =>
          crashed, gameover, moveok := LineMove(side, from.ty, fx, fy, tx, ty);
          return;
      }
      var pre := Place(side, from.ty, fx, fy, tx, ty);
      return false, IsGeneral(pre), true;
    }
  }

  /** The results and the new table of a DoMove call are what `o` says. */
  ghost predicate Matches(o: Outcome, crashed: bool, gameover: bool, moveok: bool, before: seq<Cell>, after: seq<Cell>) {
    match o
    case Crash => crashed && after == before
    case Reject => !crashed && !gameover && !moveok && after == before
    case Accept(over, table) => !crashed && moveok && gameover == over && after == table
  }
}
