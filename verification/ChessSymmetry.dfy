/** The rules treat both sides and both halves of the table alike: turning the table
    around with the colours exchanged, or mirroring it left to right, turns every
    answer of DoMove into the answer for the turned or mirrored position. */
module ChessSymmetry {
  import opened Chess

  /** `turn`: the table seen from the other side, colours exchanged.  `mirror`: left
      and right exchanged. */
  datatype View = View(turn: bool, mirror: bool) {
    function X(x: int): int {
      if mirror then 8 - x else x
    }

    function Y(y: int): int {
      if turn then 9 - y else y
    }

    function Side(s: Side): Side {
      if !turn then s else if s.Red? then Black else Red
    }

    function Cell(c: Cell): Cell {
      match c
      case Empty => Empty
      case Piece(x, y, ty, side) => Piece(X(x), Y(y), ty, Side(side))
    }
  }

  /** Point (x, y) of `b` is seen at its place in `m`. */
  predicate SeenAt(v: View, b: Board, m: Board, x: int, y: int) {
    On(x, y) ==> Slot(m, v.X(x), v.Y(y)) == v.Cell(Slot(b, x, y))
  }

  ghost predicate Image(v: View, b: Board, m: Board) {
    forall x, y :: SeenAt(v, b, m, x, y)
  }

  lemma ImageBack(v: View, b: Board, m: Board)
    requires Image(v, b, m)
    ensures Image(v, m, b)
  {
    hide SeenAt;
    forall x, y
      ensures SeenAt(v, m, b, x, y)
    {
      SeenBack(v, b, m, x, y);
    }
  }

  lemma SeenBack(v: View, b: Board, m: Board, x: int, y: int)
    requires SeenAt(v, b, m, v.X(x), v.Y(y))
    ensures SeenAt(v, m, b, x, y)
  {
    hide Slot;
    if On(x, y) {
      TwiceIsOnce(v, Slot(b, v.X(x), v.Y(y)));
    }
  }

  lemma TwiceIsOnce(v: View, c: Cell)
    ensures v.Cell(v.Cell(c)) == c
  {
  }

  lemma BlockedSeen(v: View, b: Board, m: Board, x1: int, y1: int, x2: int, y2: int)
    requires Image(v, b, m) && On(x1, y1) && On(x2, y2) && SameLine(x1, y1, x2, y2)
    requires Blocked(b, x1, y1, x2, y2)
    ensures Blocked(m, v.X(x1), v.Y(y1), v.X(x2), v.Y(y2))
  {
    if x1 == x2 {
      var y :| 0 <= y <= 9 && StrictlyBetween(y1, y, y2) && Slot(b, x1, y).Piece?;
      assert SeenAt(v, b, m, x1, y);
      assert StrictlyBetween(v.Y(y1), v.Y(y), v.Y(y2)) && Slot(m, v.X(x1), v.Y(y)).Piece?;
    } else {
      var x :| 0 <= x <= 8 && StrictlyBetween(x1, x, x2) && Slot(b, x, y1).Piece?;
      assert SeenAt(v, b, m, x, y1);
      assert StrictlyBetween(v.X(x1), v.X(x), v.X(x2)) && Slot(m, v.X(x), v.Y(y1)).Piece?;
    }
  }

  lemma BlockedAlike(v: View, b: Board, m: Board, x1: int, y1: int, x2: int, y2: int)
    requires Image(v, b, m) && On(x1, y1) && On(x2, y2) && SameLine(x1, y1, x2, y2)
    ensures Blocked(b, x1, y1, x2, y2) <==> Blocked(m, v.X(x1), v.Y(y1), v.X(x2), v.Y(y2))
  {
    hide Blocked, Image;
    if Blocked(b, x1, y1, x2, y2) {
      BlockedSeen(v, b, m, x1, y1, x2, y2);
    }
    if Blocked(m, v.X(x1), v.Y(y1), v.X(x2), v.Y(y2)) {
      ImageBack(v, b, m);
      BlockedSeen(v, m, b, v.X(x1), v.Y(y1), v.X(x2), v.Y(y2));
    }
  }

  lemma MovedSlot(b: Board, side: Side, piece: PieceType, fx: int, fy: int, tx: int, ty: int, x: int, y: int)
    requires On(fx, fy) && On(tx, ty) && On(x, y)
    ensures Slot(Moved(b, side, piece, fx, fy, tx, ty), x, y) ==
            if x == tx && y == ty then Piece(tx, ty, piece, side)
            else if x == fx && y == fy then Empty
            else Slot(b, x, y)
  {
  }

  lemma MovedAlike(v: View, b: Board, m: Board, side: Side, piece: PieceType, fx: int, fy: int, tx: int, ty: int)
    requires Image(v, b, m) && On(fx, fy) && On(tx, ty)
    ensures Image(v, Moved(b, side, piece, fx, fy, tx, ty),
                  Moved(m, v.Side(side), piece, v.X(fx), v.Y(fy), v.X(tx), v.Y(ty)))
  {
    hide Moved, Slot;
    var r := Moved(b, side, piece, fx, fy, tx, ty);
    var q := Moved(m, v.Side(side), piece, v.X(fx), v.Y(fy), v.X(tx), v.Y(ty));
    forall x, y
      ensures SeenAt(v, r, q, x, y)
    {
      if On(x, y) {
        assert SeenAt(v, b, m, x, y);
        MovedSlot(b, side, piece, fx, fy, tx, ty, x, y);
        MovedSlot(m, v.Side(side), piece, v.X(fx), v.Y(fy), v.X(tx), v.Y(ty), v.X(x), v.Y(y));
      }
    }
  }

  lemma HorseAlike(v: View, b: Board, m: Board, fx: int, fy: int, tx: int, ty: int)
    requires Image(v, b, m) && On(fx, fy) && On(tx, ty)
    ensures MaMay(b, fx, fy, tx, ty) <==> MaMay(m, v.X(fx), v.Y(fy), v.X(tx), v.Y(ty))
  {
    hide Slot;
    if KnightJump(fx, fy, tx, ty) {
      var leg := HorseLeg(fx, fy, tx, ty);
      assert HorseLeg(v.X(fx), v.Y(fy), v.X(tx), v.Y(ty)) == (v.X(leg.0), v.Y(leg.1));
      assert SeenAt(v, b, m, leg.0, leg.1);
    }
  }

  lemma ElephantAlike(v: View, b: Board, m: Board, side: Side, fx: int, fy: int, tx: int, ty: int)
    requires Image(v, b, m) && On(fx, fy) && On(tx, ty)
    ensures XiangMay(b, side, fx, fy, tx, ty) <==> XiangMay(m, v.Side(side), v.X(fx), v.Y(fy), v.X(tx), v.Y(ty))
  {
    hide Slot;
    if Abs(tx - fx) == 2 && Abs(ty - fy) == 2 {
      var ex, ey := (fx + tx) / 2, (fy + ty) / 2;
      assert (v.X(fx) + v.X(tx)) / 2 == v.X(ex);
      assert (v.Y(fy) + v.Y(ty)) / 2 == v.Y(ey);
      assert SeenAt(v, b, m, ex, ey);
    }
  }

  lemma SoldierAndAdvisorAlike(v: View, side: Side, fx: int, fy: int, tx: int, ty: int)
    ensures BingMay(side, fx, fy, tx, ty) <==> BingMay(v.Side(side), v.X(fx), v.Y(fy), v.X(tx), v.Y(ty))
    ensures ShiMay(side, fx, fy, tx, ty) <==> ShiMay(v.Side(side), v.X(fx), v.Y(fy), v.X(tx), v.Y(ty))
  {
  }

  lemma GeneralAlike(v: View, b: Board, m: Board, side: Side, fx: int, fy: int, tx: int, ty: int)
    requires Image(v, b, m) && On(fx, fy) && On(tx, ty)
    ensures ShuaiMay(b, side, fx, fy, tx, ty) <==> ShuaiMay(m, v.Side(side), v.X(fx), v.Y(fy), v.X(tx), v.Y(ty))
    ensures ShuaiTakesShuai(b, fx, fy, tx, ty) <==> ShuaiTakesShuai(m, v.X(fx), v.Y(fy), v.X(tx), v.Y(ty))
  {
    hide Blocked;
    assert SeenAt(v, b, m, tx, ty);
    if SameLine(fx, fy, tx, ty) {
      BlockedAlike(v, b, m, fx, fy, tx, ty);
    }
  }

  /** The same answer, with the resulting tables seen alike. */
  ghost predicate Alike(v: View, o: Outcome, p: Outcome) {
    match o
    case Crash => p.Crash?
    case Reject => p.Reject?
    case Accept(over, table) => p.Accept? && p.gameover == over && Image(v, table, p.table)
  }

  lemma PieceAlike(v: View, b: Board, m: Board, side: Side, piece: PieceType, fx: int, fy: int, tx: int, ty: int)
    requires Image(v, b, m) && On(fx, fy) && On(tx, ty)
    ensures Alike(v, MovePiece(b, side, piece, fx, fy, tx, ty),
                  MovePiece(m, v.Side(side), piece, v.X(fx), v.Y(fy), v.X(tx), v.Y(ty)))
  {
    hide Blocked, Moved, MaMay, XiangMay, BingMay, ShiMay, ShuaiMay, ShuaiTakesShuai;
    assert SeenAt(v, b, m, tx, ty);
    hide Image;
    MovedAlike(v, b, m, side, piece, fx, fy, tx, ty);
    HorseAlike(v, b, m, fx, fy, tx, ty);
    ElephantAlike(v, b, m, side, fx, fy, tx, ty);
    SoldierAndAdvisorAlike(v, side, fx, fy, tx, ty);
    GeneralAlike(v, b, m, side, fx, fy, tx, ty);
    if SameLine(fx, fy, tx, ty) {
      BlockedAlike(v, b, m, fx, fy, tx, ty);
    }
  }

  /** DoMove is fair: for every position, every move and every view, the answer for
      the position seen that way is the answer seen that way. */
  lemma RulesAreSymmetric(v: View, b: Board, m: Board, side: Side, fx: int, fy: int, tx: int, ty: int)
    requires Image(v, b, m)
    ensures Alike(v, DoMove(b, side, fx, fy, tx, ty),
                  DoMove(m, v.Side(side), v.X(fx), v.Y(fy), v.X(tx), v.Y(ty)))
  {
    if On(fx, fy) && On(tx, ty) {
      assert SeenAt(v, b, m, fx, fy);
      hide Image, MovePiece;
      PieceAlike(v, b, m, side, if Slot(b, fx, fy).Piece? then Slot(b, fx, fy).ty else Che, fx, fy, tx, ty);
    }
  }

  lemma BackRankMirrored(x: int)
    requires 0 <= x <= 8
    ensures BackRank(8 - x) == BackRank(x)
  {
  }

  lemma OpeningCellSeen(v: View, x: int, y: int)
    requires On(x, y)
    ensures OpeningCell(v.X(x), v.Y(y)) == v.Cell(OpeningCell(x, y))
  {
    hide BackRank;
    BackRankMirrored(x);
  }

  /** The opening looks the same from both sides and in the mirror. */
  lemma OpeningIsSymmetric(v: View, b: Board)
    requires IsOpening(b)
    ensures Image(v, b, b)
  {
    hide Slot, OpeningCell;
    forall x, y
      ensures SeenAt(v, b, b, x, y)
    {
      if On(x, y) {
        OpeningCellSeen(v, x, y);
      }
    }
  }
}
