/*
 * Properties of the movement rules, each stated independently of the way
 * the rule is computed: where a palace piece may go, the shape of the
 * squares an Elephant or Horse passes, what a straight Chariot or Cannon
 * move needs of the squares in between, and which way a Soldier steps.
 */
module RuleFacts {
  import opened Locations
  import opened Pieces
  import opened Rules

  function Min(a: int, b: int): int { if a < b then a else b }
  function Max(a: int, b: int): int { if a < b then b else a }

  /** `x` lies on the straight line from `a` to `b`, strictly between them. */
  predicate StrictlyBetween(a: Square, x: Square, b: Square)
  {
    (x.row == a.row && a.row == b.row && Min(a.col, b.col) < x.col < Max(a.col, b.col))
    || (x.col == a.col && a.col == b.col && Min(a.row, b.row) < x.row < Max(a.row, b.row))
  }

  /** `a` and `b` are orthogonal neighbours. */
  predicate OrthogonalStep(a: Square, b: Square)
  {
    Abs(b.row - a.row) + Abs(b.col - a.col) == 1
  }

  /** `a` and `b` are diagonal neighbours. */
  predicate DiagonalStep(a: Square, b: Square)
  {
    Abs(b.row - a.row) == 1 && Abs(b.col - a.col) == 1
  }

  // ---------------------------------------------------------------------------
  // General and Guard
  // ---------------------------------------------------------------------------

  /**
   * A General or Guard move ends inside a palace, one step away; a
   * diagonal step joins a palace corner and a palace center.
   */
  lemma PalaceMoveConfined(g: Grid, c: Color, from: Square, to: Square)
    requires PalaceMoveLegal(g, c, from, to)
    ensures !Friendly(g, c, to) && InPalace(to)
    ensures Abs(to.row - from.row) <= 1 && Abs(to.col - from.col) <= 1
    ensures DiagonalStep(from, to) ==> (IsCorner(from) && IsCenter(to)) || (IsCenter(from) && IsCorner(to))
  {
  }

  /**
   * A General or Guard standing in a palace can always retrace a step it
   * may take: the palace step relation is symmetric.
   */
  lemma PalaceMoveReversible(g: Grid, c: Color, from: Square, to: Square)
    requires InPalace(from) && !Friendly(g, c, from)
    requires PalaceMoveLegal(g, c, from, to)
    ensures PalaceMoveLegal(g, c, to, from)
  {
  }

  // ---------------------------------------------------------------------------
  // Elephant and Horse
  // ---------------------------------------------------------------------------

  /**
   * An Elephant passes first the orthogonal neighbour on the long axis,
   * then one diagonal step further, and reaches the destination with a
   * second diagonal step in the same direction.
   */
  lemma ElephantPathIsWalk(from: Square, to: Square)
    requires ElephantShape(from, to)
    ensures var path := ElephantPath(from, to);
      |path| == 2
      && OrthogonalStep(from, path[0]) && DiagonalStep(path[0], path[1]) && DiagonalStep(path[1], to)
      && path[1].row - path[0].row == to.row - path[1].row
      && path[1].col - path[0].col == to.col - path[1].col
  {
  }

  /** A Horse passes the orthogonal neighbour on the long axis and reaches the destination with one diagonal step. */
  lemma HorsePathIsWalk(from: Square, to: Square)
    requires HorseShape(from, to)
    ensures var path := HorsePath(from, to);
      |path| == 1 && OrthogonalStep(from, path[0]) && DiagonalStep(path[0], to)
  {
  }

  // ---------------------------------------------------------------------------
  // Chariot and Cannon
  // ---------------------------------------------------------------------------

  /** No palace corner shares a row or a column with a palace center. */
  lemma CornerCenterNotAligned(a: Square, b: Square)
    requires IsCorner(a) && IsCenter(b)
    ensures a.row != b.row && a.col != b.col
  {
  }

  /** The row squares between `from` and column `toCol` are exactly those strictly between, each once. */
  lemma RowBetweenMembers(from: Square, toCol: int)
    requires 0 <= toCol < Columns
    ensures forall sq: Square :: sq in RowBetween(from, toCol) <==>
      sq.row == from.row && Min(from.col, toCol) < sq.col < Max(from.col, toCol)
    ensures var path := RowBetween(from, toCol);
      forall i, j :: 0 <= i < j < |path| ==> path[i] != path[j]
    ensures var path := RowBetween(from, toCol);
      forall i :: 0 <= i < |path| ==> path[i].row == from.row && Abs(path[i].col - from.col) == i + 1
  {
    var path := RowBetween(from, toCol);
    if toCol > from.col {
      assert forall i :: 0 <= i < |path| ==> path[i] == Sq(from.row, from.col + 1 + i);
    } else if toCol < from.col {
      assert forall i :: 0 <= i < |path| ==> path[i] == Sq(from.row, from.col - 1 - i);
    }
    forall sq: Square | sq.row == from.row && Min(from.col, toCol) < sq.col < Max(from.col, toCol)
      ensures sq in path
    {
      if toCol > from.col {
        var i := sq.col - from.col - 1;
        assert |path| == toCol - from.col - 1;
        assert path[i] == Sq(from.row, from.col + 1 + i);
      } else {
        var i := from.col - 1 - sq.col;
        assert |path| == from.col - toCol - 1;
        assert path[i] == Sq(from.row, from.col - 1 - i);
      }
    }
  }

  /** The column squares between `from` and row `toRow` are exactly those strictly between, each once. */
  lemma ColumnBetweenMembers(from: Square, toRow: int)
    requires 0 <= toRow < Rows
    ensures forall sq: Square :: sq in ColumnBetween(from, toRow) <==>
      sq.col == from.col && Min(from.row, toRow) < sq.row < Max(from.row, toRow)
    ensures var path := ColumnBetween(from, toRow);
      forall i, j :: 0 <= i < j < |path| ==> path[i] != path[j]
    ensures var path := ColumnBetween(from, toRow);
      forall i :: 0 <= i < |path| ==> path[i].col == from.col && Abs(path[i].row - from.row) == i + 1
  {
    var path := ColumnBetween(from, toRow);
    if toRow > from.row {
      assert forall i :: 0 <= i < |path| ==> path[i] == Sq(from.row + 1 + i, from.col);
    } else if toRow < from.row {
      assert forall i :: 0 <= i < |path| ==> path[i] == Sq(from.row - 1 - i, from.col);
    }
    forall sq: Square | sq.col == from.col && Min(from.row, toRow) < sq.row < Max(from.row, toRow)
      ensures sq in path
    {
      if toRow > from.row {
        var i := sq.row - from.row - 1;
        assert |path| == toRow - from.row - 1;
        assert path[i] == Sq(from.row + 1 + i, from.col);
      } else {
        var i := from.row - 1 - sq.row;
        assert |path| == from.row - toRow - 1;
        assert path[i] == Sq(from.row - 1 - i, from.col);
      }
    }
  }

  /**
   * On a straight move, the slide path holds exactly the squares strictly
   * between source and destination, each once.
   */
  lemma SlidePathStraight(from: Square, to: Square)
    requires from != to && (from.row == to.row || from.col == to.col)
    ensures forall sq: Square :: sq in SlidePath(from, to) <==> StrictlyBetween(from, sq, to)
    ensures var path := SlidePath(from, to);
      forall i, j :: 0 <= i < j < |path| ==> path[i] != path[j]
    ensures var path := SlidePath(from, to);
      forall i :: 0 <= i < |path| ==> Abs(path[i].row - from.row) + Abs(path[i].col - from.col) == i + 1
  {
    if IsCorner(from) && IsCenter(to) {
      CornerCenterNotAligned(from, to);
    }
    if IsCorner(to) && IsCenter(from) {
      CornerCenterNotAligned(to, from);
    }
    if from.row == to.row {
      assert SlidePath(from, to) == RowBetween(from, to.col);
      RowBetweenMembers(from, to.col);
    } else {
      assert SlidePath(from, to) == ColumnBetween(from, to.row);
      ColumnBetweenMembers(from, to.row);
    }
  }

  /** A straight Chariot move is legal exactly when no friend holds the destination and nothing stands between. */
  lemma ChariotStraight(g: Grid, c: Color, from: Square, to: Square)
    requires from != to && (from.row == to.row || from.col == to.col)
    ensures ChariotLegal(g, c, from, to) <==>
      !Friendly(g, c, to) && forall sq: Square :: StrictlyBetween(from, sq, to) ==> !Occupied(g, sq)
  {
    SlidePathStraight(from, to);
    var path := SlidePath(from, to);
    if forall sq: Square :: StrictlyBetween(from, sq, to) ==> !Occupied(g, sq) {
      assert PathClear(g, path) by {
        forall i | 0 <= i < |path|
          ensures !Occupied(g, path[i])
        {
          assert path[i] in path;
        }
      }
    }
  }

  /** Nothing on `path` is occupied exactly when no piece is counted on it. */
  lemma {:induction false} JumpsZero(g: Grid, path: seq<Square>)
    ensures Jumps(g, path) == 0 <==> PathClear(g, path)
    decreases |path|
  {
    if path != [] {
      JumpsZero(g, path[1..]);
      if PathClear(g, path[1..]) && !Occupied(g, path[0]) {
        forall i | 0 <= i < |path|
          ensures !Occupied(g, path[i])
        {
          if i > 0 {
            assert path[i] == path[1..][i - 1];
          }
        }
      }
    }
  }

  /** A path has one piece on it when exactly one of its positions is occupied. */
  predicate OneOccupied(g: Grid, path: seq<Square>, i: int)
  {
    0 <= i < |path| && Occupied(g, path[i])
    && forall j :: 0 <= j < |path| && j != i ==> !Occupied(g, path[j])
  }

  /** Exactly one piece is counted on `path` when exactly one of its positions is occupied. */
  lemma {:induction false} JumpsOne(g: Grid, path: seq<Square>)
    ensures Jumps(g, path) == 1 <==> exists i :: OneOccupied(g, path, i)
    decreases |path|
  {
    if path == [] {
      return;
    }
    var rest := path[1..];
    JumpsZero(g, rest);
    JumpsOne(g, rest);
    if Occupied(g, path[0]) {
      if Jumps(g, path) == 1 {
        assert PathClear(g, rest);
        forall j | 0 <= j < |path| && j != 0
          ensures !Occupied(g, path[j])
        {
          assert path[j] == rest[j - 1];
        }
        assert OneOccupied(g, path, 0);
      }
      if exists i :: OneOccupied(g, path, i) {
        var i :| OneOccupied(g, path, i);
        assert i == 0;
        forall j | 0 <= j < |rest|
          ensures !Occupied(g, rest[j])
        {
          assert rest[j] == path[j + 1];
        }
      }
    } else {
      if Jumps(g, path) == 1 {
        var k :| OneOccupied(g, rest, k);
        forall j | 0 <= j < |path| && j != k + 1
          ensures !Occupied(g, path[j])
        {
          if j > 0 {
            assert path[j] == rest[j - 1];
          }
        }
        assert OneOccupied(g, path, k + 1);
      }
      if exists i :: OneOccupied(g, path, i) {
        var i :| OneOccupied(g, path, i);
        assert i != 0;
        forall j | 0 <= j < |rest| && j != i - 1
          ensures !Occupied(g, rest[j])
        {
          assert rest[j] == path[j + 1];
        }
        assert OneOccupied(g, rest, i - 1);
      }
    }
  }

  /** `sq` is the one piece standing strictly between `from` and `to`. */
  ghost predicate OnlyScreen(g: Grid, from: Square, to: Square, sq: Square)
  {
    StrictlyBetween(from, sq, to) && Occupied(g, sq)
    && forall other: Square :: StrictlyBetween(from, other, to) && Occupied(g, other) ==> other == sq
  }

  /**
   * A straight Cannon move is legal exactly when the destination holds
   * neither a friend nor a Cannon, and exactly one piece stands between,
   * which is not a Cannon.
   */
  lemma CannonStraight(g: Grid, c: Color, from: Square, to: Square)
    requires from != to && (from.row == to.row || from.col == to.col)
    ensures CannonLegal(g, c, from, to) <==>
      !Friendly(g, c, to) && !CannonAt(g, to)
      && exists sq: Square :: OnlyScreen(g, from, to, sq) && !CannonAt(g, sq)
  {
    if CannonLegal(g, c, from, to) {
      CannonScreenFound(g, c, from, to);
    }
    if !Friendly(g, c, to) && !CannonAt(g, to) && exists sq: Square :: OnlyScreen(g, from, to, sq) && !CannonAt(g, sq) {
      var sq: Square :| OnlyScreen(g, from, to, sq) && !CannonAt(g, sq);
      CannonScreenSuffices(g, c, from, to, sq);
    }
  }

  /** A legal straight Cannon move has a screen: the one piece between, which is not a Cannon. */
  lemma CannonScreenFound(g: Grid, c: Color, from: Square, to: Square)
    requires from != to && (from.row == to.row || from.col == to.col)
    requires CannonLegal(g, c, from, to)
    ensures !Friendly(g, c, to) && !CannonAt(g, to)
    ensures exists sq: Square :: OnlyScreen(g, from, to, sq) && !CannonAt(g, sq)
  {
    SlidePathStraight(from, to);
    JumpsOne(g, SlidePath(from, to));
    var path := SlidePath(from, to);
    var i :| OneOccupied(g, path, i);
    var sq := path[i];
    forall other: Square | StrictlyBetween(from, other, to) && Occupied(g, other)
      ensures other == sq
    {
      var j :| 0 <= j < |path| && path[j] == other;
    }
    assert OnlyScreen(g, from, to, sq) && !CannonAt(g, sq);
  }

  /** A straight Cannon move over exactly one piece, not a Cannon, onto neither a friend nor a Cannon is legal. */
  lemma CannonScreenSuffices(g: Grid, c: Color, from: Square, to: Square, sq: Square)
    requires from != to && (from.row == to.row || from.col == to.col)
    requires !Friendly(g, c, to) && !CannonAt(g, to) && OnlyScreen(g, from, to, sq) && !CannonAt(g, sq)
    ensures CannonLegal(g, c, from, to)
  {
    SlidePathStraight(from, to);
    JumpsOne(g, SlidePath(from, to));
    var path := SlidePath(from, to);
    var i :| 0 <= i < |path| && path[i] == sq;
    forall j | 0 <= j < |path| && j != i
      ensures !Occupied(g, path[j])
    {
      assert path[j] in path;
    }
    assert OneOccupied(g, path, i);
    forall j | 0 <= j < |path|
      ensures !CannonAt(g, path[j])
    {
      assert path[j] in path;
    }
  }

  /**
   * A diagonal Chariot or Cannon move starts and ends in the same palace:
   * both squares in red's palace or both in blue's.
   */
  lemma SlideDiagonalStaysInPalace(g: Grid, c: Color, from: Square, to: Square)
    requires ChariotLegal(g, c, from, to) || CannonLegal(g, c, from, to)
    requires from.row != to.row && from.col != to.col
    ensures InPalace(from) && InPalace(to)
    ensures (from.row <= 2 && to.row <= 2) || (from.row >= 7 && to.row >= 7)
  {
  }

  // ---------------------------------------------------------------------------
  // Soldier
  // ---------------------------------------------------------------------------

  /**
   * A Soldier moves one square: sideways, or straight forward for its
   * colour (never straight back), or along a palace diagonal toward the far
   * edge of the board.
   */
  lemma SoldierStep(g: Grid, c: Color, from: Square, to: Square)
    requires SoldierLegal(g, c, from, to)
    ensures !Friendly(g, c, to)
    ensures Abs(to.row - from.row) <= 1 && Abs(to.col - from.col) <= 1
    ensures from.col == to.col ==> to.row - from.row == Forward(c)
    ensures from.row != to.row && from.col != to.col ==>
      InPalace(from) && InPalace(to) && DiagonalStep(from, to) && Abs(to.row - 4) > Abs(from.row - 4)
    ensures from.row != to.row && from.col != to.col ==>
      ((from == D3 || from == F3) && to == E2) || (from == E2 && (to == D1 || to == F1))
      || ((from == D8 || from == F8) && to == E9) || (from == E9 && (to == D10 || to == F10))
  {
  }

  /**
   * The palace diagonals are open to Soldiers of both colours: a red
   * Soldier on d3 may step to e2, back toward its own side.
   */
  lemma SoldierDiagonalIgnoresColor(g: Grid)
    requires !Friendly(g, Red, E2)
    ensures SoldierLegal(g, Red, D3, E2)
    ensures E2.row - D3.row == -Forward(Red)
  {
  }
}
