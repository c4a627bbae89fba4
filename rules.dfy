/*
 * Movement rules of the seven piece kinds (the is_legal and move_path
 * methods of General, Guard, Elephant, Horse, Chariot, Cannon and Soldier).
 *
 * A rule looks only at the grid, the moving piece's colour and the two
 * squares; it does not ask whether the move leaves the mover's own General
 * in check (the board does that, see Positions.CompositeLegal).
 */
module Rules {
  import opened Locations
  import opened Pieces

  function Abs(x: int): nat
  {
    if x < 0 then -x else x
  }

  function Sq(row: int, col: int): Square
    requires 0 <= row < Rows && 0 <= col < Columns
  {
    Coord(row, col)
  }

  /** No square of `path` holds a piece. */
  predicate PathClear(g: Grid, path: seq<Square>)
  {
    forall i :: 0 <= i < |path| ==> !Occupied(g, path[i])
  }

  // ---------------------------------------------------------------------------
  // General and Guard
  // ---------------------------------------------------------------------------

  /**
   * General.is_legal, and Guard.is_legal, which is the same code: one step
   * to a palace square (either palace) not held by a friend; a diagonal step
   * only from a palace corner to a palace center or back.
   */
  function PalaceMoveLegal(g: Grid, c: Color, from: Square, to: Square): bool
  {
    var dr := to.row - from.row;
    var dc := to.col - from.col;
    if Friendly(g, c, to) then false
    else if !InPalace(to) then false
    else if Abs(dr) > 1 || Abs(dc) > 1 then false
    else if Abs(dr) == 1 && Abs(dc) == 1 then
      if IsCorner(from) then IsCenter(to)
      else if IsCenter(from) then IsCorner(to)
      else false
    else true
  }

  // ---------------------------------------------------------------------------
  // Elephant
  // ---------------------------------------------------------------------------

  predicate ElephantShape(from: Square, to: Square)
  {
    var dr := Abs(to.row - from.row);
    var dc := Abs(to.col - from.col);
    (dr == 3 && dc == 2) || (dr == 2 && dc == 3)
  }

  /** Elephant.move_path: the two squares an Elephant passes over. */
  function ElephantPath(from: Square, to: Square): seq<Square>
    requires ElephantShape(from, to)
  {
    var dr := to.row - from.row;
    var dc := to.col - from.col;
    (if dr == -3 then
       [Sq(from.row - 1, from.col),
        if dc == 2 then Sq(from.row - 2, from.col + 1) else Sq(from.row - 2, from.col - 1)]
     else [])
    + (if dr == 3 then
         [Sq(from.row + 1, from.col),
          if dc == 2 then Sq(from.row + 2, from.col + 1) else Sq(from.row + 2, from.col - 1)]
       else [])
    + (if dc == 3 then
         [Sq(from.row, from.col + 1),
          if dr == 2 then Sq(from.row + 1, from.col + 2) else Sq(from.row - 1, from.col + 2)]
       else [])
    + (if dc == -3 then
         [Sq(from.row, from.col - 1),
          if dr == 2 then Sq(from.row + 1, from.col - 2) else Sq(from.row - 1, from.col - 2)]
       else [])
  }

  /** Elephant.is_legal */
  function ElephantLegal(g: Grid, c: Color, from: Square, to: Square): bool
  {
    if Friendly(g, c, to) then false
    else if ElephantShape(from, to) then PathClear(g, ElephantPath(from, to))
    else false
  }

  // ---------------------------------------------------------------------------
  // Horse
  // ---------------------------------------------------------------------------

  predicate HorseShape(from: Square, to: Square)
  {
    var dr := Abs(to.row - from.row);
    var dc := Abs(to.col - from.col);
    (dr == 2 && dc == 1) || (dr == 1 && dc == 2)
  }

  /** Horse.move_path: the square a Horse passes over. */
  function HorsePath(from: Square, to: Square): seq<Square>
  {
    var dr := to.row - from.row;
    var dc := to.col - from.col;
    (if dr == -2 then [Sq(from.row - 1, from.col)] else [])
    + (if dr == 2 then [Sq(from.row + 1, from.col)] else [])
    + (if dc == 2 then [Sq(from.row, from.col + 1)] else [])
    + (if dc == -2 then [Sq(from.row, from.col - 1)] else [])
  }

  /** Horse.is_legal */
  function HorseLegal(g: Grid, c: Color, from: Square, to: Square): bool
  {
    if Friendly(g, c, to) then false
    else if HorseShape(from, to) then PathClear(g, HorsePath(from, to))
    else false
  }

  // ---------------------------------------------------------------------------
  // Chariot and Cannon
  // ---------------------------------------------------------------------------

  /** The squares of row `from.row` strictly between `from` and column `toCol`, nearest first. */
  function RowBetween(from: Square, toCol: int): seq<Square>
    requires 0 <= toCol < Columns
  {
    if toCol > from.col then
      seq<Square>(toCol - from.col - 1, i requires 0 <= i < toCol - from.col - 1 => Sq(from.row, from.col + 1 + i))
    else if toCol < from.col then
      seq<Square>(from.col - toCol - 1, i requires 0 <= i < from.col - toCol - 1 => Sq(from.row, from.col - 1 - i))
    else []
  }

  /** The squares of column `from.col` strictly between `from` and row `toRow`, nearest first. */
  function ColumnBetween(from: Square, toRow: int): seq<Square>
    requires 0 <= toRow < Rows
  {
    if toRow > from.row then
      seq<Square>(toRow - from.row - 1, i requires 0 <= i < toRow - from.row - 1 => Sq(from.row + 1 + i, from.col))
    else if toRow < from.row then
      seq<Square>(from.row - toRow - 1, i requires 0 <= i < from.row - toRow - 1 => Sq(from.row - 1 - i, from.col))
    else []
  }

  /**
   * Chariot.move_path and Cannon.move_path (the same code): a corner-to-
   * corner diagonal through a palace passes its center; a corner-to-center
   * step passes nothing; otherwise the squares between along the row, then
   * along the column.
   */
  function SlidePath(from: Square, to: Square): seq<Square>
  {
    var dr := to.row - from.row;
    var dc := to.col - from.col;
    if IsCorner(from) && IsCorner(to) && Abs(dr) == Abs(dc) then
      [if IsBlueCorner(from) then E9 else E2]
    else if (IsCorner(from) && IsCenter(to)) || (IsCorner(to) && IsCenter(from)) then
      []
    else
      (if dr == 0 then RowBetween(from, to.col) else [])
      + (if dc == 0 then ColumnBetween(from, to.row) else [])
  }

  /**
   * The diagonal moves a Chariot or Cannon may make: along the diagonals of
   * one palace, from a corner to the facing corner or to the center, or from
   * the center to a corner.
   */
  predicate PalaceDiagonal(from: Square, to: Square)
  {
    if IsCorner(from) then
      (IsBlueCorner(from) && IsBlueCorner(to))
      || (IsBlueCorner(from) && to == E9)
      || (IsRedCorner(from) && IsRedCorner(to))
      || (IsRedCorner(from) && to == E2)
    else if from == E9 then IsBlueCorner(to)
    else if from == E2 then IsRedCorner(to)
    else false
  }

  /** Chariot.is_legal */
  function ChariotLegal(g: Grid, c: Color, from: Square, to: Square): bool
  {
    if Friendly(g, c, to) then false
    else if !PathClear(g, SlidePath(from, to)) then false
    else if from.row != to.row && from.col != to.col then PalaceDiagonal(from, to)
    else true
  }

  /** The number of occupied squares of `path`. */
  function Jumps(g: Grid, path: seq<Square>): nat
  {
    if path == [] then 0
    else (if Occupied(g, path[0]) then 1 else 0) + Jumps(g, path[1..])
  }

  predicate CannonInPath(g: Grid, path: seq<Square>)
  {
    exists i :: 0 <= i < |path| && CannonAt(g, path[i])
  }

  /** Cannon.is_legal */
  function CannonLegal(g: Grid, c: Color, from: Square, to: Square): bool
  {
    if Friendly(g, c, to) then false
    else if CannonAt(g, to) then false
    else
      var path := SlidePath(from, to);
      if Jumps(g, path) != 1 then false
      else if CannonInPath(g, path) then false
      else if from.row != to.row && from.col != to.col then PalaceDiagonal(from, to)
      else true
  }

  // ---------------------------------------------------------------------------
  // Soldier
  // ---------------------------------------------------------------------------

  /** The row step of a forward move: blue advances toward row 1, red toward row 10. */
  function Forward(c: Color): int
  {
    if c == Blue then -1 else 1
  }

  /**
   * Soldier.is_legal: one step sideways or forward; a diagonal step only
   * along a palace diagonal toward the far edge (d3/f3 to e2, e2 to d1/f1,
   * d8/f8 to e9, e9 to d10/f10), whatever the soldier's colour.
   */
  function SoldierLegal(g: Grid, c: Color, from: Square, to: Square): bool
  {
    var dr := to.row - from.row;
    var dc := to.col - from.col;
    if Friendly(g, c, to) then false
    else if from.row == to.row && Abs(dc) != 1 then false
    else if from.col == to.col && dr != Forward(c) then false
    else if from.row != to.row && from.col != to.col then
      if from == D3 || from == F3 then to == E2
      else if from == E2 then to == D1 || to == F1
      else if from == D8 || from == F8 then to == E9
      else if from == E9 then to == D10 || to == F10
      else false
    else true
  }

  // ---------------------------------------------------------------------------
  // Dispatch on the piece kind
  // ---------------------------------------------------------------------------

  /** piece.is_legal(source, destination) for a piece of kind and colour `pc`. */
  function PieceLegal(g: Grid, pc: Piece, from: Square, to: Square): (legal: bool)
    ensures legal ==> !Friendly(g, pc.color, to)
    ensures legal && pc.kind == Elephant ==> ElephantShape(from, to)
  {
    match pc.kind
    case General => PalaceMoveLegal(g, pc.color, from, to)
    case Guard => PalaceMoveLegal(g, pc.color, from, to)
    case Elephant => ElephantLegal(g, pc.color, from, to)
    case Horse => HorseLegal(g, pc.color, from, to)
    case Chariot => ChariotLegal(g, pc.color, from, to)
    case Cannon => CannonLegal(g, pc.color, from, to)
    case Soldier => SoldierLegal(g, pc.color, from, to)
  }

  /** piece.move_path(source, destination): the squares passed over, nearest first. */
  function MovePath(pc: Piece, from: Square, to: Square): seq<Square>
    requires pc.kind == Elephant ==> ElephantShape(from, to)
  {
    match pc.kind
    case General => []
    case Guard => []
    case Elephant => ElephantPath(from, to)
    case Horse => HorsePath(from, to)
    case Chariot => SlidePath(from, to)
    case Cannon => SlidePath(from, to)
    case Soldier => []
  }
}
