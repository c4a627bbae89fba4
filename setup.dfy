/*
 * The opening position (Board.initialize_board): the layout of the 32
 * pieces, and the carts, which list each player's pieces in row-major
 * order of the grid, as the setup loop visits them.
 */
module Setup {
  import opened Locations
  import opened Pieces
  import opened Rules
  import opened Positions

  /** The opening layout, row by row; piece identities are as in `PieceOf`. */
  function OpeningCell(row: int, column: int): Option<Id>
    requires 0 <= row < Rows && 0 <= column < Columns
  {
    if row == 0 then [Some(0), Some(1), Some(2), Some(3), None, Some(4), Some(5), Some(6), Some(7)][column]
    else if row == 1 then (if column == 4 then Some(8) else None)
    else if row == 2 then (if column == 1 then Some(9) else if column == 7 then Some(10) else None)
    else if row == 3 then [Some(11), None, Some(12), None, Some(13), None, Some(14), None, Some(15)][column]
    else if row == 6 then [Some(16), None, Some(17), None, Some(18), None, Some(19), None, Some(20)][column]
    else if row == 7 then (if column == 1 then Some(21) else if column == 7 then Some(22) else None)
    else if row == 8 then (if column == 4 then Some(23) else None)
    else if row == 9 then [Some(24), Some(25), Some(26), Some(27), None, Some(28), Some(29), Some(30), Some(31)][column]
    else None
  }

  /** The square each piece is created on. */
  function OpeningSquare(id: Id): Square
  {
    [Coord(0, 0), Coord(0, 1), Coord(0, 2), Coord(0, 3), Coord(0, 5), Coord(0, 6), Coord(0, 7), Coord(0, 8),
     Coord(1, 4), Coord(2, 1), Coord(2, 7),
     Coord(3, 0), Coord(3, 2), Coord(3, 4), Coord(3, 6), Coord(3, 8),
     Coord(6, 0), Coord(6, 2), Coord(6, 4), Coord(6, 6), Coord(6, 8),
     Coord(7, 1), Coord(7, 7), Coord(8, 4),
     Coord(9, 0), Coord(9, 1), Coord(9, 2), Coord(9, 3), Coord(9, 5), Coord(9, 6), Coord(9, 7), Coord(9, 8)][id]
  }

  /** The opening grid. */
  function InitialGrid(): (g: Grid)
    ensures forall sq: Square :: Get(g, sq) == OpeningCell(sq.row, sq.col)
  {
    seq(Rows, r requires 0 <= r < Rows => seq(Columns, c requires 0 <= c < Columns => OpeningCell(r, c)))
  }

  /** The opening locations, by identity. */
  function InitialLoc(): (loc: Locs)
    ensures forall id: Id :: loc[id] == OpeningSquare(id)
  {
    seq(PieceCount, id requires 0 <= id < PieceCount => OpeningSquare(id))
  }

  // ---------------------------------------------------------------------------
  // Row-major listing of a grid
  // ---------------------------------------------------------------------------

  function CellIds(x: Option<Id>): seq<Id>
  {
    if x.Some? then [x.value] else []
  }

  /** The pieces in the first `c` cells of a row, left to right. */
  function RowPrefix(row: seq<Option<Id>>, c: nat): seq<Id>
    requires c <= |row|
  {
    if c == 0 then [] else RowPrefix(row, c - 1) + CellIds(row[c - 1])
  }

  /** The pieces in the first `r` rows of the grid, in row-major order. */
  function GridPrefix(g: Grid, r: nat): seq<Id>
    requires r <= Rows
  {
    if r == 0 then [] else GridPrefix(g, r - 1) + RowPrefix(g[r - 1], Columns)
  }

  /** The pieces of colour `c` in `s`, in order. */
  function OfColor(s: seq<Id>, c: Color): seq<Id>
  {
    if s == [] then []
    else OfColor(s[..|s| - 1], c) + (if ColorOf(s[|s| - 1]) == c then [s[|s| - 1]] else [])
  }

  /** The opening position: carts list each player's pieces in row-major order. */
  function InitialPosition(): Position
  {
    Listing(InitialGrid(), InitialLoc())
  }

  // ---------------------------------------------------------------------------
  // Counting the listing
  // ---------------------------------------------------------------------------

  /** Every piece on `g` is at the square `loc` records for it. */
  ghost predicate Placed(g: Grid, loc: Locs)
  {
    forall sq: Square :: Get(g, sq).Some? ==> loc[Get(g, sq).value] == sq
  }

  /** `id` stands nowhere on `g` but at the square `loc` records for it. */
  ghost predicate PlacedAt(g: Grid, loc: Locs, id: Id)
  {
    forall sq: Square :: Get(g, sq) == Some(id) ==> loc[id] == sq
  }

  /** A placed grid places each piece. */
  lemma PlacedOne(g: Grid, loc: Locs, id: Id)
    requires Placed(g, loc)
    ensures PlacedAt(g, loc, id)
  {
  }

  /** A row prefix lists `id` once when `id` stands in it and not at all otherwise. */
  lemma RowPrefixCount(g: Grid, loc: Locs, r: int, c: nat, id: Id)
    requires PlacedAt(g, loc, id) && 0 <= r < Rows && c <= Columns
    ensures multiset(RowPrefix(g[r], c))[id] == if Get(g, loc[id]) == Some(id) && loc[id].row == r && loc[id].col < c then 1 else 0
  {
    var k := if loc[id].row == r then loc[id].col else -1;
    forall j | 0 <= j < |g[r]| && g[r][j] == Some(id)
      ensures j == k
    {
      var sq: Square := Coord(r, j);
      assert Get(g, sq) == Some(id);
    }
    RowCount(g[r], c, id, k);
  }

  /** A row in which `id` can stand only in column `k` lists it once when that cell is visited and holds it. */
  lemma {:induction false} RowCount(row: seq<Option<Id>>, c: nat, id: Id, k: int)
    requires c <= |row|
    requires forall j :: 0 <= j < |row| && row[j] == Some(id) ==> j == k
    ensures multiset(RowPrefix(row, c))[id] == if 0 <= k < c && 0 <= k < |row| && row[k] == Some(id) then 1 else 0
    decreases c
  {
    if c > 0 {
      RowCount(row, c - 1, id, k);
      RowCountStep(row, c, id, k);
    }
  }

  /** The step of RowCount: from the count of the first `c - 1` cells to that of the first `c`. */
  lemma RowCountStep(row: seq<Option<Id>>, c: nat, id: Id, k: int)
    requires 0 < c <= |row|
    requires forall j :: 0 <= j < |row| && row[j] == Some(id) ==> j == k
    requires multiset(RowPrefix(row, c - 1))[id] == if 0 <= k < c - 1 && 0 <= k < |row| && row[k] == Some(id) then 1 else 0
    ensures multiset(RowPrefix(row, c))[id] == if 0 <= k < c && 0 <= k < |row| && row[k] == Some(id) then 1 else 0
  {
    RowPrefixCellCount(row, c, id);
    assert row[c - 1] == Some(id) ==> c - 1 == k;
    CellStep(multiset(RowPrefix(row, c))[id], multiset(RowPrefix(row, c - 1))[id],
             row[c - 1] == Some(id), 0 <= k < |row| && row[k] == Some(id), k, c);
  }

  /** Visiting one more cell counts its piece. */
  lemma RowPrefixCellCount(row: seq<Option<Id>>, c: nat, id: Id)
    requires 0 < c <= |row|
    ensures multiset(RowPrefix(row, c))[id] == multiset(RowPrefix(row, c - 1))[id] + (if row[c - 1] == Some(id) then 1 else 0)
  {
    var before: seq<Id> := RowPrefix(row, c - 1);
    assert RowPrefix(row, c) == before + CellIds(row[c - 1]);
    CellCount(before, row[c - 1], id);
  }

  /** The arithmetic of visiting cell `c - 1` when the piece can stand only in column `k`. */
  lemma CellStep(total: int, before: int, here: bool, atK: bool, k: int, c: int)
    requires 0 < c
    requires total == before + (if here then 1 else 0)
    requires before == if 0 <= k < c - 1 && atK then 1 else 0
    requires here ==> k == c - 1
    requires k == c - 1 ==> here == atK
    ensures total == if 0 <= k < c && atK then 1 else 0
  {
  }

  /** Appending a cell's piece adds one copy of that piece. */
  lemma CellCount(s: seq<Id>, x: Option<Id>, id: Id)
    ensures multiset(s + CellIds(x))[id] == multiset(s)[id] + (if x == Some(id) then 1 else 0)
  {
  }

  /** A grid prefix lists `id` once when `id` stands in it and not at all otherwise. */
  lemma {:induction false} GridPrefixCount(g: Grid, loc: Locs, r: nat, id: Id)
    requires PlacedAt(g, loc, id) && r <= Rows
    ensures multiset(GridPrefix(g, r))[id] == if Get(g, loc[id]) == Some(id) && loc[id].row < r then 1 else 0
    decreases r
  {
    if r > 0 {
      GridPrefixCount(g, loc, r - 1, id);
      GridPrefixRowStep(g, loc, r, id);
      var sq := loc[id];
      CountStep(multiset(GridPrefix(g, r))[id], multiset(GridPrefix(g, r - 1))[id], Get(g, sq) == Some(id), sq.row, r);
    }
  }

  /** Visiting row `r - 1` counts `id` once when it stands on that row. */
  lemma GridPrefixRowStep(g: Grid, loc: Locs, r: nat, id: Id)
    requires PlacedAt(g, loc, id) && 0 < r <= Rows
    ensures multiset(GridPrefix(g, r))[id]
      == multiset(GridPrefix(g, r - 1))[id] + (if Get(g, loc[id]) == Some(id) && loc[id].row == r - 1 then 1 else 0)
  {
    RowPrefixCount(g, loc, r - 1, Columns, id);
    GridPrefixRowCount(g, r, id);
  }

  /** The arithmetic of adding one row's count to a prefix's count. */
  lemma CountStep(total: int, before: int, here: bool, r0: int, r: int)
    requires total == before + (if here && r0 == r - 1 then 1 else 0)
    requires before == if here && r0 < r - 1 then 1 else 0
    ensures total == if here && r0 < r then 1 else 0
  {
  }

  /** A grid prefix counts `id` as often as the shorter prefix and the added row together. */
  lemma GridPrefixRowCount(g: Grid, r: nat, id: Id)
    requires 0 < r <= Rows
    ensures multiset(GridPrefix(g, r))[id] == multiset(GridPrefix(g, r - 1))[id] + multiset(RowPrefix(g[r - 1], Columns))[id]
  {
    var before: seq<Id>, row: seq<Id> := GridPrefix(g, r - 1), RowPrefix(g[r - 1], Columns);
    assert GridPrefix(g, r) == before + row;
    assert multiset(before + row) == multiset(before) + multiset(row);
  }

  /** Filtering by colour keeps exactly the copies of that colour. */
  lemma {:induction false} OfColorCount(s: seq<Id>, c: Color, id: Id)
    ensures multiset(OfColor(s, c))[id] == if ColorOf(id) == c then multiset(s)[id] else 0
    decreases |s|
  {
    if s != [] {
      OfColorCount(s[..|s| - 1], c, id);
      assert s == s[..|s| - 1] + [s[|s| - 1]];
    }
  }

  /** Appending one cell to a listing appends its piece to the matching colour's list. */
  lemma OfColorAppend(s: seq<Id>, x: Option<Id>, c: Color)
    ensures OfColor(s + CellIds(x), c) == OfColor(s, c) + (if x.Some? && ColorOf(x.value) == c then [x.value] else [])
  {
    if x.Some? {
      assert (s + [x.value])[..|s|] == s;
    } else {
      assert s + [] == s;
    }
  }

  /** One cell's piece, listed for colour `c` when it has that colour. */
  lemma CellColor(x: Option<Id>, c: Color)
    ensures OfColor(CellIds(x), c) == if x.Some? && ColorOf(x.value) == c then [x.value] else []
  {
    OfColorAppend([], x, c);
    assert [] + CellIds(x) == CellIds(x);
  }

  /** Visiting one more cell of a row appends its piece, if of colour `c`, to a cart that lists the row so far. */
  lemma RowStep(cart: seq<Id>, row: seq<Option<Id>>, column: nat, c: Color)
    requires column < |row|
    ensures cart + OfColor(RowPrefix(row, column + 1), c) == (cart + OfColor(RowPrefix(row, column), c)) + OfColor(CellIds(row[column]), c)
  {
    OfColorAppend(RowPrefix(row, column), row[column], c);
    CellColor(row[column], c);
  }

  /** Filtering by colour distributes over concatenation. */
  lemma {:induction false} OfColorConcat(s: seq<Id>, t: seq<Id>, c: Color)
    ensures OfColor(s + t, c) == OfColor(s, c) + OfColor(t, c)
    decreases |t|
  {
    if t == [] {
      assert s + t == s;
    } else {
      var t0 := t[..|t| - 1];
      OfColorConcat(s, t0, c);
      assert (s + t)[..|s + t| - 1] == s + t0;
    }
  }

  /** Visiting one more row appends its pieces of colour `c` to a cart that lists the rows so far. */
  lemma GridStep(cart: seq<Id>, g: Grid, row: nat, c: Color)
    requires row < Rows
    ensures cart + OfColor(GridPrefix(g, row + 1), c) == (cart + OfColor(GridPrefix(g, row), c)) + OfColor(RowPrefix(g[row], Columns), c)
  {
    OfColorConcat(GridPrefix(g, row), RowPrefix(g[row], Columns), c);
  }

  /** The position whose carts list the pieces of a grid in row-major order. */
  function Listing(g: Grid, loc: Locs): Position
  {
    var all := GridPrefix(g, Rows);
    Position(g, loc, None, OfColor(all, Blue), OfColor(all, Red))
  }

  lemma ListingFields(g: Grid, loc: Locs)
    ensures Listing(g, loc).grid == g && Listing(g, loc).loc == loc && Listing(g, loc).temp == None
  {
  }

  /** A row-major listing holds a placed piece exactly when it stands on the grid, and at most once per cart. */
  lemma ListingPiece(g: Grid, loc: Locs, id: Id)
    requires PlacedAt(g, loc, id)
    ensures Held(Listing(g, loc), id) <==> OnBoard(Listing(g, loc), id)
    ensures multiset(Listing(g, loc).blue)[id] <= 1 && multiset(Listing(g, loc).red)[id] <= 1
  {
    var all := GridPrefix(g, Rows);
    var p := Listing(g, loc);
    GridPrefixCount(g, loc, Rows, id);
    OfColorCount(all, Blue, id);
    OfColorCount(all, Red, id);
    assert id in Cart(p, ColorOf(id)) <==> multiset(Cart(p, ColorOf(id)))[id] > 0;
  }

  /** The carts of a row-major listing make a consistent position. */
  lemma ListingValid(g: Grid, loc: Locs)
    requires Placed(g, loc)
    ensures Valid(Listing(g, loc))
  {
    var all := GridPrefix(g, Rows);
    var p := Listing(g, loc);
    forall id: Id
      ensures (Held(p, id) <==> OnBoard(p, id)) && multiset(p.blue)[id] <= 1 && multiset(p.red)[id] <= 1
    {
      PlacedOne(g, loc, id);
      ListingPiece(g, loc, id);
    }
    forall c: Color, id: Id | id in Cart(p, c)
      ensures ColorOf(id) == c
    {
      OfColorCount(all, c, id);
      assert multiset(Cart(p, c))[id] > 0;
    }
  }

  /** A listing holds both Generals when both stand on the grid. */
  lemma ListingGenerals(g: Grid, loc: Locs)
    requires Placed(g, loc)
    requires Get(g, loc[GeneralId(Blue)]) == Some(GeneralId(Blue))
    requires Get(g, loc[GeneralId(Red)]) == Some(GeneralId(Red))
    ensures Valid(Listing(g, loc)) && HasGenerals(Listing(g, loc))
  {
    ListingValid(g, loc);
    var p := Listing(g, loc);
    assert OnBoard(p, GeneralId(Blue)) && OnBoard(p, GeneralId(Red));
    assert Held(p, GeneralId(Blue)) && Held(p, GeneralId(Red));
  }

  // ---------------------------------------------------------------------------
  // The opening position
  // ---------------------------------------------------------------------------

  /** Every piece of the opening grid is at the square recorded for it. */
  lemma InitialPlaced()
    ensures Placed(InitialGrid(), InitialLoc())
  {
    forall sq: Square | Get(InitialGrid(), sq).Some?
      ensures InitialLoc()[Get(InitialGrid(), sq).value] == sq
    {
      InitialCell(sq.row, sq.col);
    }
  }

  /** Each cell of the opening layout holds the piece whose opening square it is. */
  lemma InitialCell(r: int, c: int)
    requires 0 <= r < Rows && 0 <= c < Columns
    ensures InitialGrid()[r][c].Some? ==> InitialLoc()[InitialGrid()[r][c].value] == Coord(r, c)
  {
    assert InitialGrid()[r][c] == OpeningCell(r, c) by {
      assert Get(InitialGrid(), Coord(r, c)) == OpeningCell(r, c);
    }
    OpeningCellSquare(r, c);
  }

  /** The piece on an opening cell was created on that cell. */
  lemma OpeningCellSquare(r: int, c: int)
    requires 0 <= r < Rows && 0 <= c < Columns
    ensures OpeningCell(r, c).Some? ==> OpeningSquare(OpeningCell(r, c).value) == Coord(r, c)
  {
    if r < 5 {
      RedCellSquare(r, c);
    } else {
      BlueCellSquare(r, c);
    }
  }

  /** OpeningCellSquare on rows 1 to 5. */
  lemma RedCellSquare(r: int, c: int)
    requires 0 <= r < 5 && 0 <= c < Columns
    ensures OpeningCell(r, c).Some? ==> OpeningSquare(OpeningCell(r, c).value) == Coord(r, c)
  {
  }

  /** OpeningCellSquare on rows 6 to 10. */
  lemma BlueCellSquare(r: int, c: int)
    requires 5 <= r < Rows && 0 <= c < Columns
    ensures OpeningCell(r, c).Some? ==> OpeningSquare(OpeningCell(r, c).value) == Coord(r, c)
  {
  }

  /** Every piece stands on the opening grid at the square recorded for it. */
  lemma InitialAllOnBoard(id: Id)
    ensures Get(InitialGrid(), InitialLoc()[id]) == Some(id)
  {
    OpeningSquareCell(id);
  }

  lemma OpeningSquareCell(id: Id)
    ensures OpeningCell(OpeningSquare(id).row, OpeningSquare(id).col) == Some(id)
  {
    if id < 8 {
    } else if id < 16 {
    } else if id < 24 {
    } else {
    }
  }

  /** The opening position is consistent, with both Generals in play. */
  lemma InitialValid()
    ensures Valid(InitialPosition()) && HasGenerals(InitialPosition())
  {
    InitialPlaced();
    InitialAllOnBoard(GeneralId(Blue));
    InitialAllOnBoard(GeneralId(Red));
    ListingGenerals(InitialGrid(), InitialLoc());
  }

  /** The red General opens on e2 and the blue General on e9. */
  lemma InitialGeneralSquares()
    ensures InitialLoc()[GeneralId(Red)] == E2 && InitialLoc()[GeneralId(Blue)] == E9
  {
  }

  /**
   * No piece reaches a square four or more rows away, except a Chariot or
   * Cannon sliding along a column or a palace diagonal.
   */
  lemma OutOfReach(g: Grid, pc: Piece, from: Square, to: Square)
    requires Abs(to.row - from.row) >= 4
    requires from.col == to.col ==> pc.kind != Chariot && pc.kind != Cannon
    requires !PalaceDiagonal(from, to)
    ensures !PieceLegal(g, pc, from, to)
  {
  }

  /** Red pieces open on rows 1 to 4, blue pieces on rows 7 to 10. */
  lemma OpeningRows(id: Id)
    ensures id < 16 ==> OpeningSquare(id).row <= 3
    ensures id >= 16 ==> OpeningSquare(id).row >= 6
  {
  }

  /** No Chariot or Cannon opens on the e-file, the file of both Generals. */
  lemma OpeningFiles(id: Id)
    ensures PieceOf(id).kind == Chariot || PieceOf(id).kind == Cannon ==> OpeningSquare(id).col != 4
  {
  }

  /** Every opening piece is out of reach of the opposing General's square. */
  lemma InitialOutOfReach(id: Id)
    ensures var from := InitialLoc()[id];
      var to := if id < 16 then E9 else E2;
      Abs(to.row - from.row) >= 4
      && (from.col == to.col ==> PieceOf(id).kind != Chariot && PieceOf(id).kind != Cannon)
      && !PalaceDiagonal(from, to)
  {
    OpeningRows(id);
    OpeningFiles(id);
  }

  /** With the opening layout, no piece of the opponent's cart attacks the square a General opens on. */
  lemma OpeningHarmless(p: Position, c: Color)
    requires p.grid == InitialGrid() && p.loc == InitialLoc()
    requires forall id :: id in Cart(p, Opponent(c)) ==> ColorOf(id) == Opponent(c)
    ensures forall id :: id in Cart(p, Opponent(c)) ==> !Attacks(p, id, InitialLoc()[GeneralId(c)])
  {
    InitialGeneralSquares();
    forall id: Id | id in Cart(p, Opponent(c))
      ensures !Attacks(p, id, InitialLoc()[GeneralId(c)])
    {
      InitialOutOfReach(id);
      OutOfReach(p.grid, PieceOf(id), p.loc[id], InitialLoc()[GeneralId(c)]);
    }
  }

  /** A position with the opening grid and locations whose carts list the grid in row-major order is the opening position. */
  lemma OpeningListing(p: Position)
    requires p.grid == InitialGrid() && p.loc == InitialLoc() && p.temp == None
    requires p.blue == [] + OfColor(GridPrefix(p.grid, Rows), Blue)
    requires p.red == [] + OfColor(GridPrefix(p.grid, Rows), Red)
    ensures p == InitialPosition()
  {
    assert p == Listing(p.grid, p.loc);
  }

  /** Neither player is in check in the opening position. */
  lemma InitialNoCheck(c: Color)
    ensures LastGeneral(Cart(InitialPosition(), c)) == Some(GeneralId(c))
    ensures !InCheck(InitialPosition(), c)
  {
    InitialValid();
    var p := InitialPosition();
    ListingFields(InitialGrid(), InitialLoc());
    GeneralOf(p, c);
    OpeningHarmless(p, c);
  }
}
