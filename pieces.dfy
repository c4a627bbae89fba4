/*
 * The pieces of a Janggi game and the grid they stand on.
 *
 * The engine creates exactly 32 piece objects when it sets up the board and
 * never creates another; a piece's kind and owner never change. The model
 * therefore names each piece by a fixed identity 0..31, numbered in
 * row-major order of the opening layout (red's sixteen pieces are 0..15,
 * blue's are 16..31), and keeps each piece's kind in the table `KindOf`.
 * What does change — where a piece stands, and which player still holds
 * it — lives in the board and the players.
 */
module Pieces {
  import opened Locations

  datatype Color = Blue | Red

  /** The other player. */
  function Opponent(c: Color): (o: Color)
    ensures o != c
  {
    if c == Blue then Red else Blue
  }

  /** The seven piece classes: GN, GD, EL, HO, CH, CA, SD. */
  datatype Kind = General | Guard | Elephant | Horse | Chariot | Cannon | Soldier

  datatype Piece = Piece(kind: Kind, color: Color)

  const PieceCount: int := 32

  /** The identity of one of the 32 pieces. */
  type Id = i: int | 0 <= i < PieceCount

  /**
   * The kind of every piece, indexed by identity: the pieces in the order
   * the opening grid lists them, row by row, left to right.
   */
  function KindOf(id: Id): Kind
  {
    [
      // red, rows 1 to 4
      Chariot, Elephant, Horse, Guard, Guard, Elephant, Horse, Chariot,
      General,
      Cannon, Cannon,
      Soldier, Soldier, Soldier, Soldier, Soldier,
      // blue, rows 7 to 10
      Soldier, Soldier, Soldier, Soldier, Soldier,
      Cannon, Cannon,
      General,
      Chariot, Elephant, Horse, Guard, Guard, Elephant, Horse, Chariot
    ][id]
  }

  /** The owner of every piece: red owns the first sixteen identities, blue the last sixteen. */
  function ColorOf(id: Id): Color
  {
    if id < 16 then Red else Blue
  }

  /** Kind and owner of a piece. */
  function PieceOf(id: Id): Piece
  {
    Piece(KindOf(id), ColorOf(id))
  }

  /** The identity of each player's General: red's stands on e2, blue's on e9. */
  function GeneralId(c: Color): (id: Id)
    ensures PieceOf(id) == Piece(General, c)
  {
    match c
    case Blue => 23
    case Red => 8
  }

  /** Each player owns exactly one General. */
  lemma GeneralIsUnique(id: Id)
    ensures PieceOf(id).kind == General <==> id == GeneralId(ColorOf(id))
  {
  }

  // ---------------------------------------------------------------------------
  // The grid
  // ---------------------------------------------------------------------------

  /** The board: ten rows of nine cells, each empty or holding one piece. */
  type Grid = g: seq<seq<Option<Id>>> | |g| == Rows && forall r :: 0 <= r < Rows ==> |g[r]| == Columns
    witness seq(10, r => seq(9, c => None))

  /** A prefix one longer is the prefix with the next element appended. */
  lemma PrefixStep<T>(s: seq<T>, i: int)
    requires 0 <= i < |s|
    ensures s[..i + 1] == s[..i] + [s[i]]
  {
  }

  /** A grid with no pieces. */
  function EmptyGrid(): (g: Grid)
    ensures forall sq: Square :: g[sq.row][sq.col] == None
  {
    seq(Rows, r => seq(Columns, c => None))
  }

  function Get(g: Grid, sq: Square): Option<Id>
  {
    g[sq.row][sq.col]
  }

  /** The grid with the cell at `sq` set to `x` and every other cell kept. */
  function Put(g: Grid, sq: Square, x: Option<Id>): (h: Grid)
    ensures forall s: Square :: Get(h, s) == if s == sq then x else Get(g, s)
  {
    g[sq.row := g[sq.row][sq.col := x]]
  }

  /** Two grids with the same cells are the same grid. */
  lemma GridExtensionality(g: Grid, h: Grid)
    requires forall s: Square :: Get(g, s) == Get(h, s)
    ensures g == h
  {
    forall r | 0 <= r < Rows
      ensures g[r] == h[r]
    {
      forall c | 0 <= c < Columns
        ensures g[r][c] == h[r][c]
      {
        var s: Square := Coord(r, c);
        assert Get(g, s) == Get(h, s);
      }
    }
  }

  predicate Occupied(g: Grid, sq: Square)
  {
    Get(g, sq).Some?
  }

  /** The square holds a piece of colour `c`. */
  predicate Friendly(g: Grid, c: Color, sq: Square)
  {
    Get(g, sq).Some? && ColorOf(Get(g, sq).value) == c
  }

  /** The square holds a Cannon (of either colour). */
  predicate CannonAt(g: Grid, sq: Square)
  {
    Get(g, sq).Some? && PieceOf(Get(g, sq).value).kind == Cannon
  }
}
