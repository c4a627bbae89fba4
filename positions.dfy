/*
 * A snapshot of the board's state and the board operations as functions
 * of it: moving a piece (with capture), the temporary move and its undo,
 * check, the composite legality test, and checkmate.
 *
 * The board classes (module Boards) keep these fields in mutable objects
 * and their methods are proved against the functions here.
 */
module Positions {
  import opened Locations
  import opened Pieces
  import opened Rules

  /** Where each piece stands (or last stood, once captured), by identity. */
  type Locs = s: seq<Square> | |s| == PieceCount witness seq<Square>(32, i => Coord(0, 0))

  /**
   * The grid, every piece's recorded location, the piece saved by a
   * temporary move, and the two players' carts (the pieces still in play).
   */
  datatype Position = Position(grid: Grid, loc: Locs, temp: Option<Id>, blue: seq<Id>, red: seq<Id>)

  function Cart(p: Position, c: Color): seq<Id>
  {
    if c == Blue then p.blue else p.red
  }

  // ---------------------------------------------------------------------------
  // Carts
  // ---------------------------------------------------------------------------

  /**
   * Player.remove_piece: the cart without the first occurrence of `x`;
   * unchanged when `x` is not in it.
   */
  function RemoveFirst(s: seq<Id>, x: Id): (r: seq<Id>)
    ensures x !in s ==> r == s
    ensures multiset(r) == if x in s then multiset(s) - multiset{x} else multiset(s)
    ensures |r| == if x in s then |s| - 1 else |s|
  {
    if s == [] then []
    else if s[0] == x then
      assert s == [s[0]] + s[1..];
      s[1..]
    else
      assert s == [s[0]] + s[1..];
      [s[0]] + RemoveFirst(s[1..], x)
  }

  /** The cart of `c` with `id` removed (a capture). */
  function WithoutPiece(p: Position, id: Id): Position
  {
    if ColorOf(id) == Blue then p.(blue := RemoveFirst(p.blue, id)) else p.(red := RemoveFirst(p.red, id))
  }

  /** The cart of the owner of `id` with `id` appended (Player.add_piece). */
  function WithPiece(p: Position, id: Id): Position
  {
    if ColorOf(id) == Blue then p.(blue := p.blue + [id]) else p.(red := p.red + [id])
  }

  /**
   * Player.get_general: the last General in the cart (the loop keeps
   * overwriting its answer), or None when there is none.
   */
  function LastGeneral(cart: seq<Id>): (r: Option<Id>)
    ensures r.Some? ==> r.value in cart && PieceOf(r.value).kind == General
    ensures r.None? ==> forall id :: id in cart ==> PieceOf(id).kind != General
  {
    if cart == [] then None
    else if PieceOf(cart[|cart| - 1]).kind == General then Some(cart[|cart| - 1])
    else
      assert cart == cart[..|cart| - 1] + [cart[|cart| - 1]];
      LastGeneral(cart[..|cart| - 1])
  }

  // ---------------------------------------------------------------------------
  // Moves
  // ---------------------------------------------------------------------------

  /**
   * Board.move_piece: a piece on the destination is captured (taken out
   * of its owner's cart); the moving piece goes to the destination, its
   * location is updated, and the source is emptied.
   */
  function MoveApplied(p: Position, s: Square, d: Square): Position
    requires Occupied(p.grid, s)
  {
    var mover := Get(p.grid, s).value;
    var p1 := if Get(p.grid, d).Some? then WithoutPiece(p, Get(p.grid, d).value) else p;
    p1.(grid := Put(Put(p1.grid, d, Some(mover)), s, None), loc := p1.loc[mover := d])
  }

  /** Board.prep_temp_move: remember the occupant of the destination. */
  function PrepApplied(p: Position, d: Square): Position
  {
    p.(temp := Get(p.grid, d))
  }

  /**
   * Board.undo_temp_move: the piece on the destination goes back to the
   * source, the remembered piece goes back on the destination and into its
   * owner's cart, and the memory is cleared.
   */
  function UndoApplied(p: Position, s: Square, d: Square): Position
    requires Occupied(p.grid, d)
  {
    var back := Get(p.grid, d).value;
    var p1 := p.(grid := Put(Put(p.grid, s, Some(back)), d, p.temp), loc := p.loc[back := s]);
    var p2 := if p.temp.Some? then WithPiece(p1, p.temp.value) else p1;
    p2.(temp := None)
  }

  // ---------------------------------------------------------------------------
  // Consistency of a position
  // ---------------------------------------------------------------------------

  /** The piece `id` stands where its location says. */
  predicate OnBoard(p: Position, id: Id)
  {
    Get(p.grid, p.loc[id]) == Some(id)
  }

  /** The piece `id` is in its owner's cart. */
  predicate Held(p: Position, id: Id)
  {
    id in Cart(p, ColorOf(id))
  }

  ghost predicate NoDuplicates(s: seq<Id>)
  {
    forall x :: multiset(s)[x] <= 1
  }

  /**
   * The board, the pieces' locations and the carts agree: every piece on
   * the grid has that square as its location; a piece is in its owner's
   * cart exactly when it stands on the board; a cart holds only its
   * owner's pieces, each once.
   */
  ghost predicate Valid(p: Position)
  {
    (forall sq: Square :: Get(p.grid, sq).Some? ==> p.loc[Get(p.grid, sq).value] == sq)
    && (forall id: Id :: Held(p, id) <==> OnBoard(p, id))
    && (forall c: Color, id: Id :: id in Cart(p, c) ==> ColorOf(id) == c)
    && NoDuplicates(p.blue) && NoDuplicates(p.red)
  }

  /** Both Generals are still in play. */
  predicate HasGenerals(p: Position)
  {
    GeneralId(Blue) in p.blue && GeneralId(Red) in p.red
  }

  /**
   * Two positions that differ only in the order of the carts (and in the
   * temporary slot): undoing a temporary move re-appends the captured piece
   * at the end of its owner's cart.
   */
  predicate Equiv(p: Position, q: Position)
  {
    p.grid == q.grid && p.loc == q.loc
    && multiset(p.blue) == multiset(q.blue) && multiset(p.red) == multiset(q.red)
  }

  // ---------------------------------------------------------------------------
  // Check and checkmate
  // ---------------------------------------------------------------------------

  /** Piece `id`, from where it stands, may move onto `target` by its own rule. */
  predicate Attacks(p: Position, id: Id, target: Square)
  {
    PieceLegal(p.grid, PieceOf(id), p.loc[id], target)
  }

  /**
   * Board.is_in_check: some piece in the opponent's cart may move, by its
   * own rule, onto the square of this player's General.
   */
  function InCheck(p: Position, c: Color): bool
    requires LastGeneral(Cart(p, c)).Some?
  {
    var target := p.loc[LastGeneral(Cart(p, c)).value];
    exists id :: id in Cart(p, Opponent(c)) && Attacks(p, id, target)
  }

  /** A move that cannot capture a friend leaves the mover's cart as it was. */
  lemma MoverCartKept(p: Position, s: Square, d: Square)
    requires Occupied(p.grid, s)
    requires !Friendly(p.grid, ColorOf(Get(p.grid, s).value), d)
    ensures Cart(MoveApplied(p, s, d), ColorOf(Get(p.grid, s).value)) == Cart(p, ColorOf(Get(p.grid, s).value))
  {
  }

  /**
   * Board.is_legal: the piece on the source may move to the destination by
   * its own rule, and after the move its owner is not in check.
   */
  function CompositeLegal(p: Position, s: Square, d: Square): (legal: bool)
    requires Occupied(p.grid, s)
    requires LastGeneral(Cart(p, ColorOf(Get(p.grid, s).value))).Some?
    ensures legal ==> PieceLegal(p.grid, PieceOf(Get(p.grid, s).value), s, d)
  {
    var mover := Get(p.grid, s).value;
    PieceLegal(p.grid, PieceOf(mover), s, d)
    && (MoverCartKept(p, s, d); !InCheck(MoveApplied(p, s, d), ColorOf(mover)))
  }

  /** A piece of a consistent position that is in a cart stands on the board, in its owner's cart. */
  lemma HeldPiece(p: Position, c: Color, id: Id)
    requires Valid(p) && id in Cart(p, c)
    ensures ColorOf(id) == c && OnBoard(p, id) && Occupied(p.grid, p.loc[id])
  {
  }

  /**
   * A cart that holds only pieces of colour `c` yields that colour's
   * General, when it holds it, and nothing otherwise.
   */
  lemma {:induction false} LastGeneralOfCart(cart: seq<Id>, c: Color)
    requires forall id :: id in cart ==> ColorOf(id) == c
    ensures LastGeneral(cart) == if GeneralId(c) in cart then Some(GeneralId(c)) else None
    decreases |cart|
  {
    if cart != [] {
      var last := cart[|cart| - 1];
      var init := cart[..|cart| - 1];
      assert cart == init + [last];
      GeneralIsUnique(last);
      if PieceOf(last).kind != General {
        LastGeneralOfCart(init, c);
      }
    }
  }

  /** In a consistent position, get_general finds exactly the General of that colour. */
  lemma GeneralOf(p: Position, c: Color)
    requires Valid(p)
    ensures LastGeneral(Cart(p, c)) == if GeneralId(c) in Cart(p, c) then Some(GeneralId(c)) else None
  {
    LastGeneralOfCart(Cart(p, c), c);
  }

  /** Piece `d` of `c`'s cart may legally move onto `target`. */
  predicate Reaches(p: Position, c: Color, d: Id, target: Square)
    requires Valid(p) && HasGenerals(p) && d in Cart(p, c)
  {
    HeldPiece(p, c, d);
    GeneralOf(p, c);
    CompositeLegal(p, p.loc[d], target)
  }

  /** Some piece of `c`'s cart may legally move onto `target`. */
  predicate CanReach(p: Position, c: Color, target: Square)
    requires Valid(p) && HasGenerals(p)
  {
    exists d :: d in Cart(p, c) && Reaches(p, c, d, target)
  }

  /** The squares of a player's palace, in the order the engine tries them. */
  function PalaceOf(c: Color): seq<Square>
  {
    if c == Blue then
      [Coord(7, 3), Coord(8, 3), Coord(9, 3), Coord(7, 4), Coord(8, 4), Coord(9, 4), Coord(7, 5), Coord(8, 5), Coord(9, 5)]
    else
      [Coord(0, 3), Coord(1, 3), Coord(2, 3), Coord(0, 4), Coord(1, 4), Coord(2, 4), Coord(0, 5), Coord(1, 5), Coord(2, 5)]
  }

  /** Opponent piece `a` may legally capture `c`'s General. */
  predicate Threatens(p: Position, c: Color, a: Id)
    requires Valid(p) && HasGenerals(p)
  {
    a in Cart(p, Opponent(c))
    && (HeldPiece(p, Opponent(c), a); GeneralOf(p, Opponent(c)); GeneralOf(p, c);
        CompositeLegal(p, p.loc[a], p.loc[GeneralId(c)]))
  }

  /** The threat of `a` can be met: a defender can capture `a` or step onto a square it passes. */
  predicate Answerable(p: Position, c: Color, a: Id)
    requires Valid(p) && HasGenerals(p) && Threatens(p, c, a)
  {
    HeldPiece(p, Opponent(c), a);
    CanReach(p, c, p.loc[a])
    || exists sq :: sq in MovePath(PieceOf(a), p.loc[a], p.loc[GeneralId(c)]) && CanReach(p, c, sq)
  }

  /** `c`'s General may step to `sq` by its own rule and is then not in check. */
  predicate GeneralEscapes(p: Position, c: Color, sq: Square)
    requires Valid(p) && HasGenerals(p)
  {
    var gl := p.loc[GeneralId(c)];
    HeldPiece(p, c, GeneralId(c));
    PieceLegal(p.grid, PieceOf(GeneralId(c)), gl, sq)
    && (GeneralOf(p, c); MoverCartKept(p, gl, sq); !InCheck(MoveApplied(p, gl, sq), c))
  }

  /**
   * Board.is_in_checkmate: `c` is in check, no threatening piece can be
   * captured or blocked, and no step of the General within its palace
   * gets it out of check.
   */
  function Checkmate(p: Position, c: Color): bool
    requires Valid(p) && HasGenerals(p)
  {
    GeneralOf(p, c);
    InCheck(p, c)
    && !(exists a :: a in Cart(p, Opponent(c)) && Threatens(p, c, a) && Answerable(p, c, a))
    && !(exists sq :: sq in PalaceOf(c) && GeneralEscapes(p, c, sq))
  }
}
