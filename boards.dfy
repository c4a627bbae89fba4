/*
 * The mutable objects of the engine: a player with its cart, and the
 * board with its grid, the pieces' locations and the temporary slot used
 * to try a move and take it back (classes Player and Board).
 *
 * Every method is proved against the function on positions (module
 * Positions) that says what it computes or how it changes the state.
 */
module Boards {
  import opened Locations
  import opened Pieces
  import opened Rules
  import opened Positions
  import opened PositionFacts
  import opened Setup

  /** A player: a colour and the pieces still in play (the cart), in insertion order. */
  class Player {
    const color: Color
    var cart: seq<Id>

    constructor (c: Color)
      ensures color == c && cart == []
    {
      color := c;
      cart := [];
    }

    /** Player.add_piece */
    method AddPiece(id: Id)
      modifies this
      ensures cart == old(cart) + [id]
    {
      cart := cart + [id];
    }

    /** Player.remove_piece: the first copy goes; a piece not in the cart changes nothing. */
    method RemovePiece(id: Id)
      modifies this
      ensures cart == RemoveFirst(old(cart), id)
    {
      if id in cart {
        cart := RemoveFirst(cart, id);
      }
    }

    /** Player.get_general: scans the whole cart and keeps the last General seen. */
    method GetGeneral() returns (general: Option<Id>)
      ensures general == LastGeneral(cart)
    {
      general := None;
      for i := 0 to |cart|
        invariant general == LastGeneral(cart[..i])
      {
        assert cart[..i + 1][..i] == cart[..i];
        if PieceOf(cart[i]).kind == General {
          general := Some(cart[i]);
        }
      }
      assert cart[..|cart|] == cart;
    }
  }

  /** The loop of initialize_board that fills the carts from the grid, row by row. */
  method FillCarts(blue: Player, red: Player, g: Grid)
    requires blue != red
    modifies blue, red
    ensures blue.cart == old(blue.cart) + OfColor(GridPrefix(g, Rows), Blue)
    ensures red.cart == old(red.cart) + OfColor(GridPrefix(g, Rows), Red)
  {
    ghost var blue0, red0 := blue.cart, red.cart;
    for row := 0 to Rows
      invariant blue.cart == blue0 + OfColor(GridPrefix(g, row), Blue)
      invariant red.cart == red0 + OfColor(GridPrefix(g, row), Red)
    {
      GridStep(blue0, g, row, Blue);
      GridStep(red0, g, row, Red);
      AddRow(blue, red, g, row);
    }
  }

  /** One pass of the outer loop of initialize_board: the cells of one row, left to right. */
  method AddRow(blue: Player, red: Player, g: Grid, row: nat)
    requires blue != red && row < Rows
    modifies blue, red
    ensures blue.cart == old(blue.cart) + OfColor(RowPrefix(g[row], Columns), Blue)
    ensures red.cart == old(red.cart) + OfColor(RowPrefix(g[row], Columns), Red)
  {
    ghost var blue0, red0 := blue.cart, red.cart;
    for column := 0 to Columns
      invariant blue.cart == blue0 + OfColor(RowPrefix(g[row], column), Blue)
      invariant red.cart == red0 + OfColor(RowPrefix(g[row], column), Red)
    {
      RowStep(blue0, g[row], column, Blue);
      RowStep(red0, g[row], column, Red);
      AddCell(blue, red, g[row][column]);
    }
  }

  /** The body of the setup loop: a piece on the cell joins its owner's cart. */
  method AddCell(blue: Player, red: Player, cell: Option<Id>)
    requires blue != red
    modifies blue, red
    ensures blue.cart == old(blue.cart) + OfColor(CellIds(cell), Blue)
    ensures red.cart == old(red.cart) + OfColor(CellIds(cell), Red)
  {
    CellColor(cell, Blue);
    CellColor(cell, Red);
    if cell.Some? {
      if ColorOf(cell.value) == Blue {
        blue.AddPiece(cell.value);
      } else {
        red.AddPiece(cell.value);
      }
    }
  }

  /** The loop of Board.is_in_check: does some piece of `cart` reach `target` by its own rule in `p`? */
  method AnyAttacker(p: Position, cart: seq<Id>, target: Square) returns (found: bool)
    ensures found <==> exists id :: id in cart && Attacks(p, id, target)
  {
    found := false;
    var i := 0;
    while i < |cart| && !found
      invariant 0 <= i <= |cart|
      invariant found <==> exists id :: id in cart[..i] && Attacks(p, id, target)
    {
      assert cart[..i + 1] == cart[..i] + [cart[i]];
      found := Attacks(p, cart[i], target);
      i := i + 1;
    }
    assert found || cart[..i] == cart;
  }

  /** The grid, each piece's location, the temporary slot, and the two players. */
  class Board {
    const blue: Player
    const red: Player
    var grid: Grid
    var loc: Locs
    var temp: Option<Id>

    /** The board's two players are distinct and have their own colours. */
    predicate Players()
    {
      blue != red && blue.color == Blue && red.color == Red
    }

    /** The state of the board and the players, as a value. */
    function Snapshot(): Position
      reads this, blue, red
    {
      Position(grid, loc, temp, blue.cart, red.cart)
    }

    /** The player of colour `c`. */
    function PlayerOf(c: Color): (pl: Player)
      requires Players()
      ensures pl.color == c && (pl == blue || pl == red)
    {
      if c == Blue then blue else red
    }

    /**
     * Board.__init__: no pieces yet and nothing remembered. The locations
     * are the opening squares, where the pieces will be created.
     */
    constructor (b: Player, r: Player)
      requires b != r && b.color == Blue && r.color == Red
      ensures blue == b && red == r && Players()
      ensures grid == EmptyGrid() && loc == InitialLoc() && temp == None
    {
      blue := b;
      red := r;
      grid := EmptyGrid();
      loc := InitialLoc();
      temp := None;
    }

    /**
     * Board.initialize_board: lays out the opening grid, then visits it
     * row by row, left to right, appending each piece to its owner's cart.
     */
    method InitializeBoard()
      requires Players()
      modifies this, blue, red
      ensures grid == InitialGrid() && loc == InitialLoc() && temp == old(temp)
      ensures blue.cart == old(blue.cart) + OfColor(GridPrefix(grid, Rows), Blue)
      ensures red.cart == old(red.cart) + OfColor(GridPrefix(grid, Rows), Red)
    {
      var g := InitialGrid();
      FillCarts(blue, red, g);
      grid := g;
      loc := InitialLoc();
    }

    /** Board.prep_temp_move: remember the destination's occupant. */
    method PrepTempMove(d: Square)
      modifies this
      ensures Snapshot() == PrepApplied(old(Snapshot()), d)
    {
      temp := Get(grid, d);
    }

    /**
     * Board.move_piece: a piece on the destination leaves its owner's
     * cart; the source's piece goes to the destination, its location
     * follows, and the source is emptied.
     */
    method MovePiece(s: Square, d: Square)
      requires Players() && Occupied(grid, s)
      modifies this, blue, red
      ensures Snapshot() == MoveApplied(old(Snapshot()), s, d)
    {
      var mover := Get(grid, s).value;
      var captured := Get(grid, d);
      if captured.Some? {
        if ColorOf(captured.value) == Blue {
          blue.RemovePiece(captured.value);
        } else {
          red.RemovePiece(captured.value);
        }
      }
      grid := Put(grid, d, Some(mover));
      loc := loc[mover := d];
      grid := Put(grid, s, None);
    }

    /**
     * Board.undo_temp_move: the destination's piece goes back to the
     * source, the remembered piece back to the destination and into its
     * owner's cart, and the slot is cleared.
     */
    method UndoTempMove(s: Square, d: Square)
      requires Players() && Occupied(grid, d)
      modifies this, blue, red
      ensures Snapshot() == UndoApplied(old(Snapshot()), s, d)
    {
      var back := Get(grid, d).value;
      grid := Put(grid, s, Some(back));
      loc := loc[back := s];
      grid := Put(grid, d, temp);
      if temp.Some? {
        if ColorOf(temp.value) == Blue {
          blue.AddPiece(temp.value);
        } else {
          red.AddPiece(temp.value);
        }
      }
      temp := None;
    }

    /**
     * Board.is_in_check: finds the player's General, then asks each piece
     * of the opponent's cart, in order, whether it may move onto it.
     */
    method IsInCheck(player: Player) returns (check: bool)
      requires Players() && (player == blue || player == red)
      requires LastGeneral(player.cart).Some?
      ensures check == InCheck(Snapshot(), player.color)
    {
      var opponent := if player.color == Blue then red else blue;
      var general := player.GetGeneral();
      check := AnyAttacker(Snapshot(), opponent.cart, loc[general.value]);
    }

    /**
     * Board.is_legal: the source's piece may make the move by its own
     * rule, and a trial of the move does not leave its owner in check.
     * The trial is taken back; a captured piece returns to the end of its
     * owner's cart, so only the order of that cart may change.
     */
    method IsLegal(s: Square, d: Square) returns (legal: bool)
      requires Players() && Valid(Snapshot()) && Occupied(grid, s)
      requires LastGeneral(Cart(Snapshot(), ColorOf(Get(grid, s).value))).Some?
      modifies this, blue, red
      ensures legal == CompositeLegal(old(Snapshot()), s, d)
      ensures Equiv(Snapshot(), old(Snapshot())) && (temp == None || temp == old(temp))
      ensures Cart(Snapshot(), ColorOf(Get(grid, s).value)) == Cart(old(Snapshot()), ColorOf(Get(grid, s).value))
    {
      ghost var p := Snapshot();
      var mover := Get(grid, s).value;
      var owner := PlayerOf(ColorOf(mover));
      if PieceLegal(grid, PieceOf(mover), s, d) {
        MoverCartKept(p, s, d);
        TempMoveCheck(p, s, d, ColorOf(mover));
        TempMoveRestores(p, s, d);
        TempMoveKeepsMoverCart(p, s, d);
        PrepTempMove(d);
        MovePiece(s, d);
        var check := IsInCheck(owner);
        UndoTempMove(s, d);
        legal := !check;
      } else {
        legal := false;
      }
    }

    /**
     * One Board.is_legal call of Board.is_in_checkmate: may piece `d` of
     * `c`'s cart move onto `target`? The board differs from `p0` only in
     * cart order, before and after, and `c`'s cart is untouched.
     */
    method PieceTest(c: Color, d: Id, target: Square, ghost p0: Position) returns (legal: bool)
      requires Players() && Valid(p0) && HasGenerals(p0) && Equiv(Snapshot(), p0) && d in Cart(p0, c)
      modifies this, blue, red
      ensures legal == Reaches(p0, c, d, target)
      ensures Equiv(Snapshot(), p0) && (temp == None || temp == old(temp))
      ensures Cart(Snapshot(), c) == Cart(old(Snapshot()), c)
    {
      EquivPieceTest(p0, Snapshot(), c, d, target);
      legal := IsLegal(loc[d], target);
    }

    /**
     * The loop of Board.is_in_checkmate that lists the opponent's pieces
     * that may legally capture the General on `genLoc`. Each test is a
     * temporary move; the opponent's cart is not reordered by it.
     */
    method CollectAttackers(player: Player, genLoc: Square, ghost p0: Position) returns (attackers: seq<Id>)
      requires Players() && (player == blue || player == red)
      requires Valid(p0) && HasGenerals(p0) && Equiv(Snapshot(), p0)
      requires genLoc == p0.loc[GeneralId(player.color)]
      modifies this, blue, red
      ensures forall a :: a in attackers <==> a in Cart(p0, Opponent(player.color)) && Threatens(p0, player.color, a)
      ensures Equiv(Snapshot(), p0) && (temp == None || temp == old(temp))
    {
      var c := player.color;
      var opponent := PlayerOf(Opponent(c));
      var cart := opponent.cart;
      SameCart(Snapshot(), p0, Opponent(c));
      attackers := [];
      for i := 0 to |cart|
        invariant Equiv(Snapshot(), p0) && (temp == None || temp == old(temp))
        invariant opponent.cart == cart
        invariant forall a :: a in attackers <==> a in cart[..i] && Threatens(p0, c, a)
      {
        var a := cart[i];
        var legal := PieceTest(Opponent(c), a, genLoc, p0);
        PrefixStep(cart, i);
        if legal {
          attackers := attackers + [a];
        }
      }
      assert cart[..|cart|] == cart;
    }

    /**
     * The inner loops of Board.is_in_checkmate: does some piece of the
     * player's cart pass Board.is_legal for a move onto `target`? The
     * player's own cart is not reordered by these tests.
     */
    method DefenderReaches(player: Player, target: Square, ghost p0: Position) returns (found: bool)
      requires Players() && (player == blue || player == red)
      requires Valid(p0) && HasGenerals(p0) && Equiv(Snapshot(), p0)
      modifies this, blue, red
      ensures found == CanReach(p0, player.color, target)
      ensures Equiv(Snapshot(), p0) && (temp == None || temp == old(temp))
    {
      var c := player.color;
      var cart := player.cart;
      SameCart(Snapshot(), p0, c);
      for i := 0 to |cart|
        invariant Equiv(Snapshot(), p0) && (temp == None || temp == old(temp))
        invariant player.cart == cart
        invariant forall d :: d in cart[..i] && d in Cart(p0, c) ==> !Reaches(p0, c, d, target)
      {
        var legal := PieceTest(c, cart[i], target, p0);
        if legal {
          return true;
        }
        PrefixStep(cart, i);
      }
      assert cart[..|cart|] == cart;
      return false;
    }

    /**
     * One step of the General's escape loop of Board.is_in_checkmate: the
     * General's own rule, then a temporary move to `sq`, a check test and
     * the undo.
     */
    method TryEscape(player: Player, genLoc: Square, sq: Square, ghost p0: Position) returns (escapes: bool)
      requires Players() && (player == blue || player == red)
      requires Valid(p0) && HasGenerals(p0) && Equiv(Snapshot(), p0)
      requires genLoc == p0.loc[GeneralId(player.color)]
      modifies this, blue, red
      ensures escapes == GeneralEscapes(p0, player.color, sq)
      ensures Equiv(Snapshot(), p0) && (temp == None || temp == old(temp))
    {
      var c := player.color;
      ghost var cur := Snapshot();
      EquivPieceTest(p0, cur, c, GeneralId(c), sq);
      if PieceLegal(grid, PieceOf(GeneralId(c)), genLoc, sq) {
        EscapeTest(p0, cur, c, sq);
        PrepTempMove(sq);
        MovePiece(genLoc, sq);
        var check := IsInCheck(player);
        UndoTempMove(genLoc, sq);
        escapes := !check;
      } else {
        escapes := false;
      }
    }

    /** The blocking loop of Board.is_in_checkmate: can a piece of the player step onto some square of `path`? */
    method AnyBlock(player: Player, path: seq<Square>, ghost p0: Position) returns (found: bool)
      requires Players() && (player == blue || player == red)
      requires Valid(p0) && HasGenerals(p0) && Equiv(Snapshot(), p0)
      modifies this, blue, red
      ensures found == exists sq :: sq in path && CanReach(p0, player.color, sq)
      ensures Equiv(Snapshot(), p0) && (temp == None || temp == old(temp))
    {
      for m := 0 to |path|
        invariant Equiv(Snapshot(), p0) && (temp == None || temp == old(temp))
        invariant forall sq :: sq in path[..m] ==> !CanReach(p0, player.color, sq)
      {
        var reached := DefenderReaches(player, path[m], p0);
        if reached {
          return true;
        }
        PrefixStep(path, m);
      }
      assert path[..|path|] == path;
      return false;
    }

    /**
     * The loop of Board.is_in_checkmate over the threatening pieces: can
     * one of them be captured, or its path to the General be blocked?
     */
    method AnswerAny(player: Player, attackers: seq<Id>, genLoc: Square, ghost p0: Position) returns (answered: bool)
      requires Players() && (player == blue || player == red)
      requires Valid(p0) && HasGenerals(p0) && Equiv(Snapshot(), p0)
      requires genLoc == p0.loc[GeneralId(player.color)]
      requires forall a :: a in attackers ==> Threatens(p0, player.color, a)
      modifies this, blue, red
      ensures answered == exists a :: a in attackers && Answerable(p0, player.color, a)
      ensures Equiv(Snapshot(), p0) && (temp == None || temp == old(temp))
    {
      var c := player.color;
      for k := 0 to |attackers|
        invariant Equiv(Snapshot(), p0) && (temp == None || temp == old(temp))
        invariant forall a :: a in attackers[..k] ==> a in attackers && !Answerable(p0, c, a)
      {
        var attacker := attackers[k];
        ThreatPath(p0, c, attacker);
        var captured := DefenderReaches(player, loc[attacker], p0);
        if captured {
          return true;
        }
        var path := MovePath(PieceOf(attacker), loc[attacker], genLoc);
        var blocked := AnyBlock(player, path, p0);
        if blocked {
          return true;
        }
        PrefixStep(attackers, k);
      }
      assert attackers[..|attackers|] == attackers;
      return false;
    }

    /** The General's escape loop of Board.is_in_checkmate, over its palace in the source's order. */
    method AnyEscape(player: Player, genLoc: Square, ghost p0: Position) returns (escapes: bool)
      requires Players() && (player == blue || player == red)
      requires Valid(p0) && HasGenerals(p0) && Equiv(Snapshot(), p0)
      requires genLoc == p0.loc[GeneralId(player.color)]
      modifies this, blue, red
      ensures escapes == exists sq :: sq in PalaceOf(player.color) && GeneralEscapes(p0, player.color, sq)
      ensures Equiv(Snapshot(), p0) && (temp == None || temp == old(temp))
    {
      var palace := PalaceOf(player.color);
      for m := 0 to |palace|
        invariant Equiv(Snapshot(), p0) && (temp == None || temp == old(temp))
        invariant forall sq :: sq in palace[..m] ==> !GeneralEscapes(p0, player.color, sq)
      {
        var found := TryEscape(player, genLoc, palace[m], p0);
        if found {
          return true;
        }
        PrefixStep(palace, m);
      }
      assert palace[..|palace|] == palace;
      return false;
    }

    /**
     * Board.is_in_checkmate: the player is in check; no piece that
     * threatens the General can be captured or blocked by a legal move;
     * and no legal step of the General within its palace ends out of
     * check. Every test is a temporary move that is taken back, so the
     * board is unchanged except for the order of the carts.
     */
    method IsInCheckmate(player: Player) returns (mate: bool)
      requires Players() && (player == blue || player == red)
      requires Valid(Snapshot()) && HasGenerals(Snapshot())
      modifies this, blue, red
      ensures mate == Checkmate(old(Snapshot()), player.color)
      ensures Equiv(Snapshot(), old(Snapshot())) && (temp == None || temp == old(temp))
    {
      ghost var p0 := Snapshot();
      var c := player.color;
      GeneralOf(p0, c);
      var check := IsInCheck(player);
      if !check {
        return false;
      }
      var general := player.GetGeneral();
      var genLoc := loc[general.value];
      var attackers := CollectAttackers(player, genLoc, p0);
      var answered := AnswerAny(player, attackers, genLoc, p0);
      if answered {
        CheckmateByParts(p0, c, attackers);
        return false;
      }
      var escapes := AnyEscape(player, genLoc, p0);
      CheckmateByParts(p0, c, attackers);
      return !escapes;
    }
  }
}
