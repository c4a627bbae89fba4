/*
 * Properties of the board operations on positions: what a move changes,
 * that it keeps a position consistent, that a temporary move followed by
 * its undo restores the position (up to the order of the carts), and that
 * check, legality and checkmate do not depend on that order.
 */
module PositionFacts {
  import opened Locations
  import opened Pieces
  import opened Rules
  import opened Positions

  // ---------------------------------------------------------------------------
  // What a move changes
  // ---------------------------------------------------------------------------

  /** Taking `x` out of its owner's cart removes one copy of it there and changes nothing else. */
  lemma WithoutPieceCarts(p: Position, x: Id)
    ensures forall c: Color ::
              multiset(Cart(WithoutPiece(p, x), c)) ==
              (if c == ColorOf(x) && x in Cart(p, c) then multiset(Cart(p, c)) - multiset{x} else multiset(Cart(p, c)))
    ensures WithoutPiece(p, x).grid == p.grid && WithoutPiece(p, x).loc == p.loc && WithoutPiece(p, x).temp == p.temp
  {
  }

  /**
   * Board.move_piece in a consistent position: the mover stands on the
   * destination with its location updated, the source is empty, every
   * other square and location is kept, and a piece that stood on the
   * destination is out of its owner's cart (the other cart is kept).
   */
  lemma MoveEffects(p: Position, s: Square, d: Square)
    requires Valid(p) && Occupied(p.grid, s) && s != d
    ensures var m := Get(p.grid, s).value; var q := MoveApplied(p, s, d);
      Get(q.grid, d) == Some(m) && Get(q.grid, s) == None
      && (forall sq: Square :: sq != s && sq != d ==> Get(q.grid, sq) == Get(p.grid, sq))
      && q.loc[m] == d && (forall id: Id :: id != m ==> q.loc[id] == p.loc[id])
      && q.temp == p.temp
      && (forall c: Color :: multiset(Cart(q, c)) ==
            (if Get(p.grid, d).Some? && ColorOf(Get(p.grid, d).value) == c
             then multiset(Cart(p, c)) - multiset{Get(p.grid, d).value}
             else multiset(Cart(p, c))))
  {
    if Get(p.grid, d).Some? {
      var x := Get(p.grid, d).value;
      assert p.loc[x] == d;
      assert OnBoard(p, x);
      WithoutPieceCarts(p, x);
    }
  }

  /** A capture takes exactly one piece out of play; any other move keeps the count. */
  lemma MoveCount(p: Position, s: Square, d: Square)
    requires Valid(p) && Occupied(p.grid, s) && s != d
    ensures var q := MoveApplied(p, s, d);
      |q.blue| + |q.red| == |p.blue| + |p.red| - (if Occupied(p.grid, d) then 1 else 0)
  {
    MoveEffects(p, s, d);
    var q := MoveApplied(p, s, d);
    assert |q.blue| == |multiset(q.blue)| && |q.red| == |multiset(q.red)|;
    assert |p.blue| == |multiset(p.blue)| && |p.red| == |multiset(p.red)|;
    if Occupied(p.grid, d) {
      var x := Get(p.grid, d).value;
      assert p.loc[x] == d && OnBoard(p, x) && Held(p, x);
      assert x in multiset(Cart(p, ColorOf(x)));
    }
  }

  /** The grid cells and locations of a position after a move agree with each other. */
  lemma MoveKeepsPlacement(p: Position, s: Square, d: Square)
    requires Valid(p) && Occupied(p.grid, s) && s != d
    ensures var q := MoveApplied(p, s, d);
      forall sq: Square :: Get(q.grid, sq).Some? ==> q.loc[Get(q.grid, sq).value] == sq
  {
    MoveEffects(p, s, d);
    var q := MoveApplied(p, s, d);
    var m := Get(p.grid, s).value;
    forall sq: Square | Get(q.grid, sq).Some?
      ensures q.loc[Get(q.grid, sq).value] == sq
    {
      if sq != s && sq != d {
        var y := Get(p.grid, sq).value;
        assert p.loc[y] == sq;
        assert y != m;
      }
    }
  }

  /** After a move, a piece is in its owner's cart exactly when it stands on the board. */
  lemma MoveKeepsHeld(p: Position, s: Square, d: Square)
    requires Valid(p) && Occupied(p.grid, s) && s != d
    ensures var q := MoveApplied(p, s, d);
      forall id: Id :: Held(q, id) <==> OnBoard(q, id)
  {
    MoveEffects(p, s, d);
    var q := MoveApplied(p, s, d);
    var m := Get(p.grid, s).value;
    assert p.loc[m] == s;
    forall id: Id
      ensures Held(q, id) <==> OnBoard(q, id)
    {
      var c := ColorOf(id);
      assert Held(p, id) <==> OnBoard(p, id);
      assert Held(p, id) <==> multiset(Cart(p, c))[id] > 0;
      assert Held(q, id) <==> multiset(Cart(q, c))[id] > 0;
      if Get(p.grid, d).Some? && Get(p.grid, d).value == id {
        assert p.loc[id] == d && OnBoard(p, id);
        assert multiset(Cart(p, c))[id] == 1;
        assert multiset(Cart(q, c))[id] == 0;
        assert id != m;
      } else {
        assert multiset(Cart(q, c))[id] == multiset(Cart(p, c))[id];
        if id != m {
          if p.loc[id] == s {
            assert !OnBoard(p, id);
          } else if p.loc[id] == d {
            assert !OnBoard(p, id);
          }
        }
      }
    }
  }

  /** After a move, the cart of colour `c` holds only pieces of that colour, each at most once. */
  lemma MoveKeepsCart(p: Position, s: Square, d: Square, c: Color)
    requires Valid(p) && Occupied(p.grid, s) && s != d
    ensures var q := MoveApplied(p, s, d);
      (forall id: Id :: id in Cart(q, c) ==> ColorOf(id) == c) && NoDuplicates(Cart(q, c))
  {
    MoveCart(p, s, d, c);
    var q := MoveApplied(p, s, d);
    assert NoDuplicates(Cart(p, c));
    forall id: Id | id in Cart(q, c)
      ensures ColorOf(id) == c
    {
      assert id in multiset(Cart(q, c));
      assert id in multiset(Cart(p, c));
    }
    forall x: Id
      ensures multiset(Cart(q, c))[x] <= 1
    {
      assert multiset(Cart(p, c))[x] <= 1;
    }
  }

  /** A move keeps a position consistent. */
  lemma MoveKeepsValid(p: Position, s: Square, d: Square)
    requires Valid(p) && Occupied(p.grid, s) && s != d
    ensures Valid(MoveApplied(p, s, d))
  {
    MoveKeepsPlacement(p, s, d);
    MoveKeepsHeld(p, s, d);
    MoveKeepsCart(p, s, d, Blue);
    MoveKeepsCart(p, s, d, Red);
  }

  /** A move that does not land on a General keeps both Generals in play. */
  lemma MoveKeepsGenerals(p: Position, s: Square, d: Square)
    requires Valid(p) && HasGenerals(p) && Occupied(p.grid, s) && s != d
    requires Get(p.grid, d).Some? ==> PieceOf(Get(p.grid, d).value).kind != General
    ensures HasGenerals(MoveApplied(p, s, d))
  {
    MoveEffects(p, s, d);
    var q := MoveApplied(p, s, d);
    assert GeneralId(Blue) in multiset(p.blue) && GeneralId(Red) in multiset(p.red);
    assert GeneralId(Blue) in multiset(q.blue) && GeneralId(Red) in multiset(q.red);
  }

  /**
   * When the opponent is not in check, no piece of `c` may move onto a
   * General by its own rule: a move never captures a General.
   */
  lemma MoveSparesGenerals(p: Position, c: Color, s: Square, d: Square)
    requires Valid(p) && HasGenerals(p) && Friendly(p.grid, c, s)
    requires LastGeneral(Cart(p, Opponent(c))).Some? && !InCheck(p, Opponent(c))
    requires PieceLegal(p.grid, PieceOf(Get(p.grid, s).value), s, d)
    ensures Get(p.grid, d).Some? ==> PieceOf(Get(p.grid, d).value).kind != General
  {
    if Get(p.grid, d).Some? {
      var x := Get(p.grid, d).value;
      var m := Get(p.grid, s).value;
      GeneralIsUnique(x);
      GeneralOf(p, Opponent(c));
      assert p.loc[m] == s && OnBoard(p, m) && Held(p, m) && p.loc[x] == d;
      assert Attacks(p, m, d);
      assert PieceOf(x).kind == General ==> x == GeneralId(Opponent(c));
    }
  }

  // ---------------------------------------------------------------------------
  // Temporary moves
  // ---------------------------------------------------------------------------

  /**
   * Board.undo_temp_move: the piece on the destination is back on the
   * source with its location, the remembered piece is back on the
   * destination and in its owner's cart, and the memory is empty.
   */
  lemma UndoEffects(p: Position, s: Square, d: Square)
    requires Occupied(p.grid, d) && s != d
    ensures var b := Get(p.grid, d).value; var q := UndoApplied(p, s, d);
      Get(q.grid, s) == Some(b) && Get(q.grid, d) == p.temp
      && (forall sq: Square :: sq != s && sq != d ==> Get(q.grid, sq) == Get(p.grid, sq))
      && q.loc == p.loc[b := s] && q.temp == None
      && (forall c: Color :: multiset(Cart(q, c)) ==
            (if p.temp.Some? && ColorOf(p.temp.value) == c
             then multiset(Cart(p, c)) + multiset{p.temp.value}
             else multiset(Cart(p, c))))
  {
  }

  /** Remembering the destination's occupant changes nothing else. */
  lemma PrepKeepsValid(p: Position, d: Square)
    requires Valid(p)
    ensures var p0 := PrepApplied(p, d);
      Valid(p0) && p0.grid == p.grid && p0.loc == p.loc && p0.blue == p.blue && p0.red == p.red
      && p0.temp == Get(p.grid, d)
  {
    var p0 := PrepApplied(p, d);
    assert forall c: Color :: Cart(p0, c) == Cart(p, c);
    assert forall id: Id :: OnBoard(p0, id) == OnBoard(p, id) && Held(p0, id) == Held(p, id);
  }

  /** The grid and the locations after a temporary move and its undo. */
  lemma TempMovePlacement(p: Position, s: Square, d: Square)
    requires Valid(p) && Occupied(p.grid, s) && s != d
    ensures var p1 := MoveApplied(PrepApplied(p, d), s, d);
      Occupied(p1.grid, d)
      && UndoApplied(p1, s, d).grid == p.grid && UndoApplied(p1, s, d).loc == p.loc
  {
    PrepKeepsValid(p, d);
    var p0 := PrepApplied(p, d);
    MoveEffects(p0, s, d);
    var p1 := MoveApplied(p0, s, d);
    var m := Get(p.grid, s).value;
    UndoEffects(p1, s, d);
    var q := UndoApplied(p1, s, d);
    forall sq: Square
      ensures Get(q.grid, sq) == Get(p.grid, sq)
    {
    }
    GridExtensionality(q.grid, p.grid);
    assert p.loc[m] == s;
    assert q.loc == p.loc[m := d][m := s];
    assert q.loc == p.loc;
  }

  /** The carts after a temporary move and its undo hold the same pieces as before. */
  lemma TempMoveCarts(p: Position, s: Square, d: Square)
    requires Valid(p) && Occupied(p.grid, s) && s != d
    ensures var p1 := MoveApplied(PrepApplied(p, d), s, d);
      Occupied(p1.grid, d)
      && var q := UndoApplied(p1, s, d);
      multiset(q.blue) == multiset(p.blue) && multiset(q.red) == multiset(p.red) && q.temp == None
  {
    TempMoveCart(p, s, d, Blue);
    TempMoveCart(p, s, d, Red);
  }

  /** A move leaves the destination occupied and takes a captured piece out of its owner's cart `c`. */
  lemma MoveCart(p: Position, s: Square, d: Square, c: Color)
    requires Valid(p) && Occupied(p.grid, s) && s != d
    ensures Occupied(MoveApplied(p, s, d).grid, d) && MoveApplied(p, s, d).temp == p.temp
    ensures multiset(Cart(MoveApplied(p, s, d), c)) ==
      (if Get(p.grid, d).Some? && ColorOf(Get(p.grid, d).value) == c
       then multiset(Cart(p, c)) - multiset{Get(p.grid, d).value}
       else multiset(Cart(p, c)))
  {
    MoveEffects(p, s, d);
  }

  /** An undo returns the remembered piece to its owner's cart `c` and clears the memory. */
  lemma UndoCart(p: Position, s: Square, d: Square, c: Color)
    requires Occupied(p.grid, d) && s != d
    ensures UndoApplied(p, s, d).temp == None
    ensures multiset(Cart(UndoApplied(p, s, d), c)) ==
      (if p.temp.Some? && ColorOf(p.temp.value) == c
       then multiset(Cart(p, c)) + multiset{p.temp.value}
       else multiset(Cart(p, c)))
  {
    UndoEffects(p, s, d);
  }

  /** One cart after a temporary move and its undo holds the same pieces as before. */
  lemma TempMoveCart(p: Position, s: Square, d: Square, c: Color)
    requires Valid(p) && Occupied(p.grid, s) && s != d
    ensures var p1 := MoveApplied(PrepApplied(p, d), s, d);
      Occupied(p1.grid, d)
      && var q := UndoApplied(p1, s, d);
      multiset(Cart(q, c)) == multiset(Cart(p, c)) && q.temp == None
  {
    PrepKeepsValid(p, d);
    var p0 := PrepApplied(p, d);
    MoveCart(p0, s, d, c);
    var p1 := MoveApplied(p0, s, d);
    UndoCart(p1, s, d, c);
    var before := multiset(Cart(p, c));
    assert multiset(Cart(p0, c)) == before;
    if Get(p.grid, d).Some? && ColorOf(Get(p.grid, d).value) == c {
      var x := Get(p.grid, d).value;
      assert p.loc[x] == d && OnBoard(p, x) && Held(p, x);
      assert x in before;
      assert multiset(Cart(p1, c)) == before - multiset{x};
      RestoreOne(before, x);
    }
  }

  /** Taking out one copy of an element and adding it back gives the same multiset. */
  lemma RestoreOne<T>(m: multiset<T>, x: T)
    requires x in m
    ensures (m - multiset{x}) + multiset{x} == m
  {
    assert forall y :: ((m - multiset{x}) + multiset{x})[y] == m[y];
  }

  /**
   * prep_temp_move, move_piece, undo_temp_move in a row put every piece
   * back on its square with its location, return a captured piece to its
   * owner's cart, and clear the temporary slot.
   */
  lemma TempMoveRestores(p: Position, s: Square, d: Square)
    requires Valid(p) && Occupied(p.grid, s) && s != d
    ensures var p1 := MoveApplied(PrepApplied(p, d), s, d);
      Occupied(p1.grid, d)
      && var q := UndoApplied(p1, s, d);
      Equiv(q, p) && q.temp == None
  {
    TempMovePlacement(p, s, d);
    TempMoveCarts(p, s, d);
  }

  /**
   * A temporary move that cannot capture a friend leaves the mover's cart
   * exactly as it was: only the opponent's cart loses and regains a piece.
   */
  lemma TempMoveKeepsMoverCart(p: Position, s: Square, d: Square)
    requires Valid(p) && Occupied(p.grid, s)
    requires !Friendly(p.grid, ColorOf(Get(p.grid, s).value), d)
    ensures var p1 := MoveApplied(PrepApplied(p, d), s, d);
      Occupied(p1.grid, d)
      && Cart(UndoApplied(p1, s, d), ColorOf(Get(p.grid, s).value)) == Cart(p, ColorOf(Get(p.grid, s).value))
  {
    var c := ColorOf(Get(p.grid, s).value);
    PrepKeepsValid(p, d);
    var p0 := PrepApplied(p, d);
    MoverCartKept(p0, s, d);
    var p1 := MoveApplied(p0, s, d);
    assert Get(p1.grid, d) == Get(p.grid, s);
    assert p1.temp == Get(p.grid, d);
  }

  /** Being in check does not look at the temporary slot. */
  lemma InCheckIgnoresTemp(p: Position, q: Position, c: Color)
    requires p.grid == q.grid && p.loc == q.loc && p.blue == q.blue && p.red == q.red
    requires LastGeneral(Cart(p, c)).Some?
    ensures LastGeneral(Cart(q, c)).Some? && InCheck(p, c) == InCheck(q, c)
  {
    assert Cart(p, c) == Cart(q, c) && Cart(p, Opponent(c)) == Cart(q, Opponent(c));
    assert forall id: Id, t: Square :: Attacks(p, id, t) == Attacks(q, id, t);
  }

  /** The check test made during a temporary move is the check test after the plain move. */
  lemma TempMoveCheck(p: Position, s: Square, d: Square, c: Color)
    requires Occupied(p.grid, s) && LastGeneral(Cart(MoveApplied(p, s, d), c)).Some?
    ensures LastGeneral(Cart(MoveApplied(PrepApplied(p, d), s, d), c)).Some?
    ensures InCheck(MoveApplied(PrepApplied(p, d), s, d), c) == InCheck(MoveApplied(p, s, d), c)
  {
    var q := MoveApplied(p, s, d);
    var q1 := MoveApplied(PrepApplied(p, d), s, d);
    assert Get(p.grid, d).Some? ==> WithoutPiece(PrepApplied(p, d), Get(p.grid, d).value).blue == WithoutPiece(p, Get(p.grid, d).value).blue;
    assert Get(p.grid, d).Some? ==> WithoutPiece(PrepApplied(p, d), Get(p.grid, d).value).red == WithoutPiece(p, Get(p.grid, d).value).red;
    assert q1.grid == q.grid && q1.loc == q.loc && q1.blue == q.blue && q1.red == q.red;
    InCheckIgnoresTemp(q, q1, c);
  }

  // ---------------------------------------------------------------------------
  // Cart order does not matter
  // ---------------------------------------------------------------------------

  /** Consistency does not depend on cart order. */
  lemma EquivValid(p: Position, q: Position)
    requires Valid(p) && Equiv(p, q)
    ensures Valid(q)
  {
    forall c: Color
      ensures forall id: Id :: id in Cart(p, c) <==> id in Cart(q, c)
    {
      SameCart(p, q, c);
    }
    assert forall id: Id :: Held(q, id) <==> Held(p, id);
  }

  /** Positions that differ only in cart order hold the same pieces. */
  lemma SameCart(p: Position, q: Position, c: Color)
    requires Equiv(p, q)
    ensures forall id: Id :: id in Cart(p, c) <==> id in Cart(q, c)
  {
    assert multiset(Cart(p, c)) == multiset(Cart(q, c));
    forall id: Id
      ensures id in Cart(p, c) <==> id in Cart(q, c)
    {
      assert id in Cart(p, c) <==> id in multiset(Cart(p, c));
      assert id in Cart(q, c) <==> id in multiset(Cart(q, c));
    }
  }

  /** Both Generals being in play does not depend on cart order. */
  lemma EquivGenerals(p: Position, q: Position, c: Color)
    requires Valid(p) && Equiv(p, q)
    ensures GeneralId(c) in Cart(p, c) <==> GeneralId(c) in Cart(q, c)
    ensures LastGeneral(Cart(p, c)) == LastGeneral(Cart(q, c))
  {
    EquivValid(p, q);
    GeneralOf(p, c);
    GeneralOf(q, c);
    assert GeneralId(c) in Cart(p, c) <==> GeneralId(c) in multiset(Cart(p, c));
    assert GeneralId(c) in Cart(q, c) <==> GeneralId(c) in multiset(Cart(q, c));
  }

  /** Moves applied to positions that differ only in cart order give positions that differ only in cart order. */
  lemma EquivMove(p: Position, q: Position, s: Square, d: Square)
    requires Equiv(p, q) && Occupied(p.grid, s)
    ensures Equiv(MoveApplied(p, s, d), MoveApplied(q, s, d))
  {
    if Get(p.grid, d).Some? {
      var x := Get(p.grid, d).value;
      WithoutPieceCarts(p, x);
      WithoutPieceCarts(q, x);
      assert x in Cart(p, ColorOf(x)) <==> x in multiset(Cart(p, ColorOf(x)));
      assert x in Cart(q, ColorOf(x)) <==> x in multiset(Cart(q, ColorOf(x)));
    }
  }

  /** Being in check does not depend on cart order. */
  lemma EquivInCheck(p: Position, q: Position, c: Color)
    requires Valid(p) && Equiv(p, q) && LastGeneral(Cart(p, c)).Some?
    ensures LastGeneral(Cart(q, c)).Some? && InCheck(p, c) == InCheck(q, c)
  {
    EquivGenerals(p, q, c);
    var o := Opponent(c);
    forall id: Id
      ensures id in Cart(p, o) <==> id in Cart(q, o)
    {
      assert id in Cart(p, o) <==> id in multiset(Cart(p, o));
      assert id in Cart(q, o) <==> id in multiset(Cart(q, o));
    }
  }

  /** Board.is_legal's answer does not depend on cart order. */
  lemma EquivCompositeLegal(p: Position, q: Position, s: Square, d: Square)
    requires Valid(p) && Equiv(p, q) && Occupied(p.grid, s)
    requires LastGeneral(Cart(p, ColorOf(Get(p.grid, s).value))).Some?
    ensures LastGeneral(Cart(q, ColorOf(Get(p.grid, s).value))).Some?
    ensures CompositeLegal(p, s, d) == CompositeLegal(q, s, d)
  {
    var c := ColorOf(Get(p.grid, s).value);
    EquivGenerals(p, q, c);
    if PieceLegal(p.grid, PieceOf(Get(p.grid, s).value), s, d) {
      MoverCartKept(p, s, d);
      MoverCartKept(q, s, d);
      MoveKeepsValid(p, s, d);
      EquivMove(p, q, s, d);
      EquivInCheck(MoveApplied(p, s, d), MoveApplied(q, s, d), c);
    }
  }

  /** Whether a player can move a piece onto a square does not depend on cart order. */
  lemma EquivCanReach(p: Position, q: Position, c: Color, target: Square)
    requires Valid(p) && HasGenerals(p) && Equiv(p, q)
    ensures Valid(q) && HasGenerals(q)
    ensures CanReach(p, c, target) == CanReach(q, c, target)
  {
    EquivValid(p, q);
    SameCart(p, q, Blue);
    SameCart(p, q, Red);
    SameCart(p, q, c);
    assert GeneralId(Blue) in Cart(p, Blue) && GeneralId(Red) in Cart(p, Red);
    assert HasGenerals(q);
    forall d: Id | d in Cart(p, c)
      ensures Reaches(p, c, d, target) == Reaches(q, c, d, target)
    {
      HeldPiece(p, c, d);
      GeneralOf(p, c);
      EquivCompositeLegal(p, q, p.loc[d], target);
    }
  }

  /**
   * In a position that differs from `p0` only in cart order, a piece of
   * `c`'s cart stands where `p0` has it, its owner's General is in play,
   * and the legality test of its move is the one in `p0`.
   */
  lemma EquivPieceTest(p0: Position, cur: Position, c: Color, d: Id, target: Square)
    requires Valid(p0) && HasGenerals(p0) && Equiv(cur, p0) && d in Cart(p0, c)
    ensures Valid(cur) && HasGenerals(cur) && cur.loc[d] == p0.loc[d]
    ensures Occupied(cur.grid, cur.loc[d]) && Get(cur.grid, cur.loc[d]).value == d && ColorOf(d) == c
    ensures LastGeneral(Cart(cur, c)).Some? && LastGeneral(Cart(p0, c)).Some?
    ensures CompositeLegal(cur, cur.loc[d], target) == CompositeLegal(p0, p0.loc[d], target)
  {
    HeldPiece(p0, c, d);
    GeneralOf(p0, c);
    EquivValid(p0, cur);
    EquivGenerals(p0, cur, Blue);
    EquivGenerals(p0, cur, Red);
    EquivCompositeLegal(p0, cur, p0.loc[d], target);
  }

  /**
   * The General's escape test of Board.is_in_checkmate, made as a
   * temporary move in a position that differs from `p0` only in cart
   * order: the check test after the move is the one `GeneralEscapes`
   * asks about in `p0`, and the undo gives back `p0` up to cart order.
   */
  lemma EscapeTest(p0: Position, cur: Position, c: Color, sq: Square)
    requires Valid(p0) && HasGenerals(p0) && Equiv(cur, p0)
    requires PieceLegal(cur.grid, PieceOf(GeneralId(c)), p0.loc[GeneralId(c)], sq)
    ensures var gl := p0.loc[GeneralId(c)];
      Occupied(cur.grid, gl)
      && var p1 := MoveApplied(PrepApplied(cur, sq), gl, sq);
      Occupied(p1.grid, sq) && LastGeneral(Cart(p1, c)).Some?
      && (InCheck(p1, c) <==> !GeneralEscapes(p0, c, sq))
      && Equiv(UndoApplied(p1, gl, sq), p0) && UndoApplied(p1, gl, sq).temp == None
  {
    var g := GeneralId(c);
    var gl := p0.loc[g];
    HeldPiece(p0, c, g);
    GeneralOf(p0, c);
    EquivValid(p0, cur);
    EquivGenerals(p0, cur, c);
    GeneralOf(cur, c);
    assert gl != sq;
    TempMoveRestores(cur, gl, sq);
    MoverCartKept(cur, gl, sq);
    TempMoveCheck(cur, gl, sq, c);
    MoverCartKept(p0, gl, sq);
    MoveKeepsValid(p0, gl, sq);
    EquivMove(p0, cur, gl, sq);
    EquivInCheck(MoveApplied(p0, gl, sq), MoveApplied(cur, gl, sq), c);
  }

  /**
   * A threatening piece moves by its own rule onto the General, so its
   * path is defined; its threat can be met by capturing it or by stepping
   * onto its path.
   */
  lemma ThreatPath(p: Position, c: Color, a: Id)
    requires Valid(p) && HasGenerals(p) && Threatens(p, c, a)
    ensures PieceLegal(p.grid, PieceOf(a), p.loc[a], p.loc[GeneralId(c)])
    ensures Answerable(p, c, a) <==>
      CanReach(p, c, p.loc[a])
      || exists sq :: sq in MovePath(PieceOf(a), p.loc[a], p.loc[GeneralId(c)]) && CanReach(p, c, sq)
  {
    HeldPiece(p, Opponent(c), a);
  }

  /**
   * Checkmate as Board.is_in_checkmate decides it, from the list of the
   * pieces that threaten the General.
   */
  lemma CheckmateByParts(p: Position, c: Color, attackers: seq<Id>)
    requires Valid(p) && HasGenerals(p)
    requires forall a :: a in attackers <==> a in Cart(p, Opponent(c)) && Threatens(p, c, a)
    ensures LastGeneral(Cart(p, c)).Some?
    ensures Checkmate(p, c) <==>
      InCheck(p, c)
      && !(exists a :: a in attackers && Answerable(p, c, a))
      && !(exists sq :: sq in PalaceOf(c) && GeneralEscapes(p, c, sq))
  {
    GeneralOf(p, c);
  }

  /** Whether a piece threatens the General, and whether that threat can be met, do not depend on cart order. */
  lemma EquivThreat(p: Position, q: Position, c: Color, a: Id)
    requires Valid(p) && HasGenerals(p) && Equiv(p, q) && Valid(q) && HasGenerals(q)
    requires a in Cart(p, Opponent(c)) && a in Cart(q, Opponent(c))
    ensures Threatens(p, c, a) == Threatens(q, c, a)
    ensures Threatens(p, c, a) ==> Answerable(p, c, a) == Answerable(q, c, a)
  {
    var o := Opponent(c);
    HeldPiece(p, o, a);
    GeneralOf(p, o);
    GeneralOf(p, c);
    EquivCompositeLegal(p, q, p.loc[a], p.loc[GeneralId(c)]);
    EquivCanReach(p, q, c, p.loc[a]);
    forall sq: Square
      ensures CanReach(p, c, sq) == CanReach(q, c, sq)
    {
      EquivCanReach(p, q, c, sq);
    }
  }

  /** Whether the General can step out of check does not depend on cart order. */
  lemma EquivEscape(p: Position, q: Position, c: Color, sq: Square)
    requires Valid(p) && HasGenerals(p) && Equiv(p, q) && Valid(q) && HasGenerals(q)
    ensures GeneralEscapes(p, c, sq) == GeneralEscapes(q, c, sq)
  {
    var gl := p.loc[GeneralId(c)];
    HeldPiece(p, c, GeneralId(c));
    GeneralOf(p, c);
    if PieceLegal(p.grid, PieceOf(GeneralId(c)), gl, sq) {
      MoverCartKept(p, gl, sq);
      MoverCartKept(q, gl, sq);
      MoveKeepsValid(p, gl, sq);
      EquivMove(p, q, gl, sq);
      EquivInCheck(MoveApplied(p, gl, sq), MoveApplied(q, gl, sq), c);
    }
  }

  /** Checkmate does not depend on cart order. */
  lemma EquivCheckmate(p: Position, q: Position, c: Color)
    requires Valid(p) && HasGenerals(p) && Equiv(p, q)
    ensures Valid(q) && HasGenerals(q)
    ensures Checkmate(p, c) == Checkmate(q, c)
  {
    EquivCanReach(p, q, c, p.loc[GeneralId(c)]);
    GeneralOf(p, c);
    EquivInCheck(p, q, c);
    var o := Opponent(c);
    SameCart(p, q, o);
    forall a: Id | a in Cart(p, o)
      ensures Threatens(p, c, a) == Threatens(q, c, a)
      ensures Threatens(p, c, a) ==> Answerable(p, c, a) == Answerable(q, c, a)
    {
      EquivThreat(p, q, c, a);
    }
    forall sq: Square
      ensures GeneralEscapes(p, c, sq) == GeneralEscapes(q, c, sq)
    {
      EquivEscape(p, q, c, sq);
    }
  }
}
