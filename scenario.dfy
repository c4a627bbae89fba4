/*
 * The opening exchange the program's main function plays: blue advances
 * its center soldier e7 to e6, then red advances its center soldier e4 to
 * e5. Both requests are accepted, nothing is captured, and the game goes
 * on with blue to move.
 */
module Scenario {
  import opened Locations
  import opened Pieces
  import opened Rules
  import opened Positions
  import opened PositionFacts
  import opened Setup
  import opened Boards
  import opened Games

  const E4: Square := Coord(3, 4)
  const E5: Square := Coord(4, 4)
  const E6: Square := Coord(5, 4)

  /** Blue's soldier on e7 and red's soldier on e4 at the opening. */
  const BlueCenterSoldier: Id := 18
  const RedCenterSoldier: Id := 13

  /**
   * A piece of kind `pc` on `from` is too far from `to` to move there: four
   * or more rows away, not sliding along the same column, and not on a
   * palace diagonal with it.
   */
  predicate Distant(pc: Piece, from: Square, to: Square)
  {
    Abs(to.row - from.row) >= 4
    && (from.col == to.col ==> pc.kind != Chariot && pc.kind != Cannon)
    && !PalaceDiagonal(from, to)
  }

  /** Every piece of the opponent of `c` is too far from `c`'s General to attack it. */
  predicate Quiet(p: Position, c: Color)
  {
    forall id: Id :: ColorOf(id) == Opponent(c) ==> Distant(PieceOf(id), p.loc[id], p.loc[GeneralId(c)])
  }

  /** A player none of whose enemies is within reach of the General is not in check. */
  lemma NoCheckFromAfar(p: Position, c: Color)
    requires Valid(p) && HasGenerals(p) && Quiet(p, c)
    ensures LastGeneral(Cart(p, c)) == Some(GeneralId(c))
    ensures !InCheck(p, c)
  {
    GeneralOf(p, c);
    forall id | id in Cart(p, Opponent(c))
      ensures !Attacks(p, id, p.loc[GeneralId(c)])
    {
      OutOfReach(p.grid, PieceOf(id), p.loc[id], p.loc[GeneralId(c)]);
    }
  }

  /**
   * make_move accepts a rule-abiding move of the player's own piece to an
   * empty square when, afterwards, neither General is within reach of an
   * enemy piece; the turn passes and the game goes on.
   */
  lemma QuietStep(g: Play, source: string, destination: string, s: Square, d: Square)
    requires Playable(g) && g.state == Unfinished
    requires Decode(source) == Some(s) && Decode(destination) == Some(d) && s != d
    requires Friendly(g.pos.grid, g.current, s) && !Occupied(g.pos.grid, d)
    requires PieceLegal(g.pos.grid, PieceOf(Get(g.pos.grid, s).value), s, d)
    requires Quiet(MoveApplied(g.pos, s, d), Blue) && Quiet(MoveApplied(g.pos, s, d), Red)
    ensures Step(g, source, destination) == (Play(MoveApplied(g.pos, s, d), Opponent(g.current), Unfinished), true)
  {
    var p, c := g.pos, g.current;
    var q := MoveApplied(p, s, d);
    MoveKeepsValid(p, s, d);
    MoveKeepsGenerals(p, s, d);
    GeneralOf(p, c);
    MoverCartKept(p, s, d);
    NoCheckFromAfar(q, c);
    NoCheckFromAfar(q, Opponent(c));
    assert CompositeLegal(p, s, d);
  }

  /** The grid after blue's e7-e6. */
  function FirstGrid(): Grid
  {
    Put(Put(InitialGrid(), E6, Some(BlueCenterSoldier)), E7, None)
  }

  /** The grid after red's reply e4-e5. */
  function SecondGrid(): Grid
  {
    Put(Put(FirstGrid(), E5, Some(RedCenterSoldier)), E4, None)
  }

  /** The four square names of the exchange decode to their squares. */
  lemma NamesDecode()
    ensures Decode("e7") == Some(E7) && Decode("e6") == Some(E6)
    ensures Decode("e4") == Some(E4) && Decode("e5") == Some(E5)
  {
    DecodeEncode(E7);
    DecodeEncode(E6);
    DecodeEncode(E4);
    DecodeEncode(E5);
  }

  /** At the opening blue's center soldier stands on e7, e6 is empty, and the soldier may advance. */
  lemma FirstFacts(grid: Grid)
    requires grid == InitialGrid()
    ensures Get(grid, E7) == Some(BlueCenterSoldier) && Get(grid, E6) == None
    ensures PieceLegal(grid, PieceOf(BlueCenterSoldier), E7, E6)
  {
  }

  /** After e7-e6 red's center soldier stands on e4, e5 is empty, and the soldier may advance. */
  lemma SecondFacts(grid: Grid)
    requires grid == FirstGrid()
    ensures Get(grid, E4) == Some(RedCenterSoldier) && Get(grid, E5) == None
    ensures PieceLegal(grid, PieceOf(RedCenterSoldier), E4, E5)
  {
  }

  /** With blue's soldier on e6, no piece is within reach of the enemy General. */
  lemma FirstQuiet(p: Position)
    requires p.loc == InitialLoc()[BlueCenterSoldier := E6]
    ensures Quiet(p, Blue) && Quiet(p, Red)
  {
    InitialGeneralSquares();
    forall id: Id | id != BlueCenterSoldier
      ensures var to := if id < 16 then E9 else E2; Distant(PieceOf(id), p.loc[id], to)
    {
      InitialOutOfReach(id);
    }
  }

  /** With both center soldiers advanced, no piece is within reach of the enemy General. */
  lemma SecondQuiet(p: Position)
    requires p.loc == InitialLoc()[BlueCenterSoldier := E6][RedCenterSoldier := E5]
    ensures Quiet(p, Blue) && Quiet(p, Red)
  {
    InitialGeneralSquares();
    forall id: Id | id != BlueCenterSoldier && id != RedCenterSoldier
      ensures var to := if id < 16 then E9 else E2; Distant(PieceOf(id), p.loc[id], to)
    {
      InitialOutOfReach(id);
    }
  }

  /**
   * Blue's first request e7-e6, on the opening board, is accepted: the
   * soldier advances, red is to move, the game goes on, and the carts are
   * untouched.
   */
  lemma FirstMove(g: Play)
    requires Playable(g) && g.current == Blue && g.state == Unfinished
    requires g.pos.grid == InitialGrid() && g.pos.loc == InitialLoc()
    ensures (NamesDecode(); var (h, accepted) := Step(g, "e7", "e6");
      accepted && h.current == Red && h.state == Unfinished
      && h.pos.grid == FirstGrid() && h.pos.loc == InitialLoc()[BlueCenterSoldier := E6]
      && h.pos.blue == g.pos.blue && h.pos.red == g.pos.red)
  {
    NamesDecode();
    FirstFacts(g.pos.grid);
    FirstQuiet(MoveApplied(g.pos, E7, E6));
    QuietStep(g, "e7", "e6", E7, E6);
  }

  /**
   * Red's reply e4-e5, in any game reached by blue's e7-e6 (whatever the
   * order of the carts), is accepted: the soldier advances, blue is to
   * move, the game goes on, and the carts are untouched.
   */
  lemma SecondMove(g: Play)
    requires Playable(g) && g.current == Red && g.state == Unfinished
    requires g.pos.grid == FirstGrid() && g.pos.loc == InitialLoc()[BlueCenterSoldier := E6]
    ensures (NamesDecode(); var (h, accepted) := Step(g, "e4", "e5");
      accepted && h.current == Blue && h.state == Unfinished
      && h.pos.grid == SecondGrid() && h.pos.loc == InitialLoc()[BlueCenterSoldier := E6][RedCenterSoldier := E5]
      && h.pos.blue == g.pos.blue && h.pos.red == g.pos.red)
  {
    NamesDecode();
    SecondFacts(g.pos.grid);
    SecondQuiet(MoveApplied(g.pos, E4, E5));
    QuietStep(g, "e4", "e5", E4, E5);
  }

  /**
   * main: a new game, blue plays e7-e6, red plays e4-e5. Both requests are
   * accepted, and blue is to move in an unfinished game with both center
   * soldiers advanced.
   */
  method OpeningExchange() returns (game: Game, first: bool, second: bool)
    ensures first && second && game.Valid()
    ensures game.View().current == Blue && game.View().state == Unfinished
    ensures game.View().pos.grid == SecondGrid()
    ensures game.View().pos.loc == InitialLoc()[BlueCenterSoldier := E6][RedCenterSoldier := E5]
  {
    game := new Game();
    ghost var g0 := game.View();
    OpeningIsPlayable(g0);
    ListingFields(InitialGrid(), InitialLoc());
    FirstMove(g0);
    NamesDecode();
    first := game.MakeMove("e7", "e6");
    ghost var g1 := game.View();
    StepKeepsPlayable(g0, "e7", "e6");
    SamePlayable(Step(g0, "e7", "e6").0, g1);
    SecondMove(g1);
    second := game.MakeMove("e4", "e5");
  }
}
