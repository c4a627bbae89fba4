/*
 * The game (class JanggiGame): two players, a board, the game state and
 * the player to move. make_move validates a request given as two square
 * names, makes the move, passes the turn and detects checkmate.
 *
 * `Step` is the specification of make_move on values; the class's
 * methods are proved against it, and the rules of play (a rejected
 * request changes nothing, a finished game stays finished, the mover is
 * never left in check, a game is won exactly by checkmate) are proved
 * about it.
 */
module Games {
  import opened Locations
  import opened Pieces
  import opened Rules
  import opened Positions
  import opened PositionFacts
  import opened Setup
  import opened Boards

  /** get_game_state: 'UNFINISHED', 'RED_WON' or 'BLUE_WON'. */
  datatype GameState = Unfinished | RedWon | BlueWon

  /** The game as a value: the position, the colour to move, and the game state. */
  datatype Play = Play(pos: Position, current: Color, state: GameState)

  /** The colour names the game's is_in_check is called with. */
  function ColorName(c: Color): string
  {
    if c == Blue then "blue" else "red"
  }

  /** JanggiGame.is_in_check's reading of a colour name: "blue", and anything else is red. */
  function ColorNamed(name: string): (c: Color)
    ensures c == Blue <==> name == "blue"
  {
    if name == "blue" then Blue else Red
  }

  /** The state in which `winner` has won. */
  function Won(winner: Color): GameState
  {
    if winner == Blue then BlueWon else RedWon
  }

  /**
   * What holds between moves: a consistent position with both Generals,
   * nothing in the temporary slot, and the player who just moved (the
   * opponent of the one to move) not in check.
   */
  ghost predicate Playable(g: Play)
  {
    Valid(g.pos) && HasGenerals(g.pos) && g.pos.temp == None
    && (GeneralOf(g.pos, Opponent(g.current)); !InCheck(g.pos, Opponent(g.current)))
  }

  /**
   * make_move can decode each name it gets as far as decoding: the source
   * once the game is on and the names differ, the destination only once the
   * source holds a piece of the player to move.
   */
  predicate Decodable(g: Play, source: string, destination: string)
  {
    g.state == Unfinished && source != destination ==>
      Decode(source).Some?
      && (Friendly(g.pos.grid, g.current, Decode(source).value) ==> Decode(destination).Some?)
  }

  /**
   * JanggiGame.make_move on values: the new game and whether the request
   * was accepted. In order: a finished game refuses; equal names pass the
   * turn unless the player to move is in check; an empty source square or
   * a piece of the other player refuses; a move that fails Board.is_legal
   * refuses; otherwise the move is made, the turn passes, and the game is
   * won by the mover if the new player to move is checkmated.
   */
  function Step(g: Play, source: string, destination: string): (r: (Play, bool))
    requires Playable(g) && Decodable(g, source, destination)
  {
    if g.state != Unfinished then (g, false)
    else if source == destination then
      GeneralOf(g.pos, g.current);
      if InCheck(g.pos, g.current) then (g, false) else (g.(current := Opponent(g.current)), true)
    else
      var s := Decode(source).value;
      if Get(g.pos.grid, s).None? then (g, false)
      else if ColorOf(Get(g.pos.grid, s).value) != g.current then (g, false)
      else
        var d := Decode(destination).value;
        GeneralOf(g.pos, g.current);
        if !CompositeLegal(g.pos, s, d) then (g, false)
        else
          LegalMoveKeepsPlay(g, s, d);
          var q := MoveApplied(g.pos, s, d);
          var next := Opponent(g.current);
          (Play(q, next, if Checkmate(q, next) then Won(g.current) else Unfinished), true)
  }

  /** The position after a legal move of the player to move is consistent, with both Generals. */
  lemma LegalMoveKeepsPlay(g: Play, s: Square, d: Square)
    requires Playable(g) && Friendly(g.pos.grid, g.current, s)
    requires LastGeneral(Cart(g.pos, g.current)).Some? && CompositeLegal(g.pos, s, d)
    ensures Valid(MoveApplied(g.pos, s, d)) && HasGenerals(MoveApplied(g.pos, s, d))
    ensures MoveApplied(g.pos, s, d).temp == None
  {
    GeneralOf(g.pos, Opponent(g.current));
    MoveSparesGenerals(g.pos, g.current, s, d);
    MoveKeepsValid(g.pos, s, d);
    MoveKeepsGenerals(g.pos, s, d);
  }

  // ---------------------------------------------------------------------------
  // The rules of play, proved about Step
  // ---------------------------------------------------------------------------

  /** A refused request leaves the game exactly as it was. */
  lemma RefusedChangesNothing(g: Play, source: string, destination: string)
    requires Playable(g) && Decodable(g, source, destination)
    ensures !Step(g, source, destination).1 ==> Step(g, source, destination).0 == g
  {
  }

  /** Once the game is won, every request is refused. */
  lemma FinishedIsFinal(g: Play, source: string, destination: string)
    requires Playable(g) && Decodable(g, source, destination) && g.state != Unfinished
    ensures Step(g, source, destination) == (g, false)
  {
  }

  /** An accepted request passes the turn to the other player. */
  lemma AcceptedPassesTurn(g: Play, source: string, destination: string)
    requires Playable(g) && Decodable(g, source, destination)
    ensures Step(g, source, destination).1 ==> Step(g, source, destination).0.current == Opponent(g.current)
  {
  }

  /** Passing (equal names) is accepted exactly when the game is on and the player to move is not in check. */
  lemma PassRule(g: Play, square: string)
    requires Playable(g) && Decodable(g, square, square)
    ensures LastGeneral(Cart(g.pos, g.current)).Some?
    ensures Step(g, square, square).1 <==> g.state == Unfinished && !InCheck(g.pos, g.current)
    ensures Step(g, square, square).0.pos == g.pos
  {
    GeneralOf(g.pos, g.current);
  }

  /**
   * An accepted move moves a piece of the player to move, by Board.is_legal,
   * and is the board's move_piece.
   */
  lemma AcceptedMoveIsLegal(g: Play, source: string, destination: string)
    requires Playable(g) && Decodable(g, source, destination)
    requires source != destination && Step(g, source, destination).1
    ensures var s := Decode(source).value;
      Friendly(g.pos.grid, g.current, s)
      && var d := Decode(destination).value;
      LastGeneral(Cart(g.pos, g.current)).Some?
      && CompositeLegal(g.pos, s, d)
      && Step(g, source, destination).0.pos == MoveApplied(g.pos, s, d)
  {
    GeneralOf(g.pos, g.current);
  }

  /**
   * The game is won exactly when an accepted move leaves the new player to
   * move checkmated, and the winner is the player who moved.
   */
  lemma WonExactlyByCheckmate(g: Play, source: string, destination: string)
    requires Playable(g) && Decodable(g, source, destination) && g.state == Unfinished
    ensures var (h, accepted) := Step(g, source, destination);
      Valid(h.pos) && HasGenerals(h.pos)
      && (h.state != Unfinished <==> accepted && source != destination && Checkmate(h.pos, h.current))
      && (h.state != Unfinished ==> h.state == Won(g.current))
  {
    StepKeepsPlayable(g, source, destination);
  }

  /** Step keeps a game playable: in particular the player who moved is never left in check. */
  lemma StepKeepsPlayable(g: Play, source: string, destination: string)
    requires Playable(g) && Decodable(g, source, destination)
    ensures Playable(Step(g, source, destination).0)
  {
    var (h, accepted) := Step(g, source, destination);
    if accepted && g.state == Unfinished {
      GeneralOf(g.pos, g.current);
      if source == destination {
        assert h.pos == g.pos && Opponent(h.current) == g.current;
      } else {
        var s, d := Decode(source).value, Decode(destination).value;
        LegalMoveKeepsPlay(g, s, d);
        MoverCartKept(g.pos, s, d);
        assert h.pos == MoveApplied(g.pos, s, d) && Opponent(h.current) == g.current;
      }
    }
  }

  /** The game after an accepted move: the move made, the turn passed, and a win exactly on checkmate. */
  lemma AcceptedStep(g: Play, source: string, destination: string, s: Square, d: Square)
    requires Playable(g) && Decodable(g, source, destination) && g.state == Unfinished && source != destination
    requires s == Decode(source).value && Friendly(g.pos.grid, g.current, s)
    requires d == Decode(destination).value && LastGeneral(Cart(g.pos, g.current)).Some? && CompositeLegal(g.pos, s, d)
    ensures (LegalMoveKeepsPlay(g, s, d);
      var q := MoveApplied(g.pos, s, d);
      var h := Play(q, Opponent(g.current), if Checkmate(q, Opponent(g.current)) then Won(g.current) else Unfinished);
      Step(g, source, destination) == (h, true) && Playable(h))
  {
    StepKeepsPlayable(g, source, destination);
  }

  /** A capture takes exactly one piece out of play; every other accepted request keeps them all. */
  lemma StepCount(g: Play, source: string, destination: string)
    requires Playable(g) && Decodable(g, source, destination)
    ensures var h := Step(g, source, destination).0;
      |h.pos.blue| + |h.pos.red| == |g.pos.blue| + |g.pos.red|
      || (source != destination
          && |h.pos.blue| + |h.pos.red| == |g.pos.blue| + |g.pos.red| - 1
          && Decode(destination).Some? && Occupied(g.pos.grid, Decode(destination).value))
  {
    var (h, accepted) := Step(g, source, destination);
    if accepted && g.state == Unfinished && source != destination {
      var s, d := Decode(source).value, Decode(destination).value;
      MoveCount(g.pos, s, d);
    }
  }

  /** The opening: blue to move, nobody in check, the game on. */
  lemma OpeningIsPlayable(g: Play)
    requires g == Play(InitialPosition(), Blue, Unfinished)
    ensures Playable(g)
  {
    InitialValid();
    InitialNoCheck(Red);
    ListingFields(InitialGrid(), InitialLoc());
  }

  /** Two games that differ only in the order of the carts. */
  ghost predicate Same(g: Play, h: Play)
  {
    Equiv(g.pos, h.pos) && g.current == h.current && g.state == h.state
  }

  /** Being playable does not depend on cart order. */
  lemma SamePlayable(g: Play, h: Play)
    requires Playable(g) && Same(g, h) && h.pos.temp == None
    ensures Playable(h)
  {
    EquivValid(g.pos, h.pos);
    EquivGenerals(g.pos, h.pos, Blue);
    EquivGenerals(g.pos, h.pos, Red);
    GeneralOf(g.pos, Opponent(g.current));
    EquivInCheck(g.pos, h.pos, Opponent(g.current));
  }

  // ---------------------------------------------------------------------------
  // The game object
  // ---------------------------------------------------------------------------

  class Game {
    const blue: Player
    const red: Player
    const board: Board
    var state: GameState
    var current: Player

    /** The game as a value. */
    function View(): Play
      reads this, board, board.blue, board.red
    {
      Play(board.Snapshot(), current.color, state)
    }

    /** The board plays with this game's players, and the game is playable. */
    ghost predicate Valid()
      reads this, board, blue, red, board.blue, board.red
    {
      board.blue == blue && board.red == red && board.Players()
      && (current == blue || current == red)
      && Playable(View())
    }

    /**
     * JanggiGame.__init__: two players, a board laid out with the opening
     * position, the game unfinished and blue to move.
     */
    constructor ()
      ensures Valid() && View() == Play(InitialPosition(), Blue, Unfinished)
      ensures fresh(board) && fresh(blue) && fresh(red)
    {
      var b := new Player(Blue);
      var r := new Player(Red);
      var bd := new Board(b, r);
      bd.InitializeBoard();
      blue := b;
      red := r;
      board := bd;
      state := Unfinished;
      current := b;
      new;
      OpeningListing(board.Snapshot());
      OpeningIsPlayable(View());
    }

    /** JanggiGame.toggle_players. */
    method TogglePlayers()
      requires current == blue || current == red
      modifies this
      ensures current == (if old(current) == blue then red else blue)
      ensures state == old(state)
    {
      if current == blue {
        current := red;
      } else {
        current := blue;
      }
    }

    /** JanggiGame.is_in_check: "blue" asks about blue, any other name about red. */
    method IsInCheck(color: string) returns (check: bool)
      requires Valid()
      ensures LastGeneral(Cart(View().pos, ColorNamed(color))).Some?
      ensures check == InCheck(View().pos, ColorNamed(color))
    {
      GeneralOf(View().pos, ColorNamed(color));
      if color == "blue" {
        check := board.IsInCheck(blue);
      } else {
        check := board.IsInCheck(red);
      }
    }

    /**
     * JanggiGame.make_move, proved against `Step`: the answer is Step's,
     * and the new game is Step's up to the order of the carts.
     */
    method MakeMove(source: string, destination: string) returns (accepted: bool)
      requires Valid() && Decodable(View(), source, destination)
      modifies this, board, blue, red
      ensures Valid()
      ensures accepted == Step(old(View()), source, destination).1
      ensures Same(View(), Step(old(View()), source, destination).0)
    {
      ghost var g := View();
      if state != Unfinished {
        return false;
      }
      if source == destination {
        accepted := Pass(source, g);
      } else {
        accepted := Request(source, destination, g);
      }
    }

    /** make_move with equal names: the turn passes unless the player to move is in check. */
    method Pass(ghost square: string, ghost g: Play) returns (accepted: bool)
      requires Valid() && g == View() && g.state == Unfinished && Decodable(g, square, square)
      modifies this
      ensures Valid() && accepted == Step(g, square, square).1
      ensures Same(View(), Step(g, square, square).0)
    {
      var check := IsInCheck(ColorName(current.color));
      if check {
        return false;
      }
      TogglePlayers();
      StepKeepsPlayable(g, square, square);
      return true;
    }

    /**
     * make_move with two different names: refused for an empty source, a
     * piece of the other player or a move that fails Board.is_legal, and
     * made otherwise.
     */
    method Request(source: string, destination: string, ghost g: Play) returns (accepted: bool)
      requires Valid() && g == View() && g.state == Unfinished && source != destination && Decodable(g, source, destination)
      modifies this, board, blue, red
      ensures Valid() && accepted == Step(g, source, destination).1
      ensures Same(View(), Step(g, source, destination).0)
    {
      var s := Decode(source).value;
      var occupant := Get(board.grid, s);
      if occupant.None? {
        return false;
      }
      if ColorOf(occupant.value) != current.color {
        return false;
      }
      var d := Decode(destination).value;
      GeneralOf(g.pos, current.color);
      var legal := board.IsLegal(s, d);
      if !legal {
        SamePlayable(g, View());
        return false;
      }
      Accept(s, d, source, destination, g);
      return true;
    }

    /**
     * The accepted branch of make_move, proved against `Step`: the game
     * after Commit is Step's game, up to the order of the carts.
     */
    method Accept(s: Square, d: Square, ghost source: string, ghost destination: string, ghost g: Play)
      requires board.blue == blue && board.red == red && board.Players() && (current == blue || current == red)
      requires Playable(g) && Decodable(g, source, destination) && g.state == Unfinished && source != destination
      requires s == Decode(source).value && Friendly(g.pos.grid, g.current, s)
      requires d == Decode(destination).value && LastGeneral(Cart(g.pos, g.current)).Some? && CompositeLegal(g.pos, s, d)
      requires Equiv(board.Snapshot(), g.pos) && board.temp == None && current.color == g.current && state == g.state
      modifies this, board, blue, red
      ensures Valid() && Step(g, source, destination).1
      ensures Same(View(), Step(g, source, destination).0)
    {
      ghost var q := MoveApplied(g.pos, s, d);
      LegalMoveKeepsPlay(g, s, d);
      ghost var h := Play(q, Opponent(g.current), if Checkmate(q, Opponent(g.current)) then Won(g.current) else Unfinished);
      AcceptedStep(g, source, destination, s, d);
      EquivMove(g.pos, board.Snapshot(), s, d);
      Commit(s, d, q);
      SamePlayable(h, View());
    }

    /**
     * Move the piece, pass the turn, and end the game if the new player to
     * move is checkmated; `q` is the position after the move, in any cart order.
     */
    method Commit(s: Square, d: Square, ghost q: Position)
      requires board.blue == blue && board.red == red && board.Players() && (current == blue || current == red)
      requires Occupied(board.grid, s) && board.temp == None
      requires Positions.Valid(q) && HasGenerals(q) && Equiv(q, MoveApplied(board.Snapshot(), s, d))
      modifies this, board, blue, red
      ensures board.blue == blue && board.red == red && board.Players() && (current == blue || current == red)
      ensures current.color == Opponent(old(current.color)) && board.temp == None && Equiv(q, board.Snapshot())
      ensures state == if Checkmate(q, current.color) then Won(old(current.color)) else old(state)
    {
      board.MovePiece(s, d);
      TogglePlayers();
      assert current.color == Opponent(old(current.color));
      EndIfCheckmate(q);
    }

    /** The end of make_move: the game is won by the mover when the player to move is checkmated. */
    method EndIfCheckmate(ghost q: Position)
      requires board.blue == blue && board.red == red && board.Players() && (current == blue || current == red)
      requires Positions.Valid(q) && HasGenerals(q) && Equiv(q, board.Snapshot()) && board.temp == None
      modifies this, board, blue, red
      ensures board.blue == blue && board.red == red && board.Players() && current == old(current)
      ensures board.temp == None && Equiv(q, board.Snapshot())
      ensures state == if Checkmate(q, current.color) then Won(Opponent(current.color)) else old(state)
    {
      ghost var moved := board.Snapshot();
      EquivValid(q, moved);
      EquivGenerals(q, moved, Blue);
      EquivGenerals(q, moved, Red);
      var mate := board.IsInCheckmate(current);
      EquivCheckmate(q, moved, current.color);
      if mate {
        if current == blue {
          state := RedWon;
        } else {
          state := BlueWon;
        }
      }
    }
  }
}
