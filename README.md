# Janggi rules engine, modelled in Dafny

This project models the rules engine of a two-player Janggi (Korean chess)
program, `JanggiGame.py`. The engine has five parts, and the model has them too:

- **The location codec.** `decode_location` and `encode_location` convert
  square names such as `"b7"` to grid indices (row, column) and back.
  They are module `Locations`, together with the palace geometry.
- **The pieces and the grid.** Module `Pieces` holds the 32 pieces as a fixed
  arena of ids, each with a kind and a colour. Red is ids 0..15 and blue is
  16..31. The grid is ten rows of nine optional piece ids.
- **The seven movement rules.** Module `Rules` holds the `is_legal` and
  `move_path` of General, Guard, Elephant, Horse, Chariot, Cannon and
  Soldier, as pure functions. Module `RuleFacts` proves what the rules mean
  geometrically.
- **The board and the check and checkmate search.**
  - Module `Positions` states, on values, what every board operation computes.
    It covers `move_piece`, the temporary-move slot (`prep_temp_move` and
    `undo_temp_move`), the composite `Board.is_legal`, `is_in_check` and
    `is_in_checkmate`.
  - Module `PositionFacts` proves what these operations keep and restore.
  - Module `Setup` builds the opening position of `initialize_board` and proves
    it consistent and free of check.
  - Module `Boards` holds the mutable classes `Player` (a colour and a cart)
    and `Board` (the grid, each piece's location, the temporary slot and the
    two players). Every method is proved against the value-level function.
- **The game.** Module `Games` holds the game state machine of `make_move` and
  `toggle_players`:
  - `Step` is `make_move` on values;
  - the rules of play are lemmas about `Step`;
  - `class Game` is proved to follow `Step`.

  Module `Scenario` plays the two moves of the program's `main` (e7-e6, then
  e4-e5) and proves that both are accepted.

Each piece's location string is modelled as a table `loc` from piece id to
square. The game state strings `"UNFINISHED"`, `"RED_WON"` and `"BLUE_WON"`
are modelled as the datatype `GameState`.

The docstring of `Board.decode_location` (JanggiGame.py:844) says `"b7"`
decodes to (1, 6). The code and the docstring of `Piece.decode_location`
(JanggiGame.py:1141) give (6, 1). The model follows the code.

What the engine does, as the model states it:

- `move_piece` captures unconditionally. A temporary move restores every cell
  and every location. Each cart is restored as a multiset, because
  `undo_temp_move` appends the restored piece at the end of the cart.
- The composite legality check (`Board.is_legal`) requires a piece on the
  source square.
- The checkmate search builds its attacker list with the composite check.
  A single capture or a single block of any one attacker is enough to refute
  mate.
- General and Guard accept a destination in either palace.
- Soldier diagonals do not depend on the soldier's colour.

## Model

| member | source | states |
|---|---|---|
| Locations.Encode | JanggiGame.py:884-938 | A square's name has two or three characters, and its first character is the column letter 'a'..'i' of the square's column. |
| Locations.Decode | JanggiGame.py:832-882 | A decoded name is exactly the name of the decoded square, so encode(decode(s)) == s for every name decode accepts. |
| Locations.DecodeEncode | JanggiGame.py:875-882 | Decoding the name of any of the 90 squares gives that square back. |
| Locations.DecodeInjective | JanggiGame.py:832-882 | Two names that decode to the same square are the same name. |
| Locations.DecodeAgreesOnShortNames | JanggiGame.py:875-882 | On names of at most three characters, the corrected decoder agrees with decode_location as written. |
| Locations.DecodeAsWritten | JanggiGame.py:832-882 | decode_location as written: the column from the first character a..i, the row from characters 2-3 of a three-character name and from the second character of any other name, 1..10 giving rows 0..9; any other name is rejected. |
| Locations.DecodeAsWrittenAcceptsTrailingText | JanggiGame.py:876-880 | decode_location as written maps "e7zz" to e7, whose name is "e7"; the corrected decoder rejects it. |
| Locations.PalaceSquaresNamed | JanggiGame.py:1025-1028 | The 18 palace squares have, in order, the 18 names of the piece's palace list. |
| Locations.PalaceSquaresListed | JanggiGame.py:1025-1028 | A square is in either palace exactly when it is in the palace list. |
| Locations.PalaceMatchesNames | JanggiGame.py:1025-1028 | InPalace holds exactly for the squares whose names are in the palace list. |
| Locations.CornersMatchNames | JanggiGame.py:1287 | IsCorner holds exactly for the squares named in the palace-corner list. |
| Locations.CentersMatchNames | JanggiGame.py:1288 | IsCenter holds exactly for e2 and e9, the palace-center list. |
| Locations.NameInList | JanggiGame.py:1296 | Membership of a square's name in a list of names is membership of the square in the matching list of squares. |
| Pieces.Opponent | JanggiGame.py:121-132 | The opponent of a colour is the other colour. |
| Pieces.GeneralId | JanggiGame.py:374-437 | Each colour's General id is a General of that colour. |
| Pieces.GeneralIsUnique | JanggiGame.py:374-437 | A piece is a General exactly when it is its colour's one General. |
| Pieces.EmptyGrid | JanggiGame.py:329-346 | The empty board holds no piece on any square. |
| Pieces.Put | JanggiGame.py:679-681 | Writing a cell changes that square and no other. |
| Pieces.GridExtensionality | JanggiGame.py:374-437 | Two grids that agree on every square are equal. |
| Rules.PieceLegal | JanggiGame.py:707-710 | No kind's rule allows a move onto a square held by a friendly piece, and an Elephant's legal move has the (3,2) or (2,3) offset. |
| Rules.PalaceMoveLegal | JanggiGame.py:1265-1321 | General.is_legal (and Guard.is_legal, lines 1370-1425, the same code): refused onto a friend, outside both palaces, or more than one step on either axis; a diagonal step only from a palace corner to a palace center or from a center to a corner. |
| Rules.ElephantLegal | JanggiGame.py:1474-1515 | Elephant.is_legal: refused onto a friend; otherwise legal exactly for a (3,2) or (2,3) offset whose two path squares are empty. |
| Rules.ElephantPath | JanggiGame.py:1517-1604 | Elephant.move_path: for the long axis's direction, the orthogonal neighbour of the source, then the square one row and two columns (or two rows and one column) away toward the destination. |
| Rules.HorseLegal | JanggiGame.py:1634-1676 | Horse.is_legal: refused onto a friend; otherwise legal exactly for a (2,1) or (1,2) offset whose path square is empty. |
| Rules.HorsePath | JanggiGame.py:1678-1730 | Horse.move_path: the orthogonal neighbour of the source in the direction of the two-square leg. |
| Rules.RowBetween | JanggiGame.py:1881-1891 | The row squares strictly between the source and the destination column, nearest first. |
| Rules.ColumnBetween | JanggiGame.py:1893-1903 | The column squares strictly between the source and the destination row, nearest first. |
| Rules.SlidePath | JanggiGame.py:1837-1906 | Chariot.move_path and Cannon.move_path (lines 2032-2101, the same code): the palace center between two facing corners; nothing between a corner and a center; otherwise the row squares between, then the column squares between. |
| Rules.ChariotLegal | JanggiGame.py:1759-1835 | Chariot.is_legal: refused onto a friend or when any path square is occupied; a move off both the row and the column is legal only along a palace diagonal. |
| Rules.CannonLegal | JanggiGame.py:1935-2030 | Cannon.is_legal: refused onto a friend or a Cannon, unless exactly one path square is occupied, or when a Cannon is on the path; a move off both the row and the column is legal only along a palace diagonal. |
| Rules.SoldierLegal | JanggiGame.py:2130-2197 | Soldier.is_legal: refused onto a friend; along a row only one step; along a column only one step forward for its colour; diagonally only d3/f3 to e2, e2 to d1/f1, d8/f8 to e9 and e9 to d10/f10, for either colour. |
| Rules.MovePath | JanggiGame.py:810 | attacker.move_path: an empty path for General, Guard and Soldier, and the kind's own path for Elephant, Horse, Chariot and Cannon. |
| RuleFacts.PalaceMoveConfined | JanggiGame.py:1265-1321 | A legal General or Guard move ends in a palace, on a square not held by a friend, at most one step on each axis; a diagonal step goes from a corner to a center or back. |
| RuleFacts.PalaceMoveReversible | JanggiGame.py:1370-1425 | A legal General or Guard move from a palace square can be taken back by the same rule. |
| RuleFacts.ElephantPathIsWalk | JanggiGame.py:1517-1604 | An Elephant's path is exactly two squares: an orthogonal step from the source, then two diagonal steps in the same direction ending on the destination. |
| RuleFacts.HorsePathIsWalk | JanggiGame.py:1678-1730 | A Horse's path is exactly one square, an orthogonal step from the source followed by a diagonal step to the destination. |
| RuleFacts.CornerCenterNotAligned | JanggiGame.py:1864-1905 | A palace corner and a palace center never share a row or a column, so the corner-to-center case never shadows a straight move. |
| RuleFacts.RowBetweenMembers | JanggiGame.py:1864-1905 | The row part of a slide path holds exactly the squares of that row strictly between source and destination, without repeats, the i-th one i+1 columns from the source. |
| RuleFacts.ColumnBetweenMembers | JanggiGame.py:1864-1905 | The column part of a slide path holds exactly the squares of that column strictly between source and destination, without repeats, the i-th one i+1 rows from the source. |
| RuleFacts.SlidePathStraight | JanggiGame.py:1837-1906 | For a straight move, the Chariot/Cannon path holds exactly the squares strictly between source and destination, without repeats, nearest first: the i-th one is i+1 squares from the source. |
| RuleFacts.ChariotStraight | JanggiGame.py:1759-1835 | A straight Chariot move is legal if and only if the destination holds no friend and every square strictly between is empty. |
| RuleFacts.JumpsZero | JanggiGame.py:1792-1835 | A path has no occupied square exactly when it is clear. |
| RuleFacts.JumpsOne | JanggiGame.py:1963-1989 | A path has exactly one occupied square exactly when one index is occupied and every other is empty. |
| RuleFacts.CannonStraight | JanggiGame.py:1935-2030 | A straight Cannon move is legal if and only if the destination holds neither a friend nor a Cannon, and exactly one square between is occupied, by a piece that is not a Cannon. |
| RuleFacts.CannonScreenFound | JanggiGame.py:1935-2030 | A legal straight Cannon move has a screen: one occupied non-Cannon square strictly between, all others empty. |
| RuleFacts.CannonScreenSuffices | JanggiGame.py:1935-2030 | A single non-Cannon screen and a destination without a friend or a Cannon make a straight Cannon move legal. |
| RuleFacts.SlideDiagonalStaysInPalace | JanggiGame.py:1759-1835 | A legal diagonal Chariot or Cannon move starts and ends inside one palace. |
| RuleFacts.SoldierStep | JanggiGame.py:2130-2197 | A legal Soldier move is one step, forward along a column (row -1 for blue, +1 for red), and diagonal only inside a palace away from the river: exactly d3/f3 to e2, e2 to d1/f1, d8/f8 to e9 or e9 to d10/f10. |
| RuleFacts.SoldierDiagonalIgnoresColor | JanggiGame.py:2173-2195 | A red soldier may step d3 to e2, which is backwards for red: the diagonals do not depend on colour. |
| Positions.RemoveFirst | JanggiGame.py:275-284 | Removing a piece drops one occurrence of it from the cart if it is there and otherwise changes nothing. |
| Positions.LastGeneral | JanggiGame.py:286-300 | get_general finds a General in the cart when there is one, and finds none when the cart holds no General. |
| Positions.MoveApplied | JanggiGame.py:644-681 | move_piece: a piece on the destination is taken out of its owner's cart; the mover goes to the destination with its location updated, and the source is emptied. |
| Positions.PrepApplied | JanggiGame.py:575-592 | prep_temp_move: the slot remembers the destination's occupant, or none; nothing else changes. |
| Positions.UndoApplied | JanggiGame.py:594-630 | undo_temp_move: the destination's piece goes back to the source with its location, the remembered piece goes back on the destination and is appended to its owner's cart, and the slot is cleared. |
| Positions.InCheck | JanggiGame.py:727-760 | is_in_check: some piece of the opponent's cart may move by its own rule onto the square of the player's General, as get_general finds it. |
| Positions.MoverCartKept | JanggiGame.py:670-681 | A move that does not land on a friend leaves the mover's cart exactly as it was. |
| Positions.CompositeLegal | JanggiGame.py:683-725 | A move that passes Board.is_legal passes the moving piece's own rule. |
| Positions.PalaceOf | JanggiGame.py:783-788 | The nine squares of the player's own palace, in the order the escape loop tries them. |
| Positions.Threatens | JanggiGame.py:791-796 | An opponent piece joins the attacker list when Board.is_legal lets it move onto the General's square. |
| Positions.Answerable | JanggiGame.py:799-814 | An attacker is answered when a defender may legally move onto its square or onto a square of its move path. |
| Positions.GeneralEscapes | JanggiGame.py:818-827 | The General's own rule allows the step to the palace square, and after the move the player is not in check. |
| Positions.Checkmate | JanggiGame.py:762-830 | is_in_checkmate: in check, no attacker that can be answered, and no palace square to which the General escapes. |
| Positions.LastGeneralOfCart | JanggiGame.py:286-300 | In a single-colour cart, get_general returns that colour's General exactly when it is in the cart. |
| Positions.GeneralOf | JanggiGame.py:286-300 | In a consistent position, get_general returns the colour's General exactly when it is still in the cart. |
| Positions.HeldPiece | JanggiGame.py:440-450 | A piece in a colour's cart has that colour and stands on its location. |
| PositionFacts.WithoutPieceCarts | JanggiGame.py:275-284 | Removing a captured piece takes it out of its owner's cart only and leaves grid, locations and the slot alone. |
| PositionFacts.MoveEffects | JanggiGame.py:644-681 | After move_piece the destination holds the moved piece, whose location is the destination; the source is empty; all other cells and locations are unchanged; a captured piece leaves its owner's cart. |
| PositionFacts.MoveCount | JanggiGame.py:666-674 | move_piece removes one piece from the carts exactly when the destination was occupied. |
| PositionFacts.MoveKeepsPlacement | JanggiGame.py:644-681 | After a move every piece on the board is at its recorded location. |
| PositionFacts.MoveKeepsHeld | JanggiGame.py:644-681 | After a move a piece is in a cart exactly when it is on the board. |
| PositionFacts.MoveKeepsCart | JanggiGame.py:666-674 | After a move each cart holds only pieces of its colour, without repeats. |
| PositionFacts.MoveKeepsValid | JanggiGame.py:644-681 | move_piece keeps the position consistent. |
| PositionFacts.MoveKeepsGenerals | JanggiGame.py:644-681 | A move that does not capture a General leaves both Generals in play. |
| PositionFacts.MoveSparesGenerals | JanggiGame.py:707-710 | When the opponent is not in check, no legal move by the mover lands on a General. |
| PositionFacts.MoveCart | JanggiGame.py:666-674 | After a move a cart, as a multiset, is the old cart minus the captured piece of its colour. |
| PositionFacts.UndoEffects | JanggiGame.py:594-630 | undo_temp_move puts the piece back on the source, restores the remembered piece on the destination and to its owner's cart, and clears the slot. |
| PositionFacts.UndoCart | JanggiGame.py:626-630 | After undo a cart, as a multiset, is the old cart plus the remembered piece of its colour, and the slot is empty. |
| PositionFacts.PrepKeepsValid | JanggiGame.py:575-592 | prep_temp_move only remembers the destination's occupant and keeps the position consistent. |
| PositionFacts.TempMovePlacement | JanggiGame.py:618-630 | prep, move, then undo restores every cell and every piece's location. |
| PositionFacts.TempMoveCarts | JanggiGame.py:575-630 | prep, move, then undo restores both carts as multisets and empties the slot. |
| PositionFacts.TempMoveCart | JanggiGame.py:575-630 | prep, move, then undo restores each cart as a multiset. |
| PositionFacts.TempMoveRestores | JanggiGame.py:575-630 | prep, move, then undo gives back an equivalent position: same grid and locations, multiset-equal carts, empty slot. |
| PositionFacts.TempMoveKeepsMoverCart | JanggiGame.py:710-721 | The temporary move of Board.is_legal leaves the mover's cart unchanged, order included. |
| PositionFacts.InCheckIgnoresTemp | JanggiGame.py:727-760 | Whether a player is in check does not depend on the temporary slot. |
| PositionFacts.TempMoveCheck | JanggiGame.py:710-716 | The check test after the temporary move is the check test of the plain move. |
| PositionFacts.EquivValid | JanggiGame.py:594-630 | Consistency survives reordering the carts. |
| PositionFacts.SameCart | JanggiGame.py:594-630 | Equivalent positions have the same pieces in each cart. |
| PositionFacts.EquivGenerals | JanggiGame.py:286-300 | get_general gives the same answer on equivalent positions. |
| PositionFacts.EquivMove | JanggiGame.py:644-681 | move_piece maps equivalent positions to equivalent positions. |
| PositionFacts.EquivInCheck | JanggiGame.py:727-760 | is_in_check gives the same answer on equivalent positions. |
| PositionFacts.EquivCompositeLegal | JanggiGame.py:683-725 | Board.is_legal gives the same answer on equivalent positions. |
| PositionFacts.EquivCanReach | JanggiGame.py:802-813 | Whether a defender can reach a square is the same on equivalent positions. |
| PositionFacts.EquivPieceTest | JanggiGame.py:802-806 | Testing a defender from the current board, during the search, answers as on the position the search started from. |
| PositionFacts.EscapeTest | JanggiGame.py:818-827 | Each General escape attempt leaves the player in check exactly when that escape fails, and its undo gives back an equivalent position. |
| PositionFacts.ThreatPath | JanggiGame.py:799-814 | An attacker's threat can be met exactly when a defender can capture it or reach a square of its move path. |
| PositionFacts.CheckmateByParts | JanggiGame.py:762-830 | Checkmate holds exactly when the player is in check, no collected attacker can be captured or blocked, and no palace move of the General escapes. |
| PositionFacts.EquivThreat | JanggiGame.py:794-796 | Being an attacker, and being answerable, are the same on equivalent positions. |
| PositionFacts.EquivEscape | JanggiGame.py:818-827 | A General escape works on a position exactly when it works on an equivalent one. |
| PositionFacts.EquivCheckmate | JanggiGame.py:762-830 | Checkmate is the same on equivalent positions. |
| Setup.InitialGrid | JanggiGame.py:374-437 | The opening grid holds, on every square, the piece of the opening layout. |
| Setup.InitialLoc | JanggiGame.py:374-437 | Each piece starts on its opening square. |
| Setup.InitialPosition | JanggiGame.py:357-450 | initialize_board: the opening grid and locations, an empty slot, and each cart filled in row-major order with the pieces of its colour. |
| Setup.PlacedOne | JanggiGame.py:374-437 | A grid whose pieces all stand at their recorded locations places each piece there. |
| Setup.RowPrefixCount | JanggiGame.py:440-450 | Scanning a row up to a column lists a piece once if it stands there and not at all otherwise. |
| Setup.RowCount | JanggiGame.py:440-450 | Scanning a row lists the only cell holding a piece once, when it falls in the scanned part. |
| Setup.GridPrefixCount | JanggiGame.py:440-450 | Scanning the first rows lists a piece once if it stands on one of them and not at all otherwise. |
| Setup.OfColorCount | JanggiGame.py:443-450 | Sorting the scanned pieces by owner keeps each piece of that colour as often as it was scanned and drops the others. |
| Setup.OfColorConcat | JanggiGame.py:443-450 | Sorting by owner distributes over concatenation. |
| Setup.ListingPiece | JanggiGame.py:440-450 | After the cart-filling loop, a piece is in a cart exactly when it is on the board, at most once. |
| Setup.ListingValid | JanggiGame.py:440-450 | Filling the carts from a placed grid gives a consistent position. |
| Setup.ListingGenerals | JanggiGame.py:440-450 | Filling the carts from a grid holding both Generals gives a consistent position with both Generals. |
| Setup.InitialPlaced | JanggiGame.py:374-437 | Every piece of the opening grid stands on its recorded square. |
| Setup.OpeningCellSquare | JanggiGame.py:374-437 | The piece of an opening cell starts on that cell. |
| Setup.InitialAllOnBoard | JanggiGame.py:374-437 | All 32 pieces are on the opening board at their locations. |
| Setup.OpeningSquareCell | JanggiGame.py:374-437 | Each piece's opening square holds that piece. |
| Setup.InitialValid | JanggiGame.py:357-450 | The opening position is consistent and holds both Generals. |
| Setup.InitialGeneralSquares | JanggiGame.py:374-437 | The red General starts on e2 and the blue General on e9. |
| Setup.OutOfReach | JanggiGame.py:1265-2197 | No piece can move four or more rows, except a Chariot or Cannon along its column or a palace diagonal. |
| Setup.OpeningRows | JanggiGame.py:374-437 | Red pieces start on rows 1-4 and blue pieces on rows 7-10. |
| Setup.OpeningFiles | JanggiGame.py:374-437 | No Chariot or Cannon starts on the e file. |
| Setup.InitialOutOfReach | JanggiGame.py:374-437 | Every piece starts four or more rows from the enemy General, off its file if it slides, and off the palace diagonals. |
| Setup.OpeningHarmless | JanggiGame.py:743-760 | In the opening layout no enemy piece attacks a General's square. |
| Setup.OpeningListing | JanggiGame.py:440-450 | Filling the carts of the opening board gives the opening position. |
| Setup.InitialNoCheck | JanggiGame.py:727-760 | At the opening both Generals are in play and neither player is in check. |
| Boards.Player.constructor | JanggiGame.py:225-235 | A new player has its colour and an empty cart. |
| Boards.Player.AddPiece | JanggiGame.py:265-273 | add_piece appends the piece to the cart. |
| Boards.Player.RemovePiece | JanggiGame.py:275-284 | remove_piece removes the first occurrence of the piece, if present. |
| Boards.Player.GetGeneral | JanggiGame.py:286-300 | get_general returns the last General in the cart, or none. |
| Boards.FillCarts | JanggiGame.py:440-450 | The cart-filling loop appends to each player's cart the pieces of its colour, in row-major order. |
| Boards.AddRow | JanggiGame.py:442-450 | One row of the loop appends that row's pieces of each colour. |
| Boards.AddCell | JanggiGame.py:445-450 | One cell of the loop appends its piece to its owner's cart. |
| Boards.AnyAttacker | JanggiGame.py:753-760 | The loop over the opponent's cart answers true exactly when some piece's own rule reaches the target. |
| Boards.Board.PlayerOf | JanggiGame.py:743-746 | The board's player of a colour has that colour. |
| Boards.Board.constructor | JanggiGame.py:329-346 | A new board has the given players, no pieces on the grid and an empty slot. |
| Boards.Board.InitializeBoard | JanggiGame.py:357-450 | The board gets the opening grid and locations, and each cart gains the pieces of its colour in row-major order. |
| Boards.Board.PrepTempMove | JanggiGame.py:575-592 | prep_temp_move follows PrepApplied. |
| Boards.Board.MovePiece | JanggiGame.py:644-681 | move_piece follows MoveApplied. |
| Boards.Board.UndoTempMove | JanggiGame.py:594-630 | undo_temp_move follows UndoApplied. |
| Boards.Board.IsInCheck | JanggiGame.py:727-760 | Board.is_in_check answers InCheck for the player's colour. |
| Boards.Board.IsLegal | JanggiGame.py:683-725 | Board.is_legal answers CompositeLegal on the board it started from, and leaves an equivalent board with the mover's cart unchanged. |
| Boards.Board.PieceTest | JanggiGame.py:802-806 | One defender test of the checkmate search answers whether that defender reaches the target, on the position the search started from. |
| Boards.Board.CollectAttackers | JanggiGame.py:791-796 | The attacker list holds exactly the opponent's pieces that pass the composite check onto the General's square. |
| Boards.Board.DefenderReaches | JanggiGame.py:802-807 | The loop over the defender's cart answers whether some defender can legally move onto the square. |
| Boards.Board.AnyBlock | JanggiGame.py:810-814 | The loop over the attacker's path answers whether a defender can legally move onto some square of it. |
| Boards.Board.AnswerAny | JanggiGame.py:799-814 | The loop over the attackers answers whether any one of them can be captured or blocked. |
| Boards.Board.TryEscape | JanggiGame.py:819-827 | One escape attempt answers whether the General may move to the square and is then out of check. |
| Boards.Board.AnyEscape | JanggiGame.py:818-827 | The loop over the palace answers whether some General move gets out of check. |
| Boards.Board.IsInCheckmate | JanggiGame.py:762-830 | is_in_checkmate answers Checkmate on the board it started from and leaves an equivalent board. |
| Games.ColorNamed | JanggiGame.py:145-148 | JanggiGame.is_in_check reads "blue" as blue and every other text as red. |
| Games.Step | JanggiGame.py:150-212 | make_move on values, in the source's order: a finished game refuses; equal names pass unless the mover is in check; an empty source or a foreign piece refuses; a move failing Board.is_legal refuses; otherwise move_piece, the turn passes, and the mover wins exactly when the new player to move is checkmated. |
| Games.LegalMoveKeepsPlay | JanggiGame.py:197-199 | A legal move by the player to move gives a consistent position with both Generals and an empty slot. |
| Games.RefusedChangesNothing | JanggiGame.py:174-212 | A refused request leaves the game exactly as it was. |
| Games.FinishedIsFinal | JanggiGame.py:174-175 | A finished game refuses every request and stays as it is. |
| Games.AcceptedPassesTurn | JanggiGame.py:174-212 | Every accepted request passes the turn to the opponent. |
| Games.PassRule | JanggiGame.py:178-185 | A pass (equal names) is accepted exactly when the game is unfinished and the player to move is not in check, and it never moves a piece. |
| Games.AcceptedMoveIsLegal | JanggiGame.py:187-209 | An accepted move moves the mover's own piece, passes Board.is_legal, and its position is move_piece applied to it. |
| Games.WonExactlyByCheckmate | JanggiGame.py:197-210 | From an unfinished game, the game ends exactly when a move is accepted that checkmates the new player to move, and then the mover has won. |
| Games.StepKeepsPlayable | JanggiGame.py:174-212 | Every request, accepted or not, keeps the game consistent, both Generals in play, and the player who just moved out of check. |
| Games.AcceptedStep | JanggiGame.py:197-209 | A legal move of the mover's own piece is accepted, with the moved position, the turn passed and the state set by checkmate. |
| Games.StepCount | JanggiGame.py:197-199 | A request removes at most one piece from play, and only by moving onto an occupied square. |
| Games.OpeningIsPlayable | JanggiGame.py:26-38 | The new game with blue to move is consistent, with both Generals and nobody in check. |
| Games.SamePlayable | JanggiGame.py:594-630 | A game equal up to cart order to a consistent game is consistent. |
| Games.Game.constructor | JanggiGame.py:26-38 | A new game is consistent, with the opening position, blue to move and state UNFINISHED. |
| Games.Game.TogglePlayers | JanggiGame.py:121-132 | toggle_players switches the player to move and keeps the state. |
| Games.Game.IsInCheck | JanggiGame.py:134-148 | JanggiGame.is_in_check answers InCheck for the colour its argument names. |
| Games.Game.MakeMove | JanggiGame.py:150-212 | make_move keeps the game consistent, returns exactly Step's verdict, and leaves the game Step prescribes, up to cart order. |
| Games.Game.Pass | JanggiGame.py:178-185 | A pass follows Step: refused in check, otherwise the turn passes. |
| Games.Game.Request | JanggiGame.py:187-212 | A move request follows Step through each refusal and the accepted case. |
| Games.Game.Accept | JanggiGame.py:197-209 | An accepted move follows Step and keeps the game consistent. |
| Games.Game.Commit | JanggiGame.py:199-208 | The move is made, the turn passes, and the state becomes the mover's win exactly when the new player to move is checkmated. |
| Games.Game.EndIfCheckmate | JanggiGame.py:204-208 | The state is set to the win of the player who just moved exactly when the player to move is checkmated. |
| Scenario.NoCheckFromAfar | JanggiGame.py:727-760 | A player none of whose enemy pieces is within reach of the General's square is not in check. |
| Scenario.QuietStep | JanggiGame.py:174-212 | make_move accepts a rule-abiding move of the mover's own piece to an empty square when afterwards no enemy piece is within reach of either General; the turn passes and the game goes on. |
| Scenario.NamesDecode | JanggiGame.py:875-882 | The names e7, e6, e4 and e5 decode to their squares. |
| Scenario.FirstFacts | JanggiGame.py:374-437 | At the opening blue's center soldier stands on e7, e6 is empty, and the soldier's rule allows e7-e6. |
| Scenario.SecondFacts | JanggiGame.py:2130-2197 | After e7-e6 red's center soldier stands on e4, e5 is empty, and the soldier's rule allows e4-e5. |
| Scenario.FirstQuiet | JanggiGame.py:374-437 | With blue's soldier on e6, every piece is too far from the enemy General to attack it. |
| Scenario.SecondQuiet | JanggiGame.py:374-437 | With both center soldiers advanced, every piece is too far from the enemy General to attack it. |
| Scenario.FirstMove | JanggiGame.py:2221 | From the opening board, blue's request e7-e6 is accepted, the soldier advances, red is to move, the game is unfinished, and the carts are untouched. |
| Scenario.SecondMove | JanggiGame.py:2222 | After e7-e6, red's request e4-e5 is accepted, the soldier advances, blue is to move, the game is unfinished, and the carts are untouched. |
| Scenario.OpeningExchange | JanggiGame.py:2219-2226 | main's game: a new game accepts e7-e6 and then e4-e5, ending with blue to move in an unfinished game, both center soldiers advanced. |

## Left out

- The pygame front end, the drawing methods and the highlight state of `Board` are not modelled, because they are screen and input handling. This covers `draw_board`, `get_xy_from_algebraic` and the highlight methods.
- `print_board`, the `__repr__` methods, the image file names and the plain getters and setters are not modelled, because they only render or forward fields.
- `main`'s printing of the board, the game state and the current player is not modelled, because it is console output. Its two moves are module `Scenario`.
- Invalid square names make `decode_location` raise `KeyError` or `IndexError`. `Games.Game.MakeMove` and `Games.Step` therefore require that each name decode once make_move gets as far as decoding it (`Decodable`): the source, when the game is on and the names differ; the destination, only when the source holds a piece of the player to move. An undecodable destination behind an empty or foreign source square is refused without a crash, as in the source (JanggiGame.py:187-194). The codec itself returns `None` for invalid names.
- Games.Step: decodes with the corrected `Locations.Decode`, so it does not take the lenient names the source accepts, such as `"e7zz"` read as e7 (see Findings). Such a name is outside `Decodable` when make_move would decode it.
- `Piece.decode_location` and `Piece.encode_location` repeat the code of the `Board` methods. Both are modelled by the single `Locations.Decode` and `Locations.Encode`.
- A piece's location string is kept as a square in the table `Board.loc`, not as text inside the piece object. `get_occupant` is a grid lookup (`Pieces.Get`).
- Games.Game.MakeMove: the new game equals `Step`'s result only up to the order of the carts (`Same`). A temporary move inside `Board.is_legal` or `is_in_checkmate` can move a restored piece to the end of its cart. The grid, the locations, the player to move and the state are exact.
- Boards.Board.IsLegal: its resulting board is stated only up to cart order (`Equiv`), for the same reason. The mover's own cart is stated exactly.
- Boards.Board.IsInCheckmate: its resulting board is stated only up to cart order (`Equiv`), for the same reason.
- `Board.__init__` starts with an empty list. The model starts with a 10 x 9 grid of empty cells and the opening locations, which `initialize_board` then fills.
- `Board.__init__` receives the game object. The model's board receives the two players directly, which is all it uses the game for.
- The invariant of `Games.Game` assumes what every game reached from the constructor has: both Generals in play and the player who just moved not in check. A `Board` set up by hand in another state is not covered.

## Findings

| source | as written | input that shows it | evidently intended | confidence | as-written member | corrected member |
|---|---|---|---|---|---|---|
| JanggiGame.py:876-880 | A name of any length other than 3 takes its row from the second character alone, so trailing text is ignored | "e7zz" decodes to e7 (row 6, column 4), although e7's name is "e7" | Only the names "a1".."i10" decode; encode(decode(s)) == s | not executed | Locations.DecodeAsWrittenAcceptsTrailingText | Locations.Decode |
