/*
 * Location codec and board geometry of the Janggi rules engine.
 *
 * A board square is a (row, column) pair with row 0..9 (printed "1".."10")
 * and column 0..8 (printed 'a'..'i'). Row 0 is red's back rank, row 9 is
 * blue's. The engine names squares by text such as "b7" and converts to and
 * from grid indices with decode_location / encode_location.
 */
module Locations {

  datatype Option<T> = None | Some(value: T)

  const Rows: int := 10
  const Columns: int := 9

  datatype Coord = Coord(row: int, col: int)

  /** A coordinate that lies on the 10 x 9 board. */
  type Square = c: Coord | 0 <= c.row < Rows && 0 <= c.col < Columns witness Coord(0, 0)

  // ---------------------------------------------------------------------------
  // The codec
  // ---------------------------------------------------------------------------

  /** The letter naming column `col`: 0 -> 'a', ..., 8 -> 'i'. */
  function ColumnLetter(col: int): char
    requires 0 <= col < Columns
  {
    ('a' as int + col) as char
  }

  /** The number naming row `row`: 0 -> "1", ..., 8 -> "9", 9 -> "10". */
  function RowNumber(row: int): string
    requires 0 <= row < Rows
  {
    if row < 9 then [('1' as int + row) as char] else "10"
  }

  /** encode_location: the text name of a square, column letter then row number. */
  function Encode(sq: Square): (name: string)
    ensures |name| == 2 || |name| == 3
    ensures 'a' <= name[0] <= 'i' && name[0] as int - 'a' as int == sq.col
  {
    [ColumnLetter(sq.col)] + RowNumber(sq.row)
  }

  /** The column_key lookup: a letter 'a'..'i' and nothing else. */
  function ColumnIndex(ch: char): Option<int>
  {
    if 'a' <= ch <= 'i' then Some(ch as int - 'a' as int) else None
  }

  /** The row_key lookup: exactly the keys "1".."9" and "10". */
  function RowIndex(digits: string): Option<int>
  {
    if |digits| == 1 && '1' <= digits[0] <= '9' then Some(digits[0] as int - '1' as int)
    else if digits == "10" then Some(9)
    else None
  }

  /**
   * decode_location exactly as written: the column comes from the first
   * character; a three-character name takes its row from the last two
   * characters, any other length from the second character alone. A missing
   * key or index (a raised KeyError or IndexError) is None.
   */
  function DecodeAsWritten(name: string): Option<Square>
  {
    if |name| == 0 then None
    else
      match ColumnIndex(name[0])
      case None => None
      case Some(col) =>
        var row := if |name| == 3 then RowIndex(name[1..]) else if |name| >= 2 then RowIndex([name[1]]) else None;
        match row
        case None => None
        case Some(r) =>
          var sq: Square := Coord(r, col);
          Some(sq)
  }

  /**
   * decode_location restricted to the names it was written for (two or three
   * characters): a letter 'a'..'i' followed by "1".."10". Every other text is
   * rejected, as an invalid location.
   */
  function Decode(name: string): (r: Option<Square>)
    ensures r.Some? ==> Encode(r.value) == name
  {
    if |name| == 2 || |name| == 3 then
      var r := DecodeAsWritten(name);
      if r.Some? then
        assert |name| == 2 ==> name == [name[0]] + [name[1]];
        assert |name| == 3 ==> name == [name[0]] + name[1..];
        r
      else None
    else None
  }

  /** Decoding the name of a square gives the square back. */
  lemma DecodeEncode(sq: Square)
    ensures Decode(Encode(sq)) == Some(sq)
  {
    var name := Encode(sq);
    if sq.row < 9 {
      assert name[1..] == [name[1]];
    } else {
      assert name[1..] == "10";
    }
  }

  /** Two names that decode to the same square are the same name. */
  lemma DecodeInjective(a: string, b: string)
    requires Decode(a).Some? && Decode(a) == Decode(b)
    ensures a == b
  {
  }

  /** The as-written decoder agrees with Decode on every name of at most three characters. */
  lemma DecodeAgreesOnShortNames(name: string)
    requires |name| <= 3
    ensures Decode(name) == DecodeAsWritten(name)
  {
  }

  /**
   * The as-written decoder accepts "e7zz" as the square e7 (row 6, column 4),
   * whose name is "e7": the round trip from text fails for it.
   */
  lemma DecodeAsWrittenAcceptsTrailingText()
    ensures DecodeAsWritten("e7zz") == Some(E7)
    ensures Encode(E7) != "e7zz"
    ensures Decode("e7zz") == None
  {
  }

  // ---------------------------------------------------------------------------
  // Palaces
  // ---------------------------------------------------------------------------

  const E7: Square := Coord(6, 4)
  const D1: Square := Coord(0, 3)
  const F1: Square := Coord(0, 5)
  const E2: Square := Coord(1, 4)
  const D3: Square := Coord(2, 3)
  const F3: Square := Coord(2, 5)
  const D8: Square := Coord(7, 3)
  const F8: Square := Coord(7, 5)
  const E9: Square := Coord(8, 4)
  const D10: Square := Coord(9, 3)
  const F10: Square := Coord(9, 5)

  /** The eighteen palace squares: d1-f3 (red's palace) and d8-f10 (blue's). */
  predicate InPalace(sq: Square)
  {
    (sq.row <= 2 || sq.row >= 7) && 3 <= sq.col <= 5
  }

  predicate IsRedCorner(sq: Square)
  {
    (sq.row == 0 || sq.row == 2) && (sq.col == 3 || sq.col == 5)
  }

  predicate IsBlueCorner(sq: Square)
  {
    (sq.row == 7 || sq.row == 9) && (sq.col == 3 || sq.col == 5)
  }

  /** d1, f1, d3, f3, d8, f8, d10, f10. */
  predicate IsCorner(sq: Square)
  {
    IsRedCorner(sq) || IsBlueCorner(sq)
  }

  /** e2 and e9. */
  predicate IsCenter(sq: Square)
  {
    sq == E2 || sq == E9
  }

  /** The palace square lists of the source, by name. */
  const PalaceNames: seq<string> :=
    ["d8", "d9", "d10", "e8", "e9", "e10", "f8", "f9", "f10",
     "d1", "d2", "d3", "e1", "e2", "e3", "f1", "f2", "f3"]
  const CornerNames: seq<string> := ["d1", "f1", "d3", "f3", "d8", "f8", "d10", "f10"]
  const CenterNames: seq<string> := ["e2", "e9"]

  /** Membership of a square's name in a list of names is membership of the square in the decoded list. */
  lemma NameInList(sq: Square, names: seq<string>, squares: seq<Square>)
    requires |names| == |squares|
    requires forall k :: 0 <= k < |names| ==> Encode(squares[k]) == names[k]
    ensures Encode(sq) in names <==> sq in squares
  {
    if Encode(sq) in names {
      var k :| 0 <= k < |names| && names[k] == Encode(sq);
      DecodeEncode(sq);
      DecodeEncode(squares[k]);
    }
  }

  /** The palace squares, in the order of the source's list of names. */
  const PalaceSquares: seq<Square> :=
    [Coord(7, 3), Coord(8, 3), Coord(9, 3), Coord(7, 4), Coord(8, 4), Coord(9, 4), Coord(7, 5), Coord(8, 5), Coord(9, 5),
     Coord(0, 3), Coord(1, 3), Coord(2, 3), Coord(0, 4), Coord(1, 4), Coord(2, 4), Coord(0, 5), Coord(1, 5), Coord(2, 5)]

  /** Each palace square is named as in the source list. */
  lemma PalaceSquaresNamed()
    ensures |PalaceSquares| == |PalaceNames|
    ensures forall k :: 0 <= k < |PalaceNames| ==> Encode(PalaceSquares[k]) == PalaceNames[k]
  {
  }

  /** The palace squares are those the palace predicate admits. */
  lemma PalaceSquaresListed(sq: Square)
    ensures InPalace(sq) <==> sq in PalaceSquares
  {
  }

  /** The palace predicate is the source's list of palace names. */
  lemma PalaceMatchesNames(sq: Square)
    ensures InPalace(sq) <==> Encode(sq) in PalaceNames
  {
    PalaceSquaresNamed();
    PalaceSquaresListed(sq);
    NameInList(sq, PalaceNames, PalaceSquares);
  }

  /** The corner predicate is the source's list of palace corners. */
  lemma CornersMatchNames(sq: Square)
    ensures IsCorner(sq) <==> Encode(sq) in CornerNames
  {
    NameInList(sq, CornerNames, [D1, F1, D3, F3, D8, F8, D10, F10]);
  }

  /** The centre predicate is the source's list of palace centres. */
  lemma CentersMatchNames(sq: Square)
    ensures IsCenter(sq) <==> Encode(sq) in CenterNames
  {
    NameInList(sq, CenterNames, [E2, E9]);
  }
}
