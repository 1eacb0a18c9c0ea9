/** The values a board is made of: the mark a player can put on a tile, the
    difficulty tiers, and the tile (square) itself. */
module Tiles {

  /** The mark on a tile: none, a flag ("f" on screen) or a question mark ("?"). */
  datatype Flag = Empty | Flagged | Question

  datatype Difficulty = Easy | Medium | Hard

  /** A draw in 0..99 above this threshold places a mine. Each step up in
      difficulty lowers it by ten, starting from 90. */
  function Threshold(d: Difficulty): (t: int)
    ensures 0 <= t < 100
    ensures t == 90 - 10 * Rank(d)
  {
    match d
    case Easy => 90
    case Medium => 80
    case Hard => 70
  }

  /** How a tier orders against another: harder tiers have a larger rank. */
  function Rank(d: Difficulty): nat
  {
    match d
    case Easy => 0
    case Medium => 1
    case Hard => 2
  }

  /** A harder tier has a strictly lower threshold, and both lie in 0..99,
      so every draw that places a mine on an easier tier places one on the
      harder tier too. */
  lemma HarderTierPlacesMoreMines(easier: Difficulty, harder: Difficulty, draw: int)
    requires Rank(easier) < Rank(harder)
    ensures draw > Threshold(easier) ==> draw > Threshold(harder)
    ensures Threshold(harder) < Threshold(easier)
    ensures 0 <= Threshold(harder) < Threshold(easier) < 100
  {
  }

  /** One tile. `number` is set once after all mines are placed; `revealed`
      only ever goes from false to true. */
  datatype Square = Square(isMine: bool, number: int, revealed: bool, flag: Flag)

  /** A tile as it is first placed: hidden, unmarked, number not yet set. */
  function NewSquare(isMine: bool): (s: Square)
    ensures s.isMine == isMine && !s.revealed && s.flag == Empty
  {
    Square(isMine, 0, false, Empty)
  }

  /** What one tile prints as: "f", "?", "x", "." or its number. */
  datatype Glyph = FlagMark | QuestionMark | MineMark | Hidden | Count(n: int)

  /** The tile on the player's board; `revealBombs` also shows every
      unmarked mine, as at the end of a game. A mark hides everything. */
  function Symbol(s: Square, revealBombs: bool): (g: Glyph)
    ensures s.flag != Empty ==> g == (if s.flag == Flagged then FlagMark else QuestionMark)
    ensures s.flag == Empty && !s.revealed && !revealBombs ==> g == Hidden
  {
    if s.flag != Empty then
      if s.flag == Flagged then FlagMark else QuestionMark
    else if s.isMine && (revealBombs || s.revealed) then MineMark
    else if !s.revealed then Hidden
    else Count(s.number)
  }

  /** The tile on the full board: its mine, or else its number. */
  function FullSymbol(s: Square): (g: Glyph)
    ensures g == MineMark <==> s.isMine
    ensures !s.isMine ==> g == Count(s.number)
    ensures g != Hidden && g != FlagMark && g != QuestionMark
  {
    if s.isMine then MineMark else Count(s.number)
  }

  /** Unless bombs are revealed, what a hidden tile shows does not depend
      on whether it is a mine. */
  lemma HiddenMineNotShown(s: Square)
    requires !s.revealed
    ensures Symbol(s, false) == Symbol(s.(isMine := !s.isMine), false)
  {
  }
}
