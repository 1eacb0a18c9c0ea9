# Minesweeper board engine, in Dafny

This project models the board of a terminal Minesweeper game (`src/Board.java`)
and proves what its operations guarantee.

A board is a `length` x `width` grid of tiles, indexed `board[y, x]` with `x` the
column and `y` the row. Each tile has:

- a mine status;
- a number, which is the mine count of the 3x3 block around the tile (the tile itself included);
- a revealed bit;
- a mark: none, a flag, or a question mark.

The board also keeps the number of mines, the number of revealed tiles, and whether the
last reveal hit a mine.

The operations are:

- **Construction:** picks a mine threshold from the difficulty, places one mine per draw
  above the threshold, counts the mines, then gives every tile its number.
- **`Play`:** a guarded reveal. A blank tile starts a recursive flood fill over its
  neighbourhood.
- **`Flag`:** a guarded change of a hidden tile's mark.
- **Queries:** `HasFinished` and `HasWon`.

Files:

- `Tiles.dfy`: the tile (`Square`), its mark (`Flag`), the difficulty tiers and their thresholds, and the symbol a tile prints as.
- `Layout.dfy`: grid geometry and mine counting on plain values. It defines:
  - the layout drawn from the draws;
  - the 3x3 count a tile's number must equal, plus an independent set-based statement of it;
  - the counts of positions, mines and safe tiles.
- `Board.dfy`: the `Board` class, which owns an `array2<Square>` and updates it in place. Its invariant `Valid()` has two parts:
  - **Well-formed:** each tile holds the layout's mine status and its 3x3 count. `numMines` is the number of mines. `numRevealed` is the number of revealed tiles. `hasLost` implies a mine is showing.
  - **Closed:** every revealed blank tile has each on-grid neighbour either revealed or a mine.

The flood fill terminates because each recursive call follows the reveal of a hidden
tile. The set of hidden positions is therefore a decreasing measure.

What a move reveals is pinned down from both sides:

- **Lower bound:** the closed part of the invariant. No revealed blank tile has a hidden safe neighbour.
- **Upper bound:** `Play` and the flood methods return a proof-only `Trace`.
  - The trace lists the revealed positions in order, each one after the first with the index of an earlier blank position it touches.
  - The newly revealed tiles are exactly the trace's positions.
  - So every reveal is reached from the played tile by steps through blank tiles.
  - Two blank regions that do not touch cannot both be opened by one move.

Behaviour of the code that a reader might not expect, and which the model follows:

- A tile's number counts the whole 3x3 block, the tile included, so a mine's number is at least 1. A mine played directly is therefore revealed alone and never floods.
- Playing a mine still adds one to `numRevealed`.
- `hasLost` is assigned by every accepted `Play`, not latched. If the game is not stopped after a loss, a later `Play` on a safe tile resets it to false while the mine stays revealed.
- The flood ignores marks. A flagged safe tile next to a blank region is revealed by the flood and keeps its flag.
- With a mine in the centre of a 3x3 board, every other tile's number is 1. Playing a corner therefore reveals only that corner.

## Model

| member | source | states |
|---|---|---|
| Tiles.Threshold | src/Board.java:22-37 | The threshold lies in 0..99 and is 90 for the easiest tier, dropping by ten per tier (90, 80, 70). |
| Tiles.HarderTierPlacesMoreMines | src/Board.java:11-13 | A harder tier has a strictly lower threshold, both lie in 0..99, and so every draw that places a mine on an easier tier places one on a harder tier too. |
| Tiles.NewSquare | src/Board.java:46 | A tile placed during construction has the given mine status, is hidden and is unmarked. |
| Layout.MineLayout | src/Board.java:42-46 | The layout has the shape of the draws, and a position holds a mine exactly when its draw exceeds the threshold. |
| Sweeper.Board.constructor | src/Board.java:15-57 | The new board satisfies the invariant. It keeps the dimensions, and its layout is the threshold layout of the draws. Each tile is a mine exactly when its draw exceeds the difficulty's threshold, and is hidden and unmarked. `numRevealed` is 0, `hasLost` is false, and `numMines` is the number of mine positions. |
| Sweeper.Board.PlaceMines | src/Board.java:39-48 | The first loop nest creates one fresh tile per position holding that position's mine status. Its running count ends equal to the number of mine positions. |
| Layout.MinesInGridCount | src/Board.java:39-48 | Counting mines row by row over the whole grid gives exactly the number of mine positions. |
| Sweeper.Board.NumberTiles | src/Board.java:50-54 | The second loop nest sets every tile's number to its 3x3 count and changes nothing else in any tile. |
| Sweeper.Board.SurroundingMines | src/Board.java:110-120 | The scan returns the number of mines in the on-grid part of the 3x3 block centred on the tile, the tile included. |
| Layout.MinesAroundIsBlockCount | src/Board.java:110-120 | The row-by-row count equals the size of the set of mine positions in the on-grid 3x3 block. |
| Layout.MinesAroundBounds | src/Board.java:110-120 | A tile's number is at most 9. A mine's number is at least 1, and a safe tile's number is at most 8. |
| Sweeper.Board.WithinBounds | src/Board.java:122-124 | True exactly when the position is one of the grid's `width * length` positions. |
| Sweeper.Board.Play | src/Board.java:59-72 | The checks run in order: out of bounds, then marked, then already revealed. Any rejection leaves every tile, `numRevealed` and `hasLost` unchanged. On acceptance: the invariant is kept; the tile is revealed; `hasLost` equals whether it is a mine; tiles are only uncovered (no other field of any tile changes); no mine except the played tile is uncovered. The newly revealed tiles are exactly those of the returned proof-only trace. The trace starts at the played tile, and each later tile touches an earlier blank tile of the trace, so every reveal is reached from the played tile through blank tiles only. A played mine, or a tile with a nonzero number, has a trace of that tile alone. A blank tile leaves its whole on-grid neighbourhood revealed or mined. |
| Sweeper.Board.Flag | src/Board.java:74-86 | The checks run in order: out of bounds, then already revealed, then already holding that mark. A rejection changes nothing. On acceptance only the chosen tile's mark changes. Every other tile is unchanged, and the invariant is kept. |
| Sweeper.Board.RevealSurroundings | src/Board.java:88-94 | Reveals the hidden tile and keeps `numRevealed` equal to the number of revealed tiles. Tiles are only uncovered, and no mine other than this tile is. The tiles it reveals are exactly those of a trace that starts at this tile and moves only through blank tiles. A tile with a nonzero number is revealed alone; a blank one leaves its whole on-grid neighbourhood revealed or mined. Blank regions stay closed, except for the tiles whose flood is still under way. |
| Sweeper.Board.RevealBlanks | src/Board.java:96-108 | Starting from a revealed blank tile, the flood reveals only safe tiles and keeps the count exact. It leaves the tile's whole on-grid neighbourhood revealed or mined, so the blank region is closed. The tiles it reveals are exactly those of a trace from the starting tile in which each tile touches an earlier blank one. It terminates because the set of hidden positions shrinks before every recursive call. |
| Sweeper.Board.FloodRow | src/Board.java:98-106 | The inner loop over one row of the 3x3 block adds that row to the part of the block that is revealed or mined. It uncovers only safe tiles and extends the flood's trace, which still covers exactly the tiles revealed since the flood began. |
| Sweeper.Board.FloodNeighbour | src/Board.java:99-105 | One neighbour of the blank tile: afterwards it, and the part of the block before it, is revealed or a mine. No mine has been uncovered, the count stays exact, and the trace is extended by the neighbour's own flood. |
| Sweeper.Board.JoinLinked | src/Board.java:99-104 | A flood started from a neighbour of the blank first tile of a trace joins that trace: the joined trace is still linked through blank tiles, and it covers the tiles of both. |
| Sweeper.Board.Uncover | src/Board.java:89-90 | Revealing one hidden tile and counting it keeps the counter exact. Exactly that position joins the revealed ones, every other tile is unchanged, and the set of hidden positions shrinks. |
| Sweeper.Board.RevealOne | src/Board.java:89-90 | Revealing one hidden tile adds exactly its position to the revealed set, so the single increment keeps the counter exact. Nothing else is uncovered. |
| Sweeper.Board.UncoveredKeeps | src/Board.java:99-101 | Uncovering tiles keeps every mine status and number, never hides a revealed tile, and keeps a revealed mine revealed. |
| Layout.CellsCount | src/Board.java:127 | A `width` by `length` grid has `width * length` positions. |
| Layout.SafeCellsCount | src/Board.java:127 | The safe positions number `length * width` minus the mines. |
| Sweeper.Board.WonIffSafeShown | src/Board.java:126-132 | While no mine is showing, `HasWon` holds exactly when every safe tile is revealed. A lost game is finished and not won. |
| Sweeper.Board.HasFinished | src/Board.java:126-128 | A lost game is finished. Otherwise the game is finished exactly when the revealed count plus the mine count is the number of tiles. |
| Sweeper.Board.HasWon | src/Board.java:130-132 | Won exactly when no mine was hit and the revealed count plus the mine count is the number of tiles; a won game is finished. |
| Tiles.Symbol | src/Board.java:145-158 | A mark hides everything: "f" for a flag, "?" for a question mark. An unmarked hidden tile shows "." unless bombs are revealed. |
| Tiles.HiddenMineNotShown | src/Board.java:145-158 | On the player's board, what a hidden tile shows does not depend on whether it is a mine. |
| Tiles.FullSymbol | src/Board.java:169-174 | On the full board a tile shows "x" exactly when it is a mine, and otherwise its number. Marks and the revealed bit play no part: no tile shows as hidden, flagged or questioned. |
| Sweeper.Board.TileView | src/Board.java:145-158 | On a valid board: an unmarked hidden tile shows "."; an unmarked revealed safe tile shows its neighbouring-mine count, which is at most 8; with bombs revealed, an unmarked tile shows "x" exactly when it is a mine. The full board shows each mine as "x" and every other tile's count. |

## Left out

- The random draws. The constructor takes the draws, one per tile in 0..99, as a parameter. Mine placement is then the threshold comparison on those draws.
- The console messages of rejected moves. `Play` and `Flag` return an `Outcome` whose `Reason` names the message. The original returns `false` in those cases.
- The text layout of `printBoard` and `fullBoardPrint`: the headers, the row and column numbers, and the spacing. Only the per-tile choice of symbol is modelled (`Symbol`, `FullSymbol`), as a `Glyph` value rather than characters.
- The `Square`, `Flag` and `Difficulty` classes are not part of this model. They are modelled from their uses in `Board.java`. `Square` is a value stored in the `array2`. Each original `Square` object is created for one cell and never shared, so no aliasing is lost.
- Negative dimensions. `width` and `length` are `nat`, whereas the original would throw when allocating the array.
- The stack depth of the recursive flood. The original can overflow the stack on very large blank regions; the model has no bound.
- The flood step. For each hidden safe neighbour, the original repeats the body of `revealSurroundings` inline (lines 100-104), with the increment and the reveal in the other order. The model calls `RevealSurroundings` there. Nothing observes the order of those two statements.
- `PlaceMines` and `NumberTiles` are the constructor's two loop nests, given names of their own. In the same way, the flood's inner loop is `FloodRow`, its loop body is `FloodNeighbour`, and the reveal-and-count of `revealSurroundings` (lines 89-90) is `Uncover`.
- HasFinished: treats `length * width` as an unbounded integer. The original computes it as a 32-bit Java `int`. On a board with more than 2^31 - 1 tiles that product wraps around, and the model does not follow it.
- HasFinished, HasWon: are stated through `WonIffSafeShown` only while no mine is revealed. Once a mine has been revealed and `hasLost` reset by a later play, the count test can report a win with safe tiles still hidden, and no contract here describes that case.
