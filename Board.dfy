/** The game state engine: a `length` x `width` grid of tiles, the number of
    mines, the number of revealed tiles and whether the last reveal hit a mine.
    Tiles are indexed `board[y, x]`, `x` the column and `y` the row. */
module Sweeper {
  import opened Tiles
  import opened Layout

  /** Why a move was refused; the original prints these as messages. */
  datatype Reason = OutOfBounds | TileFlagged | AlreadyRevealed | AlreadyHoldsFlag

  datatype Outcome = Accepted | Rejected(reason: Reason)

  /** The record of a flood, kept for the proof only: the positions it
      revealed, in the order it revealed them, and for each position after
      the first the index of the earlier position it was reached from. */
  datatype Trace = Trace(order: seq<(int, int)>, parent: seq<int>)

  /** The positions a sequence visits. */
  ghost function Elements(s: seq<(int, int)>): set<(int, int)>
  {
    set p | p in s
  }

  /** `s` with `d` added to every entry. */
  ghost function Shift(s: seq<int>, d: int): (r: seq<int>)
    ensures |r| == |s| && forall k :: 0 <= k < |r| ==> r[k] - d == s[k]
  {
    seq(|s|, k requires 0 <= k < |s| => s[k] + d)
  }

  /** The trace of a flood `t` followed by the trace `sub` of a flood started
      from a neighbour of `t`'s first position. */
  ghost function Join(t: Trace, sub: Trace): Trace
    requires 0 < |sub.parent|
  {
    Trace(t.order + sub.order, t.parent + [0] + Shift(sub.parent[1..], |t.order|))
  }

  class Board {
    const width: nat
    const length: nat
    const board: array2<Square>
    const numMines: nat
    /** Where the mines are; fixed when the board is built. */
    ghost const mines: seq<seq<bool>>
    var numRevealed: nat
    var hasLost: bool

    ghost predicate Shaped()
    {
      board.Length0 == length && board.Length1 == width && IsGrid(mines, width, length)
    }

    /** Every tile holds the mine status of the layout. */
    ghost predicate MinesPlaced()
      reads board
    {
      Shaped() &&
      forall y, x :: 0 <= y < length && 0 <= x < width ==> board[y, x].isMine == mines[y][x]
    }

    /** The positions of the revealed tiles. */
    ghost function Revealed(): set<(int, int)>
      reads board
    {
      set x, y | 0 <= x < board.Length1 && 0 <= y < board.Length0 && board[y, x].revealed :: (x, y)
    }

    /** The positions of the hidden tiles: what the flood fill has left to visit. */
    ghost function Unrevealed(): set<(int, int)>
      reads board
    {
      Cells(width, length) - Revealed()
    }

    ghost predicate MineRevealed()
      reads board
    {
      exists y, x :: 0 <= y < board.Length0 && 0 <= x < board.Length1 && board[y, x].revealed && board[y, x].isMine
    }

    /** Every tile holds its mine status and its number. */
    ghost predicate Numbered()
      reads board
    {
      && MinesPlaced()
      && (forall y, x :: 0 <= y < length && 0 <= x < width ==>
            board[y, x].number == MinesAround(mines, width, length, x, y))
    }

    /** The revealed counter agrees with the board. */
    ghost predicate Counted()
      reads this, board
    {
      Shaped() && numRevealed == |Revealed()|
    }

    /** The counters and per-tile data agree with the grid. */
    ghost predicate Wellformed()
      reads this, board
    {
      && Numbered()
      && Counted()
      && numMines == |MineCells(mines, width, length)|
      && (hasLost ==> MineRevealed())
    }

    /** Every on-grid tile of the 3x3 block around `(x, y)` is revealed or a mine. */
    ghost predicate NeighboursShown(x: int, y: int)
      reads board
    {
      forall i, j :: Adjacent(x, y, j, i) && 0 <= i < board.Length0 && 0 <= j < board.Length1 ==>
        board[i, j].revealed || board[i, j].isMine
    }

    /** The tiles of the 3x3 block around `(x, y)` that come before `(j, i)`
        in row-major order, as far as they are on the grid, are revealed or
        mines: the part of the block a flood from `(x, y)` has been through. */
    ghost predicate ShownBefore(x: int, y: int, i: int, j: int)
      reads board
    {
      forall b, a ::
        (Adjacent(x, y, a, b) && (b < i || (b == i && a < j)) && 0 <= b < board.Length0 && 0 <= a < board.Length1) ==>
          board[b, a].revealed || board[b, a].isMine
    }

    /** Once the whole block around the blank tile `(x, y)` is shown, the
        tile is closed and need no longer be pending. */
    lemma ShownCloses(x: int, y: int, pending: set<(int, int)>)
      requires ShownBefore(x, y, y + 2, x - 1) && ClosedExcept(pending + {(x, y)})
      ensures NeighboursShown(x, y) && ClosedExcept(pending)
    {
      forall b, a | Adjacent(x, y, a, b) && 0 <= b < board.Length0 && 0 <= a < board.Length1
        ensures board[b, a].revealed || board[b, a].isMine
      {
        assert b < y + 2;
      }
    }

    /** Uncovering tiles keeps every part of a block that was shown shown. */
    twostate lemma ShownStays()
      requires Uncovered()
      ensures forall x, y, i, j :: old(ShownBefore(x, y, i, j)) ==> ShownBefore(x, y, i, j)
    {
      forall x, y, i, j | old(ShownBefore(x, y, i, j))
        ensures ShownBefore(x, y, i, j)
      {
        forall b, a |
          Adjacent(x, y, a, b) && (b < i || (b == i && a < j)) && 0 <= b < board.Length0 && 0 <= a < board.Length1
          ensures board[b, a].revealed || board[b, a].isMine
        {
          assert old(board[b, a]).revealed || old(board[b, a]).isMine;
        }
      }
    }

    /** The shown part of a block grows by the tile at the cursor once that
        tile is revealed or a mine. */
    lemma ShownNext(x: int, y: int, i: int, j: int)
      requires ShownBefore(x, y, i, j)
      requires 0 <= i < board.Length0 && 0 <= j < board.Length1 ==> board[i, j].revealed || board[i, j].isMine
      ensures ShownBefore(x, y, i, j + 1)
    {
    }

    /** Every revealed blank tile outside `pending` has its whole
        neighbourhood shown: blank regions are closed. */
    ghost predicate ClosedExcept(pending: set<(int, int)>)
      reads board
    {
      forall y, x ::
        (0 <= y < board.Length0 && 0 <= x < board.Length1 && (x, y) !in pending &&
         board[y, x].revealed && board[y, x].number == 0) ==> NeighboursShown(x, y)
    }

    ghost predicate Valid()
      reads this, board
    {
      Wellformed() && ClosedExcept({})
    }

    /** Between the two states tiles were only uncovered: each tile is
        unchanged or went from hidden to revealed with nothing else altered. */
    twostate predicate Uncovered()
      reads board
    {
      forall y, x :: 0 <= y < board.Length0 && 0 <= x < board.Length1 ==>
        board[y, x] == old(board[y, x]) ||
        (!old(board[y, x]).revealed && board[y, x] == old(board[y, x]).(revealed := true))
    }

    /** Tiles were only uncovered, and no mine was uncovered except at a
        position in `mineOk`. */
    twostate predicate OnlyUncovered(mineOk: set<(int, int)>)
      reads board
    {
      && Uncovered()
      && forall y, x ::
           (0 <= y < board.Length0 && 0 <= x < board.Length1 &&
            !old(board[y, x]).revealed && board[y, x].revealed && board[y, x].isMine) ==> (x, y) in mineOk
    }

    /** The tile at `p` is on the grid and blank. */
    ghost predicate BlankAt(p: (int, int))
      reads board
    {
      0 <= p.1 < board.Length0 && 0 <= p.0 < board.Length1 && board[p.1, p.0].number == 0
    }

    /** The `k`-th position of the trace touches an earlier one that is blank. */
    ghost predicate LinkStep(t: Trace, k: int)
      reads board
    {
      && 0 < k < |t.order| && k < |t.parent|
      && 0 <= t.parent[k] < k
      && BlankAt(t.order[t.parent[k]])
      && Adjacent(t.order[k].0, t.order[k].1, t.order[t.parent[k]].0, t.order[t.parent[k]].1)
    }

    /** Every position of the trace after the first touches an earlier blank
        one, so the whole trace is reached from its first position by moving
        only through blank tiles. */
    ghost predicate Linked(t: Trace)
      reads board
    {
      && |t.order| == |t.parent| && 0 < |t.order|
      && forall k :: 0 < k < |t.order| ==> LinkStep(t, k)
    }

    /** The tiles revealed since the revealed positions were `start` are
        exactly those of `trace`, a linked trace from `root`. */
    ghost predicate Traces(trace: Trace, root: (int, int), start: set<(int, int)>)
      reads board
    {
      && Linked(trace) && trace.order[0] == root
      && Revealed() <= start + Elements(trace.order) && start + Elements(trace.order) <= Revealed()
    }

    /** A trace measured from the revealed positions `later` is one from the
        earlier `start` as well, when only its root was revealed in between. */
    lemma TracesEarlier(trace: Trace, root: (int, int), start: set<(int, int)>, later: set<(int, int)>)
      requires Traces(trace, root, later) && start <= later && later <= start + {root}
      ensures Traces(trace, root, start)
    {
      assert root in Elements(trace.order);
    }

    /** Revealing the root alone is traced by the root alone. */
    lemma TracesAlone(root: (int, int), start: set<(int, int)>)
      requires start <= Revealed() && Revealed() <= start + {root} && root in Revealed()
      ensures Traces(Trace([root], [0]), root, start)
    {
      assert Elements([root]) == {root};
    }

    /** A flood that starts next to the blank first position of `t` extends
        `t` by its own trace. */
    lemma JoinLinked(t: Trace, sub: Trace)
      requires Linked(t) && Linked(sub) && BlankAt(t.order[0])
      requires Adjacent(sub.order[0].0, sub.order[0].1, t.order[0].0, t.order[0].1)
      ensures Linked(Join(t, sub)) && Join(t, sub).order[0] == t.order[0]
      ensures Elements(Join(t, sub).order) == Elements(t.order) + Elements(sub.order)
    {
      var r, n := Join(t, sub), |t.order|;
      forall k | 0 < k < |r.order|
        ensures LinkStep(r, k)
      {
        if k < n {
          assert LinkStep(t, k);
          assert r.parent[k] == t.parent[k];
        } else if k == n {
          assert r.parent[k] == 0;
        } else {
          var m := k - n;
          assert LinkStep(sub, m);
          assert r.parent[k] == sub.parent[m] + n;
          assert r.order[k] == sub.order[m] && r.order[r.parent[k]] == sub.order[sub.parent[m]];
        }
      }
      assert forall p :: p in r.order <==> p in t.order || p in sub.order;
    }

    /** Uncovering tiles keeps a trace linked: no number changes. */
    twostate lemma LinkedKept(t: Trace)
      requires Uncovered() && old(Linked(t))
      ensures Linked(t)
    {
      forall k | 0 < k < |t.order|
        ensures LinkStep(t, k)
      {
        assert old(LinkStep(t, k));
      }
    }

    /** Revealing the single hidden tile `at` adds exactly that position to
        the revealed ones and uncovers nothing else. */
    twostate lemma RevealOne(at: (int, int))
      requires 0 <= at.1 < board.Length0 && 0 <= at.0 < board.Length1
      requires !old(board[at.1, at.0]).revealed && board[at.1, at.0] == old(board[at.1, at.0]).(revealed := true)
      requires forall i, j :: 0 <= i < board.Length0 && 0 <= j < board.Length1 && (j, i) != at ==>
        board[i, j] == old(board[i, j])
      ensures at !in old(Revealed()) && Revealed() == old(Revealed()) + {at}
      ensures OnlyUncovered(if board[at.1, at.0].isMine then {at} else {})
    {
      assert Revealed() == old(Revealed()) + {at};
    }

    /** Uncovering tiles keeps the mines and numbers, and only adds revealed
        positions. */
    twostate lemma UncoveredKeeps()
      requires Uncovered()
      ensures old(Numbered()) ==> Numbered()
      ensures old(Revealed()) <= Revealed()
      ensures old(MineRevealed()) ==> MineRevealed()
    {
      if old(MineRevealed()) {
        var b, a :| 0 <= b < board.Length0 && 0 <= a < board.Length1 && old(board[b, a]).revealed && old(board[b, a]).isMine;
        assert board[b, a].revealed && board[b, a].isMine;
      }
    }

    /** Uncovering tiles keeps closed every blank tile that was closed, as
        long as each newly revealed blank tile is in `pending`. */
    twostate lemma StillClosed(pending: set<(int, int)>)
      requires Uncovered()
      requires old(ClosedExcept(pending))
      requires forall y, x ::
        (0 <= y < board.Length0 && 0 <= x < board.Length1 &&
         !old(board[y, x]).revealed && board[y, x].revealed && board[y, x].number == 0) ==> (x, y) in pending
      ensures ClosedExcept(pending)
    {
    }

    /** A blank tile closed while others are pending stays closed when more
        are pending. */
    lemma ClosedWider(pending: set<(int, int)>, more: set<(int, int)>)
      requires ClosedExcept(pending) && pending <= more
      ensures ClosedExcept(more)
    {
    }

    /** Builds the board from one draw in 0..99 per tile, `draws[y][x]`, in
        place of the original's random numbers. */
    constructor (width: nat, length: nat, difficulty: Difficulty, draws: seq<seq<int>>)
      requires IsGrid(draws, width, length)
      requires forall i, j :: 0 <= i < length && 0 <= j < width ==> 0 <= draws[i][j] < 100
      ensures Valid() && fresh(board)
      ensures this.width == width && this.length == length
      ensures mines == MineLayout(draws, Threshold(difficulty))
      ensures forall y, x :: 0 <= y < length && 0 <= x < width ==>
        && (board[y, x].isMine <==> draws[y][x] > Threshold(difficulty))
        && !board[y, x].revealed
        && board[y, x].flag == Empty
      ensures numRevealed == 0 && !hasLost
    {
      this.width := width;
      this.length := length;
      var probability := Threshold(difficulty);
      ghost var layout := MineLayout(draws, probability);
      mines := layout;
      var b, mineNum := PlaceMines(width, length, probability, draws, layout);
      board := b;
      numMines := mineNum;
      numRevealed := 0;
      hasLost := false;
      new;
      NumberTiles();
      assert Revealed() == {};
    }

    /** Lays out one fresh tile per draw, a mine where the draw exceeds
        `probability` (as `layout` records), and counts the mines. */
    static method PlaceMines(width: nat, length: nat, probability: int, draws: seq<seq<int>>,
                             ghost layout: seq<seq<bool>>)
      returns (b: array2<Square>, mineNum: nat)
      requires IsGrid(draws, width, length) && IsGrid(layout, width, length)
      requires forall y, x :: 0 <= y < length && 0 <= x < width ==> (layout[y][x] <==> draws[y][x] > probability)
      ensures fresh(b) && b.Length0 == length && b.Length1 == width
      ensures forall y, x :: 0 <= y < length && 0 <= x < width ==> b[y, x] == NewSquare(layout[y][x])
      ensures mineNum == |MineCells(layout, width, length)|
    {
      b := new Square[length, width]((i, j) => NewSquare(false));
      mineNum := 0;
      for i := 0 to length
        invariant mineNum == MinesInGrid(layout, width, length, i)
        invariant forall y, x :: 0 <= y < i && 0 <= x < width ==> b[y, x] == NewSquare(layout[y][x])
      {
        for j := 0 to width
          invariant mineNum == MinesInGrid(layout, width, length, i) + MinesInSpan(layout, width, length, i, 0, j)
          invariant forall y, x :: 0 <= y < length && 0 <= x < width && (y < i || (y == i && x < j)) ==>
            b[y, x] == NewSquare(layout[y][x])
        {
          var isMine := draws[i][j] > probability;
          if isMine {
            mineNum := mineNum + 1;
          }
          b[i, j] := NewSquare(isMine);
        }
      }
      MinesInGridCount(layout, width, length);
    }

    /** Sets the number of every tile once all mines are placed. */
    method NumberTiles()
      requires MinesPlaced()
      modifies board
      ensures Numbered()
      ensures forall y, x :: 0 <= y < length && 0 <= x < width ==>
        board[y, x] == old(board[y, x]).(number := MinesAround(mines, width, length, x, y))
    {
      for i := 0 to length
        invariant forall y, x :: 0 <= y < i && 0 <= x < width ==>
          board[y, x] == old(board[y, x]).(number := MinesAround(mines, width, length, x, y))
        invariant forall y, x :: i <= y < length && 0 <= x < width ==> board[y, x] == old(board[y, x])
      {
        for j := 0 to width
          invariant forall y, x :: 0 <= y < i && 0 <= x < width ==>
            board[y, x] == old(board[y, x]).(number := MinesAround(mines, width, length, x, y))
          invariant forall x :: 0 <= x < j ==>
            board[i, x] == old(board[i, x]).(number := MinesAround(mines, width, length, x, i))
          invariant forall y, x :: 0 <= y < length && 0 <= x < width && (y > i || (y == i && x >= j)) ==>
            board[y, x] == old(board[y, x])
        {
          var n := SurroundingMines(j, i);
          board[i, j] := board[i, j].(number := n);
        }
      }
    }

    function WithinBounds(x: int, y: int): (b: bool)
      ensures b <==> (x, y) in Cells(width, length)
    {
      y >= 0 && y < length && x >= 0 && x < width
    }

    /** Counts the mines in the on-grid part of the 3x3 block around `(x, y)`,
        the tile itself included. */
    method SurroundingMines(x: int, y: int) returns (count: nat)
      requires MinesPlaced()
      ensures count == MinesAround(mines, width, length, x, y)
    {
      count := 0;
      var i := y - 1;
      while i <= y + 1
        invariant y - 1 <= i <= y + 2
        invariant count == MinesInRows(mines, width, length, x, y - 1, i)
      {
        var j := x - 1;
        while j <= x + 1
          invariant x - 1 <= j <= x + 2
          invariant count == MinesInRows(mines, width, length, x, y - 1, i) + MinesInSpan(mines, width, length, i, x - 1, j)
        {
          if WithinBounds(j, i) && board[i, j].isMine {
            count := count + 1;
          }
          j := j + 1;
        }
        i := i + 1;
      }
    }

    /** Reveals a hidden tile the player chose, and floods from it if it is blank. */
    method Play(x: int, y: int) returns (outcome: Outcome, ghost trace: Trace)
      requires Valid()
      modifies board, this`numRevealed, this`hasLost
      ensures Valid()
      ensures !WithinBounds(x, y) ==> outcome == Rejected(OutOfBounds)
      ensures WithinBounds(x, y) && old(board[y, x].flag) != Empty ==> outcome == Rejected(TileFlagged)
      ensures WithinBounds(x, y) && old(board[y, x].flag) == Empty && old(board[y, x].revealed) ==>
        outcome == Rejected(AlreadyRevealed)
      ensures outcome.Accepted? <==>
        WithinBounds(x, y) && old(board[y, x].flag) == Empty && !old(board[y, x].revealed)
      ensures outcome.Rejected? ==>
        unchanged(board) && numRevealed == old(numRevealed) && hasLost == old(hasLost)
      ensures outcome.Accepted? ==>
        && board[y, x].revealed
        && hasLost == board[y, x].isMine
        && OnlyUncovered({(x, y)})
        && (board[y, x].isMine || board[y, x].number != 0 ==> trace.order == [(x, y)])
        && (board[y, x].number == 0 ==> NeighboursShown(x, y))
        && Traces(trace, (x, y), old(Revealed()))
    {
      trace := Trace([(x, y)], [0]);
      if !WithinBounds(x, y) {
        outcome := Rejected(OutOfBounds);
      } else if board[y, x].flag != Empty {
        outcome := Rejected(TileFlagged);
      } else if board[y, x].revealed {
        outcome := Rejected(AlreadyRevealed);
      } else {
        MinesAroundBounds(mines, width, length, x, y);
        trace := RevealSurroundings(x, y, {});
        UncoveredKeeps();
        hasLost := board[y, x].isMine;
        outcome := Accepted;
      }
    }

    /** Puts `flag` on a hidden tile. */
    method Flag(x: int, y: int, flag: Flag) returns (outcome: Outcome)
      requires Valid()
      modifies board
      ensures Valid()
      ensures !WithinBounds(x, y) ==> outcome == Rejected(OutOfBounds)
      ensures WithinBounds(x, y) && old(board[y, x].revealed) ==> outcome == Rejected(AlreadyRevealed)
      ensures WithinBounds(x, y) && !old(board[y, x].revealed) && old(board[y, x].flag) == flag ==>
        outcome == Rejected(AlreadyHoldsFlag)
      ensures outcome.Accepted? <==>
        WithinBounds(x, y) && !old(board[y, x].revealed) && old(board[y, x].flag) != flag
      ensures outcome.Rejected? ==> unchanged(board)
      ensures outcome.Accepted? ==> board[y, x] == old(board[y, x]).(flag := flag)
      ensures forall i, j :: 0 <= i < length && 0 <= j < width && (j, i) != (x, y) ==> board[i, j] == old(board[i, j])
    {
      if !WithinBounds(x, y) {
        outcome := Rejected(OutOfBounds);
      } else if board[y, x].revealed {
        outcome := Rejected(AlreadyRevealed);
      } else if board[y, x].flag == flag {
        outcome := Rejected(AlreadyHoldsFlag);
      } else {
        ghost var shown := Revealed();
        board[y, x] := board[y, x].(flag := flag);
        assert Revealed() == shown;
        outcome := Accepted;
      }
    }

    /** Reveals the hidden tile `(x, y)`, mine or not, counts it, and floods
        from it if it is blank. `pending` holds the blank tiles whose flood is
        under way when this is a step of a flood. */
    method RevealSurroundings(x: int, y: int, ghost pending: set<(int, int)>) returns (ghost trace: Trace)
      requires Counted() && ClosedExcept(pending)
      requires WithinBounds(x, y) && !board[y, x].revealed
      modifies board, this`numRevealed
      decreases Unrevealed(), 0
      ensures Counted() && ClosedExcept(pending)
      ensures board[y, x].revealed
      ensures OnlyUncovered(if board[y, x].isMine then {(x, y)} else {})
      ensures board[y, x].number != 0 ==> trace.order == [(x, y)]
      ensures board[y, x].number == 0 ==> NeighboursShown(x, y)
      ensures Traces(trace, (x, y), old(Revealed()))
    {
      if board[y, x].number == 0 {
        ClosedWider(pending, pending + {(x, y)});
      }
      Uncover(x, y);
      if board[y, x].number == 0 {
        StillClosed(pending + {(x, y)});
        ghost var shown := Revealed();
        trace := RevealBlanks(x, y, pending);
        TracesEarlier(trace, (x, y), old(Revealed()), shown);
      } else {
        StillClosed(pending);
        trace := Trace([(x, y)], [0]);
        TracesAlone((x, y), old(Revealed()));
      }
    }

    /** Reveals the hidden tile `(x, y)` and counts it. */
    method Uncover(x: int, y: int)
      requires Counted() && WithinBounds(x, y) && !board[y, x].revealed
      modifies board, this`numRevealed
      ensures Counted()
      ensures board[y, x] == old(board[y, x]).(revealed := true)
      ensures forall i, j :: 0 <= i < length && 0 <= j < width && (j, i) != (x, y) ==> board[i, j] == old(board[i, j])
      ensures old(Revealed()) <= Revealed() <= old(Revealed()) + {(x, y)} && (x, y) in Revealed()
      ensures OnlyUncovered(if board[y, x].isMine then {(x, y)} else {})
      ensures Unrevealed() < old(Unrevealed())
    {
      board[y, x] := board[y, x].(revealed := true);
      numRevealed := numRevealed + 1;
      RevealOne((x, y));
      assert (x, y) in old(Unrevealed()) - Unrevealed();
    }

    /** Reveals every hidden safe tile around the revealed blank tile `(x, y)`,
        flooding on from each one that is blank as well. `pending` holds the
        blank tiles whose flood is still under way further up the recursion. */
    method RevealBlanks(x: int, y: int, ghost pending: set<(int, int)>) returns (ghost trace: Trace)
      requires Counted() && WithinBounds(x, y)
      requires board[y, x].revealed && board[y, x].number == 0
      requires ClosedExcept(pending + {(x, y)})
      modifies board, this`numRevealed
      decreases Unrevealed(), 3
      ensures Counted() && ClosedExcept(pending)
      ensures OnlyUncovered({})
      ensures NeighboursShown(x, y)
      ensures Traces(trace, (x, y), old(Revealed()))
    {
      ghost var start := Revealed();
      trace := Trace([(x, y)], [0]);
      assert (x, y) in Revealed();
      TracesAlone((x, y), start);
      var i := y - 1;
      while i <= y + 1
        invariant y - 1 <= i <= y + 2
        invariant Counted() && OnlyUncovered({}) && ClosedExcept(pending + {(x, y)})
        invariant Traces(trace, (x, y), start)
        invariant ShownBefore(x, y, i, x - 1)
      {
        trace := FloodRow(x, y, i, pending, start, trace);
        i := i + 1;
      }
      ShownCloses(x, y, pending);
    }

    /** The inner loop of the flood from the revealed blank tile `(x, y)`:
        steps through the three neighbours in row `i`, left to right. */
    method FloodRow(x: int, y: int, i: int, ghost pending: set<(int, int)>, ghost start: set<(int, int)>,
                    ghost before: Trace) returns (ghost trace: Trace)
      requires Counted() && WithinBounds(x, y) && y - 1 <= i <= y + 1
      requires board[y, x].revealed && board[y, x].number == 0
      requires ClosedExcept(pending + {(x, y)})
      requires Traces(before, (x, y), start)
      requires ShownBefore(x, y, i, x - 1)
      modifies board, this`numRevealed
      decreases Unrevealed(), 2
      ensures Counted() && ClosedExcept(pending + {(x, y)})
      ensures OnlyUncovered({})
      ensures Traces(trace, (x, y), start)
      ensures ShownBefore(x, y, i + 1, x - 1)
    {
      trace := before;
      var j := x - 1;
      while j <= x + 1
        invariant x - 1 <= j <= x + 2
        invariant Counted() && OnlyUncovered({}) && ClosedExcept(pending + {(x, y)})
        invariant Traces(trace, (x, y), start)
        invariant ShownBefore(x, y, i, j)
      {
        trace := FloodNeighbour(x, y, j, i, pending, start, trace);
        j := j + 1;
      }
      assert ShownBefore(x, y, i + 1, x - 1) by {
        forall b, a | Adjacent(x, y, a, b) && (b < i + 1 || (b == i + 1 && a < x - 1)) &&
          0 <= b < board.Length0 && 0 <= a < board.Length1
          ensures board[b, a].revealed || board[b, a].isMine
        {
          assert b < i || (b == i && a < j);
        }
      }
    }

    /** One step of the flood from the revealed blank tile `(x, y)`: the
        neighbour `(j, i)`, if it is on the grid, hidden and safe, is revealed
        and flooded from in turn. Afterwards it is revealed or a mine. */
    method FloodNeighbour(x: int, y: int, j: int, i: int, ghost pending: set<(int, int)>,
                          ghost start: set<(int, int)>, ghost before: Trace) returns (ghost trace: Trace)
      requires Counted() && WithinBounds(x, y) && Adjacent(x, y, j, i)
      requires board[y, x].revealed && board[y, x].number == 0
      requires ClosedExcept(pending + {(x, y)})
      requires Traces(before, (x, y), start)
      requires ShownBefore(x, y, i, j)
      modifies board, this`numRevealed
      decreases Unrevealed(), 1
      ensures Counted() && ClosedExcept(pending + {(x, y)})
      ensures OnlyUncovered({})
      ensures Traces(trace, (x, y), start)
      ensures ShownBefore(x, y, i, j + 1)
    {
      trace := before;
      if WithinBounds(j, i) && !board[i, j].revealed && !board[i, j].isMine {
        ghost var sub := RevealSurroundings(j, i, pending + {(x, y)});
        UncoveredKeeps();
        ShownStays();
        LinkedKept(before);
        JoinLinked(before, sub);
        trace := Join(before, sub);
      }
      ShownNext(x, y, i, j);
    }

    /** The game is over when every tile but the mines has been revealed, or
        the last reveal hit a mine. */
    function HasFinished(): (r: bool)
      reads this
      ensures hasLost ==> r
      ensures !hasLost ==> (r <==> numRevealed + numMines == length * width)
    {
      numRevealed == length * width - numMines || hasLost
    }

    /** Won: finished without having hit a mine. */
    function HasWon(): (r: bool)
      reads this
      ensures r <==> !hasLost && numRevealed + numMines == length * width
      ensures r ==> HasFinished()
    {
      HasFinished() && !hasLost
    }

    /** While no mine is showing, the count test of `HasWon` says exactly that
        every safe tile has been revealed; and a lost game is finished but
        not won. */
    lemma WonIffSafeShown()
      requires Valid()
      ensures !MineRevealed() ==> (HasWon() <==> SafeCells(mines, width, length) <= Revealed())
      ensures hasLost ==> HasFinished() && !HasWon()
    {
      if !MineRevealed() {
        RevealedAreSafe();
        SafeCellsCount(mines, width, length);
        assert length * width == width * length;
        FullSubset(Revealed(), SafeCells(mines, width, length));
      }
    }

    /** With no mine showing, every revealed tile is a safe one. */
    lemma RevealedAreSafe()
      requires MinesPlaced() && !MineRevealed()
      ensures Revealed() <= SafeCells(mines, width, length)
    {
    }

    /** What a tile shows. On the player's board an unmarked hidden tile
        shows "." and an unmarked revealed safe tile its count of neighbouring
        mines, at most 8; with bombs revealed an unmarked tile shows "x"
        exactly when it is a mine. The full board shows every mine and every
        other tile's count. */
    lemma TileView(x: int, y: int)
      requires Valid() && WithinBounds(x, y)
      ensures board[y, x].flag == Empty && !board[y, x].revealed ==> Symbol(board[y, x], false) == Hidden
      ensures board[y, x].flag == Empty && board[y, x].revealed && !mines[y][x] ==>
        Symbol(board[y, x], false) == Count(MinesAround(mines, width, length, x, y)) &&
        MinesAround(mines, width, length, x, y) <= 8
      ensures board[y, x].flag == Empty ==> (Symbol(board[y, x], true) == MineMark <==> mines[y][x])
      ensures FullSymbol(board[y, x]) ==
        if mines[y][x] then MineMark else Count(MinesAround(mines, width, length, x, y))
    {
      MinesAroundBounds(mines, width, length, x, y);
    }
  }
}
