/** Geometry of a `w`-wide, `l`-long grid and the counting of mines on it,
    on plain values. A position is `(x, y)`: column `x < w`, row `y < l`; a
    mine layout is indexed `m[y][x]`. */
module Layout {

  predicate InBounds(w: int, l: int, x: int, y: int)
  {
    0 <= y < l && 0 <= x < w
  }

  /** `g` has `l` rows of `w` entries each. */
  predicate IsGrid<T>(g: seq<seq<T>>, w: int, l: int)
  {
    |g| == l && forall i :: 0 <= i < |g| ==> |g[i]| == w
  }

  /** Every position of the grid. */
  ghost function Cells(w: int, l: int): set<(int, int)>
  {
    set x, y | 0 <= x < w && 0 <= y < l :: (x, y)
  }

  /** The positions of row `y` whose column is below `n`. */
  ghost function RowCells(n: int, y: int): set<(int, int)>
  {
    set x | 0 <= x < n :: (x, y)
  }

  lemma {:induction false} RowCellsCount(n: nat, y: int)
    ensures |RowCells(n, y)| == n
  {
    if n > 0 {
      var prev := RowCells(n - 1, y);
      RowCellsCount(n - 1, y);
      assert RowCells(n, y) == prev + {(n - 1, y)} by {
        forall p | p in RowCells(n, y) ensures p in prev + {(n - 1, y)} {
          if p.0 < n - 1 { assert p in prev; }
        }
      }
      assert (n - 1, y) !in prev;
    } else {
      assert RowCells(n, y) == {};
    }
  }

  /** A `w` by `l` grid has `w * l` positions. */
  lemma {:induction false} CellsCount(w: nat, l: nat)
    ensures |Cells(w, l)| == w * l
  {
    if l > 0 {
      var above, last := Cells(w, l - 1), RowCells(w, l - 1);
      CellsCount(w, l - 1);
      RowCellsCount(w, l - 1);
      assert Cells(w, l) == above + last by {
        forall p | p in Cells(w, l) ensures p in above + last {
          if p.1 < l - 1 { assert p in above; } else { assert p in last; }
        }
      }
      assert above * last == {};
      RowMajor(w, l);
    } else {
      assert Cells(w, l) == {};
    }
  }

  /** `l` rows of `w` are `l - 1` rows of `w` and one more row. */
  lemma RowMajor(w: nat, l: nat)
    requires l > 0
    ensures w * (l - 1) + w == w * l
  {
  }

  /** The mine layout drawn from one draw per position: a position holds a
      mine exactly when its draw exceeds the threshold. */
  function MineLayout(draws: seq<seq<int>>, threshold: int): (m: seq<seq<bool>>)
    ensures |m| == |draws|
    ensures forall i :: 0 <= i < |m| ==> |m[i]| == |draws[i]|
    ensures forall i, j :: 0 <= i < |m| && 0 <= j < |m[i]| ==> (m[i][j] <==> draws[i][j] > threshold)
  {
    seq(|draws|, i requires 0 <= i < |draws| => seq(|draws[i]|, j requires 0 <= j < |draws[i]| => draws[i][j] > threshold))
  }

  /** Whether `(x, y)` is on the grid and holds a mine; off the grid is no mine. */
  function MineAt(m: seq<seq<bool>>, w: int, l: int, x: int, y: int): bool
    requires IsGrid(m, w, l)
  {
    InBounds(w, l, x, y) && m[y][x]
  }

  /** The positions that hold a mine. */
  ghost function MineCells(m: seq<seq<bool>>, w: int, l: int): set<(int, int)>
    requires IsGrid(m, w, l)
  {
    set x, y | 0 <= x < w && 0 <= y < l && m[y][x] :: (x, y)
  }

  /** The positions that hold no mine. */
  ghost function SafeCells(m: seq<seq<bool>>, w: int, l: int): set<(int, int)>
    requires IsGrid(m, w, l)
  {
    Cells(w, l) - MineCells(m, w, l)
  }

  /** The safe positions are all the others: there are `w * l` minus the mines. */
  lemma SafeCellsCount(m: seq<seq<bool>>, w: nat, l: nat)
    requires IsGrid(m, w, l)
    ensures MineCells(m, w, l) <= Cells(w, l)
    ensures |SafeCells(m, w, l)| == w * l - |MineCells(m, w, l)|
  {
    CellsCount(w, l);
    var mc, c := MineCells(m, w, l), Cells(w, l);
    assert mc <= c;
    assert c == SafeCells(m, w, l) + mc;
    assert SafeCells(m, w, l) * mc == {};
  }

  /** A subset is the whole set exactly when it is as large. */
  lemma FullSubset<T>(a: set<T>, b: set<T>)
    requires a <= b
    ensures |a| == |b| <==> b <= a
  {
    if b <= a {
      assert a == b;
    } else {
      var p :| p in b && p !in a;
      assert a <= b - {p};
      SubsetSize(a, b - {p});
    }
  }

  lemma {:induction false} SubsetSize<T>(a: set<T>, b: set<T>)
    requires a <= b
    ensures |a| <= |b|
    decreases a
  {
    if a != {} {
      var p :| p in a;
      SubsetSize(a - {p}, b - {p});
    }
  }

  /** Mines in row `y` at the columns `lo <= x < hi`. */
  function MinesInSpan(m: seq<seq<bool>>, w: int, l: int, y: int, lo: int, hi: int): nat
    requires IsGrid(m, w, l)
    decreases hi - lo
  {
    if hi <= lo then 0
    else MinesInSpan(m, w, l, y, lo, hi - 1) + (if MineAt(m, w, l, hi - 1, y) then 1 else 0)
  }

  /** Mines in the first `rows` rows, counted row by row. */
  function MinesInGrid(m: seq<seq<bool>>, w: int, l: int, rows: int): nat
    requires IsGrid(m, w, l)
    decreases rows
  {
    if rows <= 0 then 0
    else MinesInGrid(m, w, l, rows - 1) + MinesInSpan(m, w, l, rows - 1, 0, w)
  }

  /** The mine positions in the first `rows` rows. */
  ghost function MinesAbove(m: seq<seq<bool>>, w: int, l: int, rows: int): set<(int, int)>
    requires IsGrid(m, w, l)
  {
    set x, y | 0 <= x < w && 0 <= y < l && y < rows && m[y][x] :: (x, y)
  }

  lemma {:induction false} MinesAboveCount(m: seq<seq<bool>>, w: int, l: int, rows: int)
    requires IsGrid(m, w, l) && rows <= l
    ensures MinesInGrid(m, w, l, rows) == |MinesAbove(m, w, l, rows)|
    decreases rows
  {
    if rows <= 0 {
      assert MinesAbove(m, w, l, rows) == {};
    } else {
      MinesAboveCount(m, w, l, rows - 1);
      SpanMinesCount(m, w, l, rows - 1, 0, w);
      var above, last := MinesAbove(m, w, l, rows - 1), SpanMines(m, w, l, rows - 1, 0, w);
      assert MinesAbove(m, w, l, rows) == above + last;
      assert above * last == {};
    }
  }

  /** Counting row by row over the whole grid counts every mine once. */
  lemma MinesInGridCount(m: seq<seq<bool>>, w: int, l: int)
    requires IsGrid(m, w, l)
    ensures MinesInGrid(m, w, l, l) == |MineCells(m, w, l)|
  {
    MinesAboveCount(m, w, l, l);
    assert MinesAbove(m, w, l, l) == MineCells(m, w, l);
  }

  /** Mines in rows `lo <= y < hi` at the three columns `x - 1 .. x + 1`. */
  function MinesInRows(m: seq<seq<bool>>, w: int, l: int, x: int, lo: int, hi: int): nat
    requires IsGrid(m, w, l)
    decreases hi - lo
  {
    if hi <= lo then 0
    else MinesInRows(m, w, l, x, lo, hi - 1) + MinesInSpan(m, w, l, hi - 1, x - 1, x + 2)
  }

  /** The number a tile shows: the mines in the on-grid part of the 3x3 block
      centred on `(x, y)`, the centre itself included. */
  function MinesAround(m: seq<seq<bool>>, w: int, l: int, x: int, y: int): nat
    requires IsGrid(m, w, l)
  {
    MinesInRows(m, w, l, x, y - 1, y + 2)
  }

  /** Whether `(j, i)` lies in the 3x3 block centred on `(x, y)`. */
  predicate Adjacent(x: int, y: int, j: int, i: int)
  {
    y - 1 <= i <= y + 1 && x - 1 <= j <= x + 1
  }

  /** The mines of the 3x3 block centred on `(x, y)`, as a set of positions. */
  ghost function BlockMines(m: seq<seq<bool>>, w: int, l: int, x: int, y: int): set<(int, int)>
    requires IsGrid(m, w, l)
  {
    set j, i | y - 1 <= i <= y + 1 && x - 1 <= j <= x + 1 && InBounds(w, l, j, i) && m[i][j] :: (j, i)
  }

  ghost function SpanMines(m: seq<seq<bool>>, w: int, l: int, y: int, lo: int, hi: int): set<(int, int)>
    requires IsGrid(m, w, l)
  {
    set j | lo <= j < hi && InBounds(w, l, j, y) && m[y][j] :: (j, y)
  }

  ghost function RowsMines(m: seq<seq<bool>>, w: int, l: int, x: int, lo: int, hi: int): set<(int, int)>
    requires IsGrid(m, w, l)
  {
    set j, i | lo <= i < hi && x - 1 <= j <= x + 1 && InBounds(w, l, j, i) && m[i][j] :: (j, i)
  }

  lemma {:induction false} SpanMinesCount(m: seq<seq<bool>>, w: int, l: int, y: int, lo: int, hi: int)
    requires IsGrid(m, w, l)
    ensures MinesInSpan(m, w, l, y, lo, hi) == |SpanMines(m, w, l, y, lo, hi)|
    decreases hi - lo
  {
    if hi <= lo {
      assert SpanMines(m, w, l, y, lo, hi) == {};
    } else {
      SpanMinesCount(m, w, l, y, lo, hi - 1);
      if MineAt(m, w, l, hi - 1, y) {
        assert SpanMines(m, w, l, y, lo, hi) == SpanMines(m, w, l, y, lo, hi - 1) + {(hi - 1, y)};
      } else {
        assert SpanMines(m, w, l, y, lo, hi) == SpanMines(m, w, l, y, lo, hi - 1);
      }
    }
  }

  lemma {:induction false} RowsMinesCount(m: seq<seq<bool>>, w: int, l: int, x: int, lo: int, hi: int)
    requires IsGrid(m, w, l)
    ensures MinesInRows(m, w, l, x, lo, hi) == |RowsMines(m, w, l, x, lo, hi)|
    decreases hi - lo
  {
    if hi <= lo {
      assert RowsMines(m, w, l, x, lo, hi) == {};
    } else {
      RowsMinesCount(m, w, l, x, lo, hi - 1);
      SpanMinesCount(m, w, l, hi - 1, x - 1, x + 2);
      var above, last := RowsMines(m, w, l, x, lo, hi - 1), SpanMines(m, w, l, hi - 1, x - 1, x + 2);
      assert RowsMines(m, w, l, x, lo, hi) == above + last;
      assert above * last == {};
    }
  }

  /** The number is the size of the set of mine positions in the block: an
      independent statement of what the row-by-row count computes. */
  lemma MinesAroundIsBlockCount(m: seq<seq<bool>>, w: int, l: int, x: int, y: int)
    requires IsGrid(m, w, l)
    ensures MinesAround(m, w, l, x, y) == |BlockMines(m, w, l, x, y)|
  {
    RowsMinesCount(m, w, l, x, y - 1, y + 2);
    assert BlockMines(m, w, l, x, y) == RowsMines(m, w, l, x, y - 1, y + 2);
  }

  /** The span of three columns centred on `x` holds at most three mines, and
      at most two when `(x, y)` itself is a safe on-grid tile. */
  lemma ThreeSpanBound(m: seq<seq<bool>>, w: int, l: int, x: int, y: int)
    requires IsGrid(m, w, l)
    ensures MinesInSpan(m, w, l, y, x - 1, x + 2) <= 3
    ensures !MineAt(m, w, l, x, y) ==> MinesInSpan(m, w, l, y, x - 1, x + 2) <= 2
    ensures MineAt(m, w, l, x, y) ==> MinesInSpan(m, w, l, y, x - 1, x + 2) >= 1
  {
    assert MinesInSpan(m, w, l, y, x - 1, x - 1) == 0;
    assert MinesInSpan(m, w, l, y, x - 1, x + 1)
      == MinesInSpan(m, w, l, y, x - 1, x) + (if MineAt(m, w, l, x, y) then 1 else 0);
  }

  /** A mine's number counts the mine itself, so it is never 0; a safe tile's
      number counts only its (at most eight) neighbours. */
  lemma MinesAroundBounds(m: seq<seq<bool>>, w: int, l: int, x: int, y: int)
    requires IsGrid(m, w, l)
    ensures MinesAround(m, w, l, x, y) <= 9
    ensures MineAt(m, w, l, x, y) ==> MinesAround(m, w, l, x, y) >= 1
    ensures !MineAt(m, w, l, x, y) ==> MinesAround(m, w, l, x, y) <= 8
  {
    ThreeSpanBound(m, w, l, x, y - 1);
    ThreeSpanBound(m, w, l, x, y);
    ThreeSpanBound(m, w, l, x, y + 1);
    assert MinesInRows(m, w, l, x, y - 1, y - 1) == 0;
    assert MinesInRows(m, w, l, x, y - 1, y) == MinesInSpan(m, w, l, y - 1, x - 1, x + 2);
    assert MinesInRows(m, w, l, x, y - 1, y + 1)
      == MinesInRows(m, w, l, x, y - 1, y) + MinesInSpan(m, w, l, y, x - 1, x + 2);
  }
}
