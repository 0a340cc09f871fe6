/**
 * `write_dataframe_tool`: validate a write request against a registered table, normalise the
 * values to rows, then write them cell by cell, in place and in row-major order, with a stride.
 * The table is an `array2` held in the name-keyed registry; a write outside the table stops
 * the tool and keeps the earlier writes.
 */
module DataframeWrite {
  import opened Common
  import opened Text
  import opened Values
  import opened ColumnIndex
  import opened ToolRegistry

  /** A table: its column labels and its cells (rows by columns). */
  datatype DataFrame = DataFrame(columns: seq<Value>, cells: array2<Value>)

  /** A registry entry: the table and where it was loaded from. */
  datatype RegistryEntry = RegistryEntry(dataframe: DataFrame, filePath: string, sheetName: Value, headerRow: int)

  /** Every registered table has one label per column. */
  predicate WellShaped(dataframes: map<string, RegistryEntry>)
  {
    forall n :: n in dataframes ==>
      |dataframes[n].dataframe.columns| == dataframes[n].dataframe.cells.Length1
  }

  datatype Axis = RowAxis | ColumnAxis | MatrixAxis

  /** The axis argument, when it is one of the three accepted strings. */
  function ParseAxis(v: Value): (a: Option<Axis>)
    ensures a.Some? <==> v in {VStr("row"), VStr("column"), VStr("matrix")}
  {
    if v == VStr("row") then Some(RowAxis)
    else if v == VStr("column") then Some(ColumnAxis)
    else if v == VStr("matrix") then Some(MatrixAxis)
    else None
  }

  function AxisName(a: Axis): string
  {
    match a
    case RowAxis => "row"
    case ColumnAxis => "column"
    case MatrixAxis => "matrix"
  }

  /** The values contain no list. */
  predicate Flat(xs: seq<Value>)
  {
    forall k :: 0 <= k < |xs| ==> !xs[k].VList?
  }

  /** The elements the write loop visits, row after row, in order (a non-iterable row adds none). */
  ghost function Cells(rows: seq<Value>): seq<Value>
  {
    if |rows| == 0 then []
    else (if Items(rows[0]).Some? then Items(rows[0]).value else []) + Cells(rows[1..])
  }

  /** One single-value row per value visits the values themselves, in order. */
  lemma {:induction false} SingleValueRowsCells(xs: seq<Value>)
    ensures Cells(seq(|xs|, k requires 0 <= k < |xs| => VList([xs[k]]))) == xs
  {
    var rows := seq(|xs|, k requires 0 <= k < |xs| => VList([xs[k]]));
    if |xs| > 0 {
      assert rows[1..] == seq(|xs[1..]|, k requires 0 <= k < |xs[1..]| => VList([xs[1..][k]]));
      SingleValueRowsCells(xs[1..]);
      assert Items(rows[0]) == Some([xs[0]]);
      assert xs == [xs[0]] + xs[1..];
    }
  }

  /**
   * The normalisation to rows: a non-list becomes one row (`[[v]]` for a matrix, `[v]`
   * otherwise); a flat list becomes one row for `row`, one single-value row per value for
   * `column`, and stays a list of scalar rows for `matrix`; a list holding a list stays.
   * Under `row` and `column` the loop visits a flat list's values exactly once each, in list
   * order; under `matrix` it visits a scalar once.
   */
  function Normalize(values: Value, axis: Axis): (rows: seq<Value>)
    ensures !values.VList? ==> rows == if axis == MatrixAxis then [VList([values])] else [values]
    ensures values.VList? && Flat(values.items) && axis == RowAxis ==> rows == [values]
    ensures values.VList? && Flat(values.items) && axis == ColumnAxis ==>
      |rows| == |values.items| && forall k :: 0 <= k < |rows| ==> rows[k] == VList([values.items[k]])
    ensures values.VList? && (axis == MatrixAxis || !Flat(values.items)) ==> rows == values.items
    ensures values.VList? && Flat(values.items) && axis != MatrixAxis ==> Cells(rows) == values.items
    ensures !values.VList? && axis == MatrixAxis ==> Cells(rows) == [values]
  {
    if !values.VList? then
      if axis == MatrixAxis then
        assert Items(VList([values])) == Some([values]);
        [VList([values])]
      else [values]
    else if Flat(values.items) then
      match axis
      case RowAxis =>
        assert Cells([values]) == values.items + Cells([]);
        [values]
      case ColumnAxis =>
        SingleValueRowsCells(values.items);
        seq(|values.items|, k requires 0 <= k < |values.items| => VList([values.items[k]]))
      case MatrixAxis => values.items
    else values.items
  }

  /** The geometry of a write: the table's shape, the start cell, the stride and the axis. */
  datatype Frame = Frame(nrows: int, ncols: int, startRow: int, col: int, step: int, axis: Axis)

  /**
   * The cell element `(i, j)` of the normalised rows targets: rows advance along the table's
   * rows for `row` and `matrix`, along its columns for `column`.
   */
  function Target(f: Frame, i: int, j: int): (t: (int, int))
    ensures i == 0 && j == 0 ==> t == (f.startRow, f.col)
    ensures 0 <= f.step && 0 <= i && 0 <= j ==> f.startRow <= t.0 && f.col <= t.1
  {
    if f.axis == ColumnAxis then (f.startRow + j * f.step, f.col + i * f.step)
    else (f.startRow + i * f.step, f.col + j * f.step)
  }

  /** A negative position counts from the end, as positional indexing does. */
  function Wrap(k: int, size: int): int
  {
    if k < 0 then k + size else k
  }

  /** The message of the IndexError for a position below `-size`. */
  function IndexMessage(k: int, size: int): string
  {
    "index " + IntToString(k) + " is out of bounds for axis 0 with size " + IntToString(size)
  }

  /** A grid of `nrows` rows of `ncols` cells. */
  ghost predicate Shaped(g: seq<seq<Value>>, nrows: int, ncols: int)
  {
    |g| == nrows && forall r :: 0 <= r < |g| ==> |g[r]| == ncols
  }

  /** The grid with cell `(r, c)` set to `v`. */
  ghost function Put(g: seq<seq<Value>>, r: int, c: int, v: Value): (h: seq<seq<Value>>)
    requires 0 <= r < |g| && 0 <= c < |g[r]|
    ensures |h| == |g| && forall k :: 0 <= k < |g| ==> |h[k]| == |g[k]|
    ensures h[r][c] == v
    ensures forall k, l :: 0 <= k < |g| && 0 <= l < |g[k]| && (k != r || l != c) ==> h[k][l] == g[k][l]
  {
    g[r := g[r][c := v]]
  }

  /** Two grids of one shape that agree cell by cell are equal. */
  lemma SameCells(g: seq<seq<Value>>, h: seq<seq<Value>>)
    requires |g| == |h| && forall r :: 0 <= r < |g| ==> |g[r]| == |h[r]|
    requires forall r, c :: 0 <= r < |g| && 0 <= c < |g[r]| ==> g[r][c] == h[r][c]
    ensures g == h
  {
    forall r | 0 <= r < |g|
      ensures g[r] == h[r]
    {
    }
  }

  /** The contents of a table's cells. */
  ghost function Grid(a: array2<Value>): (g: seq<seq<Value>>)
    reads a
    ensures Shaped(g, a.Length0, a.Length1)
    ensures forall r, c :: 0 <= r < a.Length0 && 0 <= c < a.Length1 ==> g[r][c] == a[r, c]
  {
    seq(a.Length0, r requires 0 <= r < a.Length0 reads a =>
      seq(a.Length1, c requires 0 <= c < a.Length1 reads a => a[r, c]))
  }

  /** How the write loop ends: all cells written, a target past the table, or a caught exception. */
  datatype Stop = Completed | OutOfBounds(r: int, c: int) | Failed(error: string)

  /** The number of cells row `i` holds, 0 past the rows or for a row that is not iterable. */
  function RowLength(rows: seq<Value>, i: int): nat
  {
    if 0 <= i < |rows| && Items(rows[i]).Some? then |Items(rows[i]).value| else 0
  }

  /**
   * The write loop from element `(i, j)` on, over grid `g`: the grid it leaves and how it stops.
   * A non-iterable row raises; a target at or past the table's end stops the loop; a target
   * below minus the size raises; any other target is written after wrapping.
   */
  ghost function Resume(f: Frame, rows: seq<Value>, i: nat, j: nat, g: seq<seq<Value>>)
    : (res: (seq<seq<Value>>, Stop))
    requires i <= |rows| && 0 <= f.nrows && 0 <= f.ncols && Shaped(g, f.nrows, f.ncols)
    ensures Shaped(res.0, f.nrows, f.ncols)
    decreases |rows| - i, RowLength(rows, i) - j
  {
    if i == |rows| then (g, Completed)
    else
      match Items(rows[i])
      case None => (g, Failed(NotIterableMessage(rows[i])))
      case Some(xs) =>
        if j >= |xs| then Resume(f, rows, i + 1, 0, g)
        else
          var (r, c) := Target(f, i, j);
          if r >= f.nrows || c >= f.ncols then (g, OutOfBounds(r, c))
          else if c < -f.ncols then (g, Failed(IndexMessage(c, f.ncols)))
          else if r < -f.nrows then (g, Failed(IndexMessage(r, f.nrows)))
          else Resume(f, rows, i, j + 1, Put(g, Wrap(r, f.nrows), Wrap(c, f.ncols), xs[j]))
  }

  /** Element `(k, l)` of the rows is visited at or after element `(i, j)`. */
  ghost predicate After(rows: seq<Value>, i: int, j: int, k: int, l: int)
  {
    i <= k < |rows| && 0 <= l < RowLength(rows, k) && (k > i || l >= j)
  }

  /** Some element visited from `(i, j)` on targets cell `(r, c)`, after wrapping. */
  ghost predicate Hits(f: Frame, rows: seq<Value>, i: int, j: int, r: int, c: int)
  {
    exists k, l :: After(rows, i, j, k, l)
      && Wrap(Target(f, k, l).0, f.nrows) == r && Wrap(Target(f, k, l).1, f.ncols) == c
  }

  /** The loop writes only targeted cells: a cell no element targets keeps its value. */
  lemma {:induction false} UntargetedCellUnchanged(f: Frame, rows: seq<Value>, i: nat, j: nat,
                                                   g: seq<seq<Value>>, r: int, c: int)
    requires i <= |rows| && 0 <= f.nrows && 0 <= f.ncols && Shaped(g, f.nrows, f.ncols)
    requires 0 <= r < f.nrows && 0 <= c < f.ncols && !Hits(f, rows, i, j, r, c)
    ensures Resume(f, rows, i, j, g).0[r][c] == g[r][c]
    decreases |rows| - i, RowLength(rows, i) - j
  {
    if i < |rows| && Items(rows[i]).Some? {
      var xs := Items(rows[i]).value;
      if j >= |xs| {
        assert forall k, l :: After(rows, i + 1, 0, k, l) ==> After(rows, i, j, k, l);
        UntargetedCellUnchanged(f, rows, i + 1, 0, g, r, c);
      } else {
        var (tr, tc) := Target(f, i, j);
        if !(tr >= f.nrows || tc >= f.ncols) && tc >= -f.ncols && tr >= -f.nrows {
          assert After(rows, i, j, i, j);
          assert forall k, l :: After(rows, i, j + 1, k, l) ==> After(rows, i, j, k, l);
          UntargetedCellUnchanged(f, rows, i, j + 1, Put(g, Wrap(tr, f.nrows), Wrap(tc, f.ncols), xs[j]), r, c);
        }
      }
    }
  }

  /** Target `(k, l)` lies in the table, counting negative positions from the end. */
  ghost predicate InTable(f: Frame, k: int, l: int)
  {
    var t := Target(f, k, l);
    -f.nrows <= t.0 < f.nrows && -f.ncols <= t.1 < f.ncols
  }

  /**
   * A loop that completes met only iterable rows and only targets inside the table: every
   * other case stops it.
   */
  lemma {:induction false} CompletedStaysInTable(f: Frame, rows: seq<Value>, i: nat, j: nat, g: seq<seq<Value>>)
    requires i <= |rows| && 0 <= f.nrows && 0 <= f.ncols && Shaped(g, f.nrows, f.ncols)
    requires Resume(f, rows, i, j, g).1 == Completed
    ensures forall k :: i < k < |rows| ==> Items(rows[k]).Some?
    ensures i < |rows| ==> Items(rows[i]).Some?
    ensures forall k, l :: After(rows, i, j, k, l) ==> InTable(f, k, l)
    decreases |rows| - i, RowLength(rows, i) - j
  {
    if i < |rows| {
      var xs := Items(rows[i]).value;
      if j >= |xs| {
        CompletedStaysInTable(f, rows, i + 1, 0, g);
      } else {
        var (tr, tc) := Target(f, i, j);
        CompletedStaysInTable(f, rows, i, j + 1, Put(g, Wrap(tr, f.nrows), Wrap(tc, f.ncols), xs[j]));
      }
    }
  }

  /** Every failure other than an index below the table's start comes from a row that is not iterable. */
  lemma {:induction false} NonNegativeStepFailsOnlyOnRows(f: Frame, rows: seq<Value>, i: nat, j: nat, g: seq<seq<Value>>)
    requires i <= |rows| && 0 <= f.nrows && 0 <= f.ncols && Shaped(g, f.nrows, f.ncols)
    requires 0 <= f.startRow && 0 <= f.col && 0 <= f.step
    ensures Resume(f, rows, i, j, g).1.Failed? ==>
      exists k :: i <= k < |rows| && Items(rows[k]).None?
    decreases |rows| - i, RowLength(rows, i) - j
  {
    if i < |rows| && Items(rows[i]).Some? {
      var xs := Items(rows[i]).value;
      if j >= |xs| {
        NonNegativeStepFailsOnlyOnRows(f, rows, i + 1, 0, g);
      } else {
        var (tr, tc) := Target(f, i, j);
        MulNonNegative(i, f.step);
        MulNonNegative(j, f.step);
        if !(tr >= f.nrows || tc >= f.ncols) {
          NonNegativeStepFailsOnlyOnRows(f, rows, i, j + 1, Put(g, tr, tc, xs[j]));
        }
      }
    }
  }

  /** With a positive stride, distinct elements target distinct cells. */
  lemma TargetsDistinct(f: Frame, i: int, j: int, k: int, l: int)
    requires 0 < f.step && (i != k || j != l)
    ensures Target(f, i, j) != Target(f, k, l)
  {
    if i != k {
      StrideSeparates(i, k, f.step);
    } else {
      StrideSeparates(j, l, f.step);
    }
  }

  /**
   * With a positive stride from a non-negative start, no element after `(i, j)` writes the
   * cell that `(i, j)` targets.
   */
  lemma NoLaterHit(f: Frame, rows: seq<Value>, i: nat, j: nat)
    requires 0 <= f.startRow && 0 <= f.col && 0 < f.step
    ensures !Hits(f, rows, i, j + 1, Target(f, i, j).0, Target(f, i, j).1)
  {
    forall k, l | After(rows, i, j + 1, k, l)
      ensures Wrap(Target(f, k, l).0, f.nrows) == Target(f, k, l).0
      ensures Wrap(Target(f, k, l).1, f.ncols) == Target(f, k, l).1
      ensures Target(f, k, l) != Target(f, i, j)
    {
      TargetsDistinct(f, i, j, k, l);
    }
  }

  lemma MulNonNegative(x: nat, s: nat)
    ensures x * s >= 0
  {
  }

  /** With a positive stride, distinct elements target distinct cells. */
  lemma {:induction false} StrideSeparates(a: int, b: int, s: int)
    requires s > 0 && a != b
    ensures a * s != b * s
  {
    if a < b {
      MulAtLeastOne(b - a, s);
      assert b * s - a * s == (b - a) * s;
    } else {
      MulAtLeastOne(a - b, s);
      assert a * s - b * s == (a - b) * s;
    }
  }

  lemma {:induction false} MulAtLeastOne(x: int, s: int)
    requires x >= 1 && s >= 1
    ensures x * s >= 1
    decreases x
  {
    if x > 1 {
      MulAtLeastOne(x - 1, s);
      assert x * s == (x - 1) * s + s;
    }
  }

  /**
   * With a positive stride from a start inside the table, a completed write leaves every
   * element of the rows in the cell it targets: no later write lands on an earlier one.
   */
  lemma {:induction false} WrittenCellsHoldValues(f: Frame, rows: seq<Value>, i: nat, j: nat,
                                                  g: seq<seq<Value>>, k: int, l: int)
    requires i <= |rows| && 0 <= f.nrows && 0 <= f.ncols && Shaped(g, f.nrows, f.ncols)
    requires 0 <= f.startRow && 0 <= f.col && 0 < f.step
    requires Resume(f, rows, i, j, g).1 == Completed && After(rows, i, j, k, l)
    ensures var t := Target(f, k, l);
      && 0 <= t.0 < f.nrows && 0 <= t.1 < f.ncols
      && Resume(f, rows, i, j, g).0[t.0][t.1] == Items(rows[k]).value[l]
  {
    CompletedStaysInTable(f, rows, i, j, g);
    WrittenUpToHoldValues(f, rows, i, j, g, k, l);
  }

  /** Element `(m, n)` is visited from `(i, j)` on and before element `(k, l)`. */
  ghost predicate Precedes(rows: seq<Value>, i: int, j: int, k: int, l: int, m: int, n: int)
  {
    After(rows, i, j, m, n) && (m < k || (m == k && n < l))
  }

  /**
   * With a positive stride from a non-negative start, an element whose target and every
   * earlier target lie in the table, over iterable rows, is left in the cell it targets,
   * whatever the loop does afterwards.
   */
  lemma {:induction false} WrittenUpToHoldValues(f: Frame, rows: seq<Value>, i: nat, j: nat,
                                                 g: seq<seq<Value>>, k: int, l: int)
    requires i <= |rows| && 0 <= f.nrows && 0 <= f.ncols && Shaped(g, f.nrows, f.ncols)
    requires 0 <= f.startRow && 0 <= f.col && 0 < f.step
    requires After(rows, i, j, k, l) && InTable(f, k, l)
    requires forall m, n :: Precedes(rows, i, j, k, l, m, n) ==> InTable(f, m, n)
    requires forall m :: i <= m < k ==> Items(rows[m]).Some?
    ensures var t := Target(f, k, l);
      && 0 <= t.0 < f.nrows && 0 <= t.1 < f.ncols
      && Resume(f, rows, i, j, g).0[t.0][t.1] == Items(rows[k]).value[l]
    decreases |rows| - i, RowLength(rows, i) - j
  {
    var xs := Items(rows[i]).value;
    if j >= |xs| {
      assert forall m, n :: Precedes(rows, i + 1, 0, k, l, m, n) ==> Precedes(rows, i, j, k, l, m, n);
      WrittenUpToHoldValues(f, rows, i + 1, 0, g, k, l);
    } else {
      var (tr, tc) := Target(f, i, j);
      assert (k == i && l == j) || Precedes(rows, i, j, k, l, i, j);
      var h := Put(g, tr, tc, xs[j]);
      assert Resume(f, rows, i, j, g) == Resume(f, rows, i, j + 1, h);
      if k == i && l == j {
        NoLaterHit(f, rows, i, j);
        UntargetedCellUnchanged(f, rows, i, j + 1, h, tr, tc);
      } else {
        assert forall m, n :: Precedes(rows, i, j + 1, k, l, m, n) ==> Precedes(rows, i, j, k, l, m, n);
        WrittenUpToHoldValues(f, rows, i, j + 1, h, k, l);
      }
    }
  }

  /**
   * Element `(k, l)` is the first from `(i, j)` on, in row-major order, whose target lies
   * outside the table: every row before it is iterable and every earlier target lies inside.
   */
  ghost predicate FirstOutOfRange(f: Frame, rows: seq<Value>, i: nat, j: nat, k: int, l: int)
  {
    && After(rows, i, j, k, l) && !InTable(f, k, l)
    && (forall m, n :: Precedes(rows, i, j, k, l, m, n) ==> InTable(f, m, n))
    && (forall m :: i <= m < k ==> Items(rows[m]).Some?)
  }

  /**
   * With a non-negative stride from a non-negative start, the loop stops at the first element
   * whose target lies past the table, reporting that target. With a positive stride every
   * element before it holds its value in the table.
   */
  lemma {:induction false} StopsAtFirstOutOfRange(f: Frame, rows: seq<Value>, i: nat, j: nat,
                                                  g: seq<seq<Value>>, k: int, l: int)
    requires i <= |rows| && 0 <= f.nrows && 0 <= f.ncols && Shaped(g, f.nrows, f.ncols)
    requires 0 <= f.startRow && 0 <= f.col && 0 <= f.step
    requires FirstOutOfRange(f, rows, i, j, k, l)
    ensures Resume(f, rows, i, j, g).1 == OutOfBounds(Target(f, k, l).0, Target(f, k, l).1)
    decreases |rows| - i, RowLength(rows, i) - j
  {
    var xs := Items(rows[i]).value;
    if j >= |xs| {
      assert forall m, n :: Precedes(rows, i + 1, 0, k, l, m, n) ==> Precedes(rows, i, j, k, l, m, n);
      StopsAtFirstOutOfRange(f, rows, i + 1, 0, g, k, l);
    } else if k != i || l != j {
      assert Precedes(rows, i, j, k, l, i, j);
      var (tr, tc) := Target(f, i, j);
      var h := Put(g, tr, tc, xs[j]);
      assert Resume(f, rows, i, j, g) == Resume(f, rows, i, j + 1, h);
      assert forall m, n :: Precedes(rows, i, j + 1, k, l, m, n) ==> Precedes(rows, i, j, k, l, m, n);
      StopsAtFirstOutOfRange(f, rows, i, j + 1, h, k, l);
    }
  }

  /** The first out-of-range element after the end of row `i` is the first from any `(i, j)` past that end. */
  lemma FirstOutOfRangeInNextRow(f: Frame, rows: seq<Value>, i: nat, j: nat, k: int, l: int)
    requires i < |rows| && Items(rows[i]).Some? && j >= |Items(rows[i]).value|
    requires FirstOutOfRange(f, rows, i + 1, 0, k, l)
    ensures FirstOutOfRange(f, rows, i, j, k, l)
  {
    assert forall m, n :: Precedes(rows, i, j, k, l, m, n) ==> Precedes(rows, i + 1, 0, k, l, m, n);
  }

  /** An element whose target lies in the table does not change which later element is the first out of range. */
  lemma FirstOutOfRangeAfterNext(f: Frame, rows: seq<Value>, i: nat, j: nat, k: int, l: int)
    requires After(rows, i, j, i, j) && InTable(f, i, j)
    requires FirstOutOfRange(f, rows, i, j + 1, k, l)
    ensures FirstOutOfRange(f, rows, i, j, k, l)
  {
    assert forall m, n :: Precedes(rows, i, j, k, l, m, n) ==>
      (m == i && n == j) || Precedes(rows, i, j + 1, k, l, m, n);
  }

  /**
   * Whatever the stride, a loop that stops on a target past the table reports the target of
   * the first element whose target lies outside it.
   */
  lemma {:induction false} OutOfBoundsIsFirstOutOfRange(f: Frame, rows: seq<Value>, i: nat, j: nat,
                                                        g: seq<seq<Value>>)
    requires i <= |rows| && 0 <= f.nrows && 0 <= f.ncols && Shaped(g, f.nrows, f.ncols)
    requires Resume(f, rows, i, j, g).1.OutOfBounds?
    ensures var stop := Resume(f, rows, i, j, g).1;
      exists k, l :: FirstOutOfRange(f, rows, i, j, k, l) && Target(f, k, l) == (stop.r, stop.c)
    decreases |rows| - i, RowLength(rows, i) - j
  {
    var stop := Resume(f, rows, i, j, g).1;
    var xs := Items(rows[i]).value;
    if j >= |xs| {
      assert Resume(f, rows, i, j, g) == Resume(f, rows, i + 1, 0, g);
      OutOfBoundsIsFirstOutOfRange(f, rows, i + 1, 0, g);
      var k, l :| FirstOutOfRange(f, rows, i + 1, 0, k, l) && Target(f, k, l) == (stop.r, stop.c);
      FirstOutOfRangeInNextRow(f, rows, i, j, k, l);
    } else {
      var (tr, tc) := Target(f, i, j);
      if tr >= f.nrows || tc >= f.ncols {
        assert FirstOutOfRange(f, rows, i, j, i, j);
      } else {
        var h := Put(g, Wrap(tr, f.nrows), Wrap(tc, f.ncols), xs[j]);
        assert Resume(f, rows, i, j, g) == Resume(f, rows, i, j + 1, h);
        OutOfBoundsIsFirstOutOfRange(f, rows, i, j + 1, h);
        var k, l :| FirstOutOfRange(f, rows, i, j + 1, k, l) && Target(f, k, l) == (stop.r, stop.c);
        FirstOutOfRangeAfterNext(f, rows, i, j, k, l);
      }
    }
  }

  /** The writes made before the first out-of-range target are kept when the loop stops there. */
  lemma EarlierWritesKept(f: Frame, rows: seq<Value>, g: seq<seq<Value>>, k: int, l: int)
    requires 0 <= f.nrows && 0 <= f.ncols && Shaped(g, f.nrows, f.ncols)
    requires 0 <= f.startRow && 0 <= f.col && 0 < f.step
    requires FirstOutOfRange(f, rows, 0, 0, k, l)
    ensures Resume(f, rows, 0, 0, g).1 == OutOfBounds(Target(f, k, l).0, Target(f, k, l).1)
    ensures forall m, n :: Precedes(rows, 0, 0, k, l, m, n) ==>
      var t := Target(f, m, n);
      && 0 <= t.0 < f.nrows && 0 <= t.1 < f.ncols
      && Resume(f, rows, 0, 0, g).0[t.0][t.1] == Items(rows[m]).value[n]
  {
    StopsAtFirstOutOfRange(f, rows, 0, 0, g, k, l);
    forall m, n | Precedes(rows, 0, 0, k, l, m, n)
      ensures var t := Target(f, m, n);
        && 0 <= t.0 < f.nrows && 0 <= t.1 < f.ncols
        && Resume(f, rows, 0, 0, g).0[t.0][t.1] == Items(rows[m]).value[n]
    {
      assert forall m', n' :: Precedes(rows, 0, 0, m, n, m', n') ==> Precedes(rows, 0, 0, k, l, m', n');
      WrittenUpToHoldValues(f, rows, 0, 0, g, m, n);
    }
  }

  /**
   * With a positive stride from a non-negative start, a loop that stops on a target past the
   * table stops at the first element whose target lies outside it, and every element before
   * that one holds its value in the cell it targets.
   */
  lemma OutOfBoundsKeepsEarlierWrites(f: Frame, rows: seq<Value>, g: seq<seq<Value>>)
    requires 0 <= f.nrows && 0 <= f.ncols && Shaped(g, f.nrows, f.ncols)
    requires 0 <= f.startRow && 0 <= f.col && 0 < f.step
    requires Resume(f, rows, 0, 0, g).1.OutOfBounds?
    ensures var res := Resume(f, rows, 0, 0, g);
      exists k, l :: FirstOutOfRange(f, rows, 0, 0, k, l) && Target(f, k, l) == (res.1.r, res.1.c)
        && forall m, n :: Precedes(rows, 0, 0, k, l, m, n) ==>
             var t := Target(f, m, n);
             && 0 <= t.0 < f.nrows && 0 <= t.1 < f.ncols
             && res.0[t.0][t.1] == Items(rows[m]).value[n]
  {
    var res := Resume(f, rows, 0, 0, g);
    OutOfBoundsIsFirstOutOfRange(f, rows, 0, 0, g);
    var k, l :| FirstOutOfRange(f, rows, 0, 0, k, l) && Target(f, k, l) == (res.1.r, res.1.c);
    EarlierWritesKept(f, rows, g, k, l);
  }

  /** The one-row write of a flat list and its one-value-per-row write by column reach the same stop. */
  lemma {:induction false} FlatRowMatchesColumn(f: Frame, xs: seq<Value>, j: nat, g: seq<seq<Value>>)
    requires f.axis == RowAxis && Flat(xs) && j <= |xs|
    requires 0 <= f.nrows && 0 <= f.ncols && Shaped(g, f.nrows, f.ncols)
    ensures Resume(f, [VList(xs)], 0, j, g)
         == Resume(f.(axis := ColumnAxis), Normalize(VList(xs), ColumnAxis), j, 0, g)
    decreases |xs| - j
  {
    var fc := f.(axis := ColumnAxis);
    var cols := Normalize(VList(xs), ColumnAxis);
    if j < |xs| {
      assert Items(cols[j]) == Some([xs[j]]);
      assert Target(f, 0, j) == Target(fc, j, 0);
      var (tr, tc) := Target(f, 0, j);
      if !(tr >= f.nrows || tc >= f.ncols) && tc >= -f.ncols && tr >= -f.nrows {
        var h := Put(g, Wrap(tr, f.nrows), Wrap(tc, f.ncols), xs[j]);
        FlatRowMatchesColumn(f, xs, j + 1, h);
        assert Resume(fc, cols, j, 1, h) == Resume(fc, cols, j + 1, 0, h);
      }
    }
  }

  /**
   * A flat list written along `row` or along `column` fills the same cells with the same values
   * and reports the same stop: `column` does not turn a flat list vertical.
   */
  lemma FlatListIgnoresAxis(f: Frame, xs: seq<Value>, g: seq<seq<Value>>)
    requires f.axis == RowAxis && Flat(xs)
    requires 0 <= f.nrows && 0 <= f.ncols && Shaped(g, f.nrows, f.ncols)
    ensures Resume(f, Normalize(VList(xs), RowAxis), 0, 0, g)
         == Resume(f.(axis := ColumnAxis), Normalize(VList(xs), ColumnAxis), 0, 0, g)
  {
    FlatRowMatchesColumn(f, xs, 0, g);
  }

  /**
   * Only upper bounds are checked: with a negative stride the second value of a row wraps to
   * the row's last cell instead of being refused.
   */
  lemma NegativeStepWraps(g: seq<seq<Value>>, x: Value, y: Value)
    requires Shaped(g, 3, 3)
    ensures var res := Resume(Frame(3, 3, 0, 0, -1, RowAxis), [VList([x, y])], 0, 0, g);
      res.1 == Completed && res.0[0][0] == x && res.0[0][2] == y && res.0[1] == g[1]
  {
    var f := Frame(3, 3, 0, 0, -1, RowAxis);
    var rows := [VList([x, y])];
    var g1 := Put(g, 0, 0, x);
    var g2 := Put(g1, 0, 2, y);
    assert Target(f, 0, 1) == (0, -1);
    assert Resume(f, rows, 0, 0, g) == Resume(f, rows, 0, 1, g1);
    assert Resume(f, rows, 0, 1, g1) == Resume(f, rows, 0, 2, g2);
    assert Resume(f, rows, 0, 2, g2) == (g2, Completed);
  }

  /** A scalar under `matrix` becomes `[[v]]`: exactly the start cell is written. */
  lemma ScalarMatrixWritesStartCell(f: Frame, v: Value, g: seq<seq<Value>>)
    requires f.axis == MatrixAxis && !v.VList?
    requires 0 <= f.startRow < f.nrows && 0 <= f.col < f.ncols && Shaped(g, f.nrows, f.ncols)
    ensures Resume(f, Normalize(v, MatrixAxis), 0, 0, g) == (Put(g, f.startRow, f.col, v), Completed)
  {
    var rows := Normalize(v, MatrixAxis);
    var h := Put(g, f.startRow, f.col, v);
    assert Items(rows[0]) == Some([v]);
    assert Resume(f, rows, 0, 0, g) == Resume(f, rows, 0, 1, h);
  }

  /** A scalar that cannot be iterated, under `row` or `column`, raises before any write. */
  lemma ScalarRowIsNotIterable(f: Frame, v: Value, g: seq<seq<Value>>)
    requires f.axis != MatrixAxis && !v.VList? && Items(v).None?
    requires 0 <= f.nrows && 0 <= f.ncols && Shaped(g, f.nrows, f.ncols)
    ensures Resume(f, Normalize(v, f.axis), 0, 0, g) == (g, Failed(NotIterableMessage(v)))
  {
  }

  /** What the pre-write checks decide: stop with an outcome, or write these rows in this frame. */
  datatype Checked = Stopped(outcome: ToolOutcome) | Proceed(frame: Frame, rows: seq<Value>)

  const NoValueMessage: string := "No value provided for writing."

  /** The text a non-integer column location prints as (a slice, or a mask of the matches). */
  function LocationText(ncols: int, indices: seq<nat>): string
  {
    if |indices| > 0 && forall k :: 0 <= k < |indices| ==> indices[k] == indices[0] + k then
      "slice(" + IntToString(indices[0]) + ", " + IntToString(indices[0] + |indices|) + ", None)"
    else
      "[" + Join(" ", seq(if ncols < 0 then 0 else ncols, k requires 0 <= k < ncols =>
                            if k in indices then "True" else "False")) + "]"
  }

  function InvalidColumnMessage(startCol: Value, resolved: string): string
  {
    "Invalid start_col: '" + Show(startCol) + "' resolved to index " + resolved + ", which is out of range."
  }

  /**
   * The checks before any write, in the tool's order: values present, axis accepted, table
   * registered, start column resolved to an integer inside the table, start row inside it.
   * A column string that cannot be resolved raises out of the tool.
   */
  function Check(dataframes: map<string, RegistryEntry>, dfName: string, startRow: int,
                 startCol: Value, step: int, values: Value, axis: Value): (r: Checked)
    ensures values.VNone? ==> r == Stopped(Returned(VStr(NoValueMessage)))
    ensures !values.VNone? && ParseAxis(axis).None? ==>
      r == Stopped(Returned(VStr("Invalid axis '" + Show(axis) + "'. Must be one of 'row', 'column', or 'matrix'.")))
    ensures !values.VNone? && ParseAxis(axis).Some? && dfName !in dataframes ==>
      r == Stopped(Returned(VStr("DataFrame Object '" + dfName + "' not found.")))
    ensures r.Proceed? ==>
      var df := dataframes[dfName].dataframe;
      && !values.VNone? && ParseAxis(axis).Some? && dfName in dataframes
      && r.frame == Frame(df.cells.Length0, df.cells.Length1, startRow, r.frame.col, step, ParseAxis(axis).value)
      && 0 <= r.frame.col < df.cells.Length1 && 0 <= startRow < df.cells.Length0
      && r.rows == Normalize(values, ParseAxis(axis).value)
    ensures r.Proceed? && startCol.VInt? ==> r.frame.col == startCol.i
    ensures r.Stopped? && r.outcome.Raised? ==>
      startCol.VStr? && ColToColIdx(dataframes[dfName].dataframe.columns, startCol).Err?
  {
    if values.VNone? then Stopped(Returned(VStr(NoValueMessage)))
    else if ParseAxis(axis).None? then
      Stopped(Returned(VStr("Invalid axis '" + Show(axis) + "'. Must be one of 'row', 'column', or 'matrix'.")))
    else if dfName !in dataframes then Stopped(Returned(VStr("DataFrame Object '" + dfName + "' not found.")))
    else
      var df := dataframes[dfName].dataframe;
      var nrows, ncols := df.cells.Length0, df.cells.Length1;
      var col: Result<Option<int>> :=
        match startCol
        case VStr(_) =>
          (match ColToColIdx(df.columns, startCol)
           case Err(e) => Err(e)
           case Ok(Position(k)) => Ok(Some(k))
           case Ok(Positions(_)) => Ok(None))
        case VInt(k) => Ok(Some(k))
        case VBool(b) => Ok(Some(if b then 1 else 0))
        case _ => Ok(None);
      if col.Err? then Stopped(Raised(col.error))
      else if col.value.None? || col.value.value < 0 || col.value.value >= ncols then
        var resolved :=
          if col.value.Some? then IntToString(col.value.value)
          else if startCol.VStr? && ColToColIdx(df.columns, startCol).Ok?
                  && ColToColIdx(df.columns, startCol).value.Positions? then
            LocationText(ncols, ColToColIdx(df.columns, startCol).value.indices)
          else Show(startCol);
        Stopped(Returned(VStr(InvalidColumnMessage(startCol, resolved))))
      else if startRow < 0 || startRow >= nrows then
        Stopped(Returned(VStr("Start row " + IntToString(startRow) + " is out of range.")))
      else
        var a := ParseAxis(axis).value;
        Proceed(Frame(nrows, ncols, startRow, col.value.value, step, a), Normalize(values, a))
  }

  /** The message the tool returns when the write loop stops as `stop`. */
  function StopMessage(f: Frame, rows: seq<Value>, dfName: string, startCol: Value, stop: Stop): string
  {
    match stop
    case Completed =>
      "DataFrame '" + dfName + "' updated with " + IntToString(|rows|) + " values, rows starting at row "
      + IntToString(f.startRow) + ", cols starting at col " + Show(startCol) + ", step "
      + IntToString(f.step) + ", axis '" + AxisName(f.axis) + "'."
    case OutOfBounds(r, c) =>
      "Writing out of bounds: row " + IntToString(r) + " or column " + IntToString(c)
      + " exceeds DataFrame dimensions (" + IntToString(f.nrows) + ", " + IntToString(f.ncols) + ")."
    case Failed(e) => "Error writing to DataFrame '" + dfName + "': " + e
  }

  /** `df.iat[r, c] = v`: one cell of the table set in place, every other cell kept. */
  method WriteCell(a: array2<Value>, r: int, c: int, v: Value)
    requires 0 <= r < a.Length0 && 0 <= c < a.Length1
    modifies a
    ensures Grid(a) == Put(old(Grid(a)), r, c, v)
  {
    a[r, c] := v;
    SameCells(Grid(a), Put(old(Grid(a)), r, c, v));
  }

  /**
   * The write loop of `write_dataframe_tool`, in place on the table's cells: the table ends as
   * `Resume` describes, and the loop stops as it does.
   */
  method WriteLoop(a: array2<Value>, f: Frame, rows: seq<Value>) returns (stop: Stop)
    requires f.nrows == a.Length0 && f.ncols == a.Length1
    modifies a
    ensures (Grid(a), stop) == Resume(f, rows, 0, 0, old(Grid(a)))
  {
    ghost var final := Resume(f, rows, 0, 0, Grid(a));
    var i := 0;
    while i < |rows|
      invariant 0 <= i <= |rows|
      invariant Resume(f, rows, i, 0, Grid(a)) == final
    {
      var items := Items(rows[i]);
      if items.None? {
        return Failed(NotIterableMessage(rows[i]));
      }
      var xs := items.value;
      var j := 0;
      while j < |xs|
        invariant 0 <= j <= |xs|
        invariant Resume(f, rows, i, j, Grid(a)) == final
      {
        var (r, c) := Target(f, i, j);
        if r >= f.nrows || c >= f.ncols {
          return OutOfBounds(r, c);
        }
        if c < -f.ncols {
          return Failed(IndexMessage(c, f.ncols));
        }
        if r < -f.nrows {
          return Failed(IndexMessage(r, f.nrows));
        }
        WriteCell(a, Wrap(r, f.nrows), Wrap(c, f.ncols), xs[j]);
        j := j + 1;
      }
      i := i + 1;
    }
    stop := Completed;
  }

  /**
   * `write_dataframe_tool`. The checks either stop it with the table unchanged, or it runs the
   * write loop in place: the table ends as `Resume` describes and the message reports its stop.
   */
  method WriteDataframeTool(dataframes: map<string, RegistryEntry>, dfName: string, startRow: int,
                            startCol: Value, step: int, values: Value, axis: Value)
    returns (outcome: ToolOutcome)
    requires WellShaped(dataframes)
    modifies if dfName in dataframes then {dataframes[dfName].dataframe.cells} else {}
    ensures
      var chk := Check(dataframes, dfName, startRow, startCol, step, values, axis);
      if chk.Stopped? then outcome == chk.outcome
      else
        var a := dataframes[dfName].dataframe.cells;
        var res := Resume(chk.frame, chk.rows, 0, 0, old(Grid(a)));
        Grid(a) == res.0 && outcome == Returned(VStr(StopMessage(chk.frame, chk.rows, dfName, startCol, res.1)))
    ensures Check(dataframes, dfName, startRow, startCol, step, values, axis).Stopped? && dfName in dataframes ==>
      Grid(dataframes[dfName].dataframe.cells) == old(Grid(dataframes[dfName].dataframe.cells))
  {
    var chk := Check(dataframes, dfName, startRow, startCol, step, values, axis);
    if chk.Stopped? {
      return chk.outcome;
    }
    var stop := WriteLoop(dataframes[dfName].dataframe.cells, chk.frame, chk.rows);
    outcome := Returned(VStr(StopMessage(chk.frame, chk.rows, dfName, startCol, stop)));
  }
}
