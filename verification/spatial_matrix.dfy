/**
 * spatial_matrix<T>: a uniform grid of square cells laid over a field of
 * width fieldWidth and height fieldHeight. Cells are stored row-major in one
 * sequence; each cell lists (non-owning) references in insertion order.
 *
 * The grid is `w` cells wide and `h` cells high with w = trunc(fieldWidth /
 * cellRadius) + 1 and h = trunc(fieldHeight / cellRadius) + 1, and it keeps
 * w * h + 1 cells (the last one is never addressed by an in-field point).
 */
module SpatialMatrices {
  import opened Vectors
  import opened Options

  /** The grid parameters: cell size, field size and the derived cell counts. */
  datatype Layout = Layout(cellRadius: real, fieldWidth: real, fieldHeight: real, w: int, h: int) {
    ghost predicate Valid() {
      && cellRadius > 0.0 && fieldWidth >= 0.0 && fieldHeight >= 0.0
      && w == Trunc(fieldWidth / cellRadius) + 1
      && h == Trunc(fieldHeight / cellRadius) + 1
    }

    /** A position inside the field, borders included. */
    predicate Contains(p: Vec) {
      0.0 <= p.x <= fieldWidth && 0.0 <= p.y <= fieldHeight
    }
  }

  /** Columns [x0, x1) and rows [y0, y1) of cells; empty when x1 <= x0 or y1 <= y0. */
  datatype Box = Box(x0: int, x1: int, y0: int, y1: int) {
    /** The box addresses only cells of the grid. */
    ghost predicate Within(l: Layout) {
      0 <= x0 && (x0 < x1 ==> x1 <= l.w) && 0 <= y0 && (y0 < y1 ==> y1 <= l.h)
    }
  }

  /** n empty cells. */
  /** A sized layout has at least one column and one row, so at least two cells. */
  lemma CellCountPositive(l: Layout)
    ensures l.Valid() ==> l.w >= 1 && l.h >= 1 && l.w * l.h + 1 >= 2
  {
    if l.Valid() {
      assert l.w * l.h >= l.w * 1 by {
        assert l.w * (l.h - 1) >= 0;
      }
    }
  }

  function Empty<T>(n: nat): (cells: seq<seq<T>>)
    ensures |cells| == n && forall i :: 0 <= i < n ==> cells[i] == []
  {
    seq(n, _ => [])
  }

  /** Every element of every cell, cell after cell, in insertion order inside a cell. */
  function Flatten<T>(cells: seq<seq<T>>): seq<T>
  {
    if cells == [] then [] else Flatten(cells[..|cells| - 1]) + cells[|cells| - 1]
  }

  lemma {:induction false} FlattenEmpty<T>(n: nat)
    ensures Flatten(Empty<T>(n)) == []
  {
    if n > 0 {
      assert Empty<T>(n)[..n - 1] == Empty<T>(n - 1);
      FlattenEmpty<T>(n - 1);
    }
  }

  /** The cell at column x and row y sits at index x + y * w, below w * h. */
  lemma CellIndexBounds(x: int, y: int, w: int, h: int)
    requires 0 <= x < w && 0 <= y < h
    ensures 0 <= x + y * w < w * h
  {
    assert y * w <= (h - 1) * w by {
      assert (h - 1 - y) * w >= 0;
      assert (h - 1 - y) * w == (h - 1) * w - y * w;
    }
    assert (h - 1) * w == w * h - w;
  }

  lemma MulAtLeast(a: int, w: int)
    requires a >= 1 && w >= 0
    ensures a * w >= w
  {
    var b := a - 1;
    assert b * w >= 0;
    assert a * w == b * w + w;
  }

  /** A cell of a lower row has a larger index than any cell of a higher row. */
  lemma RowsApart(x: int, y: int, x': int, y': int, w: int)
    requires 0 <= x < w && 0 <= x' < w && y < y'
    ensures x + y * w < x' + y' * w
  {
    var a := y' - y;
    MulAtLeast(a, w);
    assert y' * w == y * w + a * w;
  }

  /** Distinct (column, row) pairs inside the grid address distinct cells. */
  lemma CellIndexInjective(x: int, y: int, x': int, y': int, w: int)
    requires 0 <= x < w && 0 <= x' < w
    requires x + y * w == x' + y' * w
    ensures x == x' && y == y'
  {
    if y < y' {
      RowsApart(x, y, x', y', w);
    } else if y' < y {
      RowsApart(x', y', x, y, w);
    }
  }

  /** The cell at column x and row y (_get_cell for a cell position). */
  function CellAt<T>(l: Layout, cells: seq<seq<T>>, x: int, y: int): seq<T>
    requires 0 <= x < l.w && 0 <= y < l.h && |cells| == l.w * l.h + 1
  {
    CellIndexBounds(x, y, l.w, l.h);
    cells[x + y * l.w]
  }

  /**
   * _get_index: the cell covering an in-field position. The source does no
   * clamping, so an in-field position is a precondition.
   */
  function CellIndex(l: Layout, p: Vec): (i: int)
    requires l.Valid() && l.Contains(p)
    ensures 0 <= i < l.w * l.h
  {
    var cx := Trunc(p.x / l.cellRadius);
    var cy := Trunc(p.y / l.cellRadius);
    assert 0 <= cx < l.w by {
      DivMonotone(0.0, p.x, l.cellRadius);
      DivMonotone(p.x, l.fieldWidth, l.cellRadius);
    }
    assert 0 <= cy < l.h by {
      DivMonotone(0.0, p.y, l.cellRadius);
      DivMonotone(p.y, l.fieldHeight, l.cellRadius);
    }
    CellIndexBounds(cx, cy, l.w, l.h);
    cx + cy * l.w
  }

  /** The cells after `e` is appended to the cell covering `p` (insert). */
  function Inserted<T>(l: Layout, cells: seq<seq<T>>, p: Vec, e: T): (r: seq<seq<T>>)
    requires l.Valid() && l.Contains(p) && |cells| == l.w * l.h + 1
    ensures |r| == |cells|
  {
    var i := CellIndex(l, p);
    cells[i := cells[i] + [e]]
  }

  /** Appending to one cell adds exactly that element to the grid's contents. */
  lemma {:induction false} FlattenAppend<T>(cells: seq<seq<T>>, i: int, e: T)
    requires 0 <= i < |cells|
    ensures multiset(Flatten(cells[i := cells[i] + [e]])) == multiset(Flatten(cells)) + multiset{e}
    ensures |Flatten(cells[i := cells[i] + [e]])| == |Flatten(cells)| + 1
  {
    var n := |cells|;
    var c' := cells[i := cells[i] + [e]];
    var front := Flatten(cells[..n - 1]);
    assert Flatten(cells) == front + cells[n - 1];
    if i == n - 1 {
      assert c'[..n - 1] == cells[..n - 1];
      assert Flatten(c') == front + (cells[n - 1] + [e]);
    } else {
      var front' := Flatten(cells[..n - 1][i := cells[i] + [e]]);
      assert c'[..n - 1] == cells[..n - 1][i := cells[i] + [e]];
      assert Flatten(c') == front' + cells[n - 1];
      FlattenAppend(cells[..n - 1], i, e);
    }
  }

  /** The elements that a reinsertion visitor puts back, in visiting order. */
  function Kept<T>(xs: seq<T>, reinsert: T -> Option<Vec>): seq<T>
  {
    if xs == [] then []
    else Kept(xs[..|xs| - 1], reinsert) + (if reinsert(xs[|xs| - 1]).Some? then [xs[|xs| - 1]] else [])
  }

  /** Every reinsertion the visitor asks for lands inside the field. */
  ghost predicate ReinsertsInField<T>(l: Layout, xs: seq<T>, reinsert: T -> Option<Vec>) {
    forall k :: 0 <= k < |xs| && reinsert(xs[k]).Some? ==> l.Contains(reinsert(xs[k]).value)
  }

  /**
   * The cells after visiting `xs` in order with a visitor that inserts each
   * visited element back at the position it names (or drops it).
   */
  function Reinserted<T>(l: Layout, cells: seq<seq<T>>, xs: seq<T>, reinsert: T -> Option<Vec>): (r: seq<seq<T>>)
    requires l.Valid() && |cells| == l.w * l.h + 1 && ReinsertsInField(l, xs, reinsert)
    ensures |r| == |cells|
  {
    if xs == [] then cells
    else
      var prev := Reinserted(l, cells, xs[..|xs| - 1], reinsert);
      var e := xs[|xs| - 1];
      match reinsert(e)
      case None => prev
      case Some(p) => Inserted(l, prev, p, e)
  }

  /** A reinsertion pass adds exactly the kept elements to the grid. */
  lemma {:induction false} ReinsertedContents<T>(l: Layout, cells: seq<seq<T>>, xs: seq<T>, reinsert: T -> Option<Vec>)
    requires l.Valid() && |cells| == l.w * l.h + 1 && ReinsertsInField(l, xs, reinsert)
    ensures multiset(Flatten(Reinserted(l, cells, xs, reinsert))) == multiset(Flatten(cells)) + multiset(Kept(xs, reinsert))
  {
    if xs != [] {
      var xs' := xs[..|xs| - 1];
      var e := xs[|xs| - 1];
      ReinsertedContents(l, cells, xs', reinsert);
      match reinsert(e)
      case None =>
      case Some(p) =>
        FlattenAppend(Reinserted(l, cells, xs', reinsert), CellIndex(l, p), e);
    }
  }

  /**
   * Grid consistency: starting from empty cells, after the pass an element
   * sits in a cell exactly when it was visited, the visitor reinserted it,
   * and the cell is the one covering the position it was reinserted at.
   */
  lemma {:induction false} ReinsertedPlacement<T>(l: Layout, n: nat, xs: seq<T>, reinsert: T -> Option<Vec>, e: T, i: int)
    requires l.Valid() && n == l.w * l.h + 1 && ReinsertsInField(l, xs, reinsert)
    requires 0 <= i < n
    ensures e in Reinserted(l, Empty(n), xs, reinsert)[i]
        <==> e in xs && reinsert(e).Some? && l.Contains(reinsert(e).value) && i == CellIndex(l, reinsert(e).value)
  {
    if xs != [] {
      var xs' := xs[..|xs| - 1];
      var last := xs[|xs| - 1];
      assert xs == xs' + [last];
      ReinsertedPlacement(l, n, xs', reinsert, e, i);
    }
  }

  /** One row of the scan: columns [x0, x1) of row y, left to right. */
  function RowScan<T>(l: Layout, cells: seq<seq<T>>, y: int, x0: int, x1: int): seq<T>
    requires 0 <= x0 && (x0 < x1 ==> x1 <= l.w && 0 <= y < l.h) && |cells| == l.w * l.h + 1
    decreases x1 - x0
  {
    if x1 <= x0 then [] else RowScan(l, cells, y, x0, x1 - 1) + CellAt(l, cells, x1 - 1, y)
  }

  /** The scan of a box: rows top to bottom, each row left to right. */
  function BoxScan<T>(l: Layout, cells: seq<seq<T>>, b: Box): seq<T>
    requires b.Within(l) && |cells| == l.w * l.h + 1
    decreases b.y1 - b.y0
  {
    if b.y1 <= b.y0 then [] else BoxScan(l, cells, b.(y1 := b.y1 - 1)) + RowScan(l, cells, b.y1 - 1, b.x0, b.x1)
  }

  lemma {:induction false} RowScanMembership<T>(l: Layout, cells: seq<seq<T>>, y: int, x0: int, x1: int, e: T)
    requires 0 <= x0 && (x0 < x1 ==> x1 <= l.w && 0 <= y < l.h) && |cells| == l.w * l.h + 1
    ensures e in RowScan(l, cells, y, x0, x1) <==> exists x :: x0 <= x < x1 && e in CellAt(l, cells, x, y)
    decreases x1 - x0
  {
    if x1 > x0 {
      RowScanMembership(l, cells, y, x0, x1 - 1, e);
    }
  }

  /** An element is scanned exactly when it lies in a cell of the box. */
  lemma {:induction false} BoxScanMembership<T>(l: Layout, cells: seq<seq<T>>, b: Box, e: T)
    requires b.Within(l) && |cells| == l.w * l.h + 1
    ensures e in BoxScan(l, cells, b)
        <==> exists x, y :: b.x0 <= x < b.x1 && b.y0 <= y < b.y1 && e in CellAt(l, cells, x, y)
    decreases b.y1 - b.y0
  {
    if b.y1 > b.y0 {
      var b' := b.(y1 := b.y1 - 1);
      var row := b.y1 - 1;
      BoxScanMembership(l, cells, b', e);
      RowScanMembership(l, cells, row, b.x0, b.x1, e);
      assert BoxScan(l, cells, b) == BoxScan(l, cells, b') + RowScan(l, cells, row, b.x0, b.x1);
      if e in BoxScan(l, cells, b) {
        if e in BoxScan(l, cells, b') {
          var x, y :| b'.x0 <= x < b'.x1 && b'.y0 <= y < b'.y1 && e in CellAt(l, cells, x, y);
          assert b.x0 <= x < b.x1 && b.y0 <= y < b.y1;
        } else {
          var x :| b.x0 <= x < b.x1 && e in CellAt(l, cells, x, row);
          assert b.x0 <= x < b.x1 && b.y0 <= row < b.y1;
        }
      }
      if exists x, y :: b.x0 <= x < b.x1 && b.y0 <= y < b.y1 && e in CellAt(l, cells, x, y) {
        var x, y :| b.x0 <= x < b.x1 && b.y0 <= y < b.y1 && e in CellAt(l, cells, x, y);
        if y < row {
          assert b'.x0 <= x < b'.x1 && b'.y0 <= y < b'.y1;
        } else {
          assert y == row;
        }
      }
    }
  }

  /**
   * The box apply_to_radius scans around `pos`: d = trunc(2r / c) + 1 cells
   * from the cell of (pos - r), clipped to the grid.
   */
  function RadiusBox(l: Layout, pos: Vec, radius: real): (b: Box)
    requires l.Valid() && radius >= 0.0
    ensures b.Within(l)
  {
    var d := Trunc((radius + radius) / l.cellRadius) + 1;
    var cx := Trunc((pos.x - radius) / l.cellRadius);
    var cy := Trunc((pos.y - radius) / l.cellRadius);
    Box(Max(cx, 0), Min(cx + d, l.w), Max(cy, 0), Min(cy + d, l.h))
  }

  /**
   * The box apply_to_radius evidently means to scan: from the cell of
   * (pos - r) to the cell of (pos + r), both included, clipped to the grid.
   */
  function CoveringBox(l: Layout, pos: Vec, radius: real): (b: Box)
    requires l.Valid() && radius >= 0.0
    ensures b.Within(l)
  {
    var cx := Trunc((pos.x - radius) / l.cellRadius);
    var cy := Trunc((pos.y - radius) / l.cellRadius);
    var ex := Trunc((pos.x + radius) / l.cellRadius) + 1;
    var ey := Trunc((pos.y + radius) / l.cellRadius) + 1;
    Box(Max(cx, 0), Min(ex, l.w), Max(cy, 0), Min(ey, l.h))
  }

  /** The floor is monotone. */
  lemma FloorMonotone(a: real, b: real)
    requires a <= b
    ensures a.Floor <= b.Floor
  {
    assert a.Floor as real <= a && b < b.Floor as real + 1.0;
  }

  /**
   * The column (or row) of an in-field coordinate q within r of p lies
   * between the column of p - r, raised to 0, and the column of p + r.
   */
  lemma CoveredCoordinate(c: real, p: real, r: real, q: real)
    requires c > 0.0 && 0.0 <= q && p - r <= q <= p + r
    ensures Max(Trunc((p - r) / c), 0) <= Trunc(q / c) <= Trunc((p + r) / c)
  {
    DivMonotone(0.0, q, c);
    DivMonotone(q, p + r, c);
    DivMonotone(p - r, q, c);
    FloorMonotone(q / c, (p + r) / c);
    if p - r >= 0.0 {
      DivMonotone(0.0, p - r, c);
      FloorMonotone((p - r) / c, q / c);
    }
  }

  /**
   * Every in-field point within `radius` of `pos` along both axes (so every
   * point of the disc the visitor is after) lies in a cell of the covering box.
   */
  lemma CoveringBoxCovers(l: Layout, pos: Vec, radius: real, q: Vec)
    requires l.Valid() && radius >= 0.0 && l.Contains(q)
    requires pos.x - radius <= q.x <= pos.x + radius && pos.y - radius <= q.y <= pos.y + radius
    ensures var b := CoveringBox(l, pos, radius);
      var cx, cy := Trunc(q.x / l.cellRadius), Trunc(q.y / l.cellRadius);
      b.x0 <= cx < b.x1 && b.y0 <= cy < b.y1 && CellIndex(l, q) == cx + cy * l.w
  {
    CoveredCoordinate(l.cellRadius, pos.x, radius, q.x);
    CoveredCoordinate(l.cellRadius, pos.y, radius, q.y);
    DivMonotone(q.x, l.fieldWidth, l.cellRadius);
    DivMonotone(q.y, l.fieldHeight, l.cellRadius);
    DivMonotone(0.0, q.x, l.cellRadius);
    DivMonotone(0.0, q.y, l.cellRadius);
    FloorMonotone(q.x / l.cellRadius, l.fieldWidth / l.cellRadius);
    FloorMonotone(q.y / l.cellRadius, l.fieldHeight / l.cellRadius);
  }

  /**
   * The box as written can miss a cell the radius reaches: with unit cells,
   * a point 0.25 to the right of (0.8, 0.8) lies in column 1, but the scan
   * for radius 0.3 starts at column trunc(0.5) = 0 and spans trunc(0.6) + 1
   * = 1 column.
   */
  lemma RadiusBoxMissesNeighbour()
    ensures var l := Layout(1.0, 10.0, 10.0, 11, 11);
      var pos, q := Vec(0.8, 0.8), Vec(1.05, 0.8);
      && l.Valid() && l.Contains(q)
      && (q.x - pos.x) * (q.x - pos.x) + (q.y - pos.y) * (q.y - pos.y) < 0.3 * 0.3
      && var b := RadiusBox(l, pos, 0.3);
      && Trunc(q.x / l.cellRadius) == 1 && !(b.x0 <= 1 < b.x1)
  {
    var l := Layout(1.0, 10.0, 10.0, 11, 11);
    assert (10.0 / 1.0).Floor == 10;
    assert ((0.3 + 0.3) / 1.0).Floor == 0;
    assert ((0.8 - 0.3) / 1.0).Floor == 0;
    assert (1.05 / 1.0).Floor == 1;
  }

  /** A read-only visitor's calls on one cell: its elements in insertion order, after those seen so far. */
  method VisitAll<T>(seen: seq<T>, c: seq<T>) returns (visited: seq<T>)
    ensures visited == seen + c
  {
    visited := seen;
    var k := 0;
    while k < |c|
      invariant 0 <= k <= |c|
      invariant visited == seen + c[..k]
    {
      visited := visited + [c[k]];
      k := k + 1;
    }
    assert c[..k] == c;
  }

  class SpatialMatrix<T(==)> {
    var cells: seq<seq<T>>
    var cellRadius: real
    var fieldWidth: real
    var fieldHeight: real
    var w: int
    var h: int

    function Shape(): Layout
      reads this
    {
      Layout(cellRadius, fieldWidth, fieldHeight, w, h)
    }

    /** A grid that has been sized by resize. */
    ghost predicate Valid()
      reads this
    {
      Shape().Valid() && |cells| == w * h + 1
    }

    /** The default constructor: no cells, all parameters zero. */
    constructor Unsized()
      ensures cells == [] && cellRadius == 0.0 && fieldWidth == 0.0 && fieldHeight == 0.0 && w == 0 && h == 0
    {
      cells := [];
      cellRadius, fieldWidth, fieldHeight := 0.0, 0.0, 0.0;
      w, h := 0, 0;
    }

    constructor (cellRadius: real, fieldWidth: real, fieldHeight: real)
      requires cellRadius > 0.0 && fieldWidth >= 0.0 && fieldHeight >= 0.0
      ensures Valid()
      ensures this.cellRadius == cellRadius && this.fieldWidth == fieldWidth && this.fieldHeight == fieldHeight
      ensures cells == Empty(w * h + 1)
    {
      cells := [];
      this.cellRadius, this.fieldWidth, this.fieldHeight := 0.0, 0.0, 0.0;
      w, h := 0, 0;
      new;
      Resize(cellRadius, fieldWidth, fieldHeight);
    }

    /** Empties every cell; the number of cells is unchanged. */
    method Clear()
      modifies this`cells
      ensures cells == Empty(|old(cells)|)
    {
      var i := 0;
      while i < |cells|
        invariant 0 <= i <= |cells| == |old(cells)|
        invariant forall k :: 0 <= k < i ==> cells[k] == []
      {
        cells := cells[i := []];
        i := i + 1;
      }
    }

    /**
     * Clears, takes the new parameters and resizes the cell vector to
     * w * h + 1 cells, all of them empty.
     */
    method Resize(cellRadius: real, fieldWidth: real, fieldHeight: real)
      requires cellRadius > 0.0 && fieldWidth >= 0.0 && fieldHeight >= 0.0
      modifies this
      ensures Valid()
      ensures this.cellRadius == cellRadius && this.fieldWidth == fieldWidth && this.fieldHeight == fieldHeight
      ensures w == Trunc(fieldWidth / cellRadius) + 1 && h == Trunc(fieldHeight / cellRadius) + 1
      ensures cells == Empty(w * h + 1)
    {
      Clear();
      this.cellRadius := cellRadius;
      this.fieldWidth := fieldWidth;
      this.fieldHeight := fieldHeight;
      DivMonotone(0.0, fieldWidth, cellRadius);
      DivMonotone(0.0, fieldHeight, cellRadius);
      w := Trunc(fieldWidth / cellRadius) + 1;
      h := Trunc(fieldHeight / cellRadius) + 1;
      var n := w * h + 1;
      if |cells| >= n {
        cells := cells[..n];
      } else {
        cells := cells + Empty(n - |cells|);
      }
    }

    /** Appends `e` to the cell covering `position`; no other cell changes. */
    method Insert(e: T, position: Vec)
      requires Valid() && Shape().Contains(position)
      modifies this`cells
      ensures Valid()
      ensures cells == Inserted(Shape(), old(cells), position, e)
      ensures multiset(Flatten(cells)) == multiset(Flatten(old(cells))) + multiset{e}
      ensures |Flatten(cells)| == |Flatten(old(cells))| + 1
    {
      var i := CellIndex(Shape(), position);
      FlattenAppend(cells, i, e);
      cells := cells[i := cells[i] + [e]];
    }

    /**
     * apply_to_radius: the sequence of elements the visitor is called on,
     * rows top to bottom, columns left to right, insertion order inside a
     * cell. The grid is only read.
     */
    method ApplyToRadius(position: Vec, radius: real) returns (visited: seq<T>)
      requires Valid() && radius >= 0.0
      ensures visited == BoxScan(Shape(), cells, RadiusBox(Shape(), position, radius))
    {
      var d := Trunc((radius + radius) / cellRadius) + 1;
      var x0 := Trunc((position.x - radius) / cellRadius);
      var y0 := Trunc((position.y - radius) / cellRadius);
      var x1 := Min(x0 + d, w);
      var y1 := Min(y0 + d, h);
      x0 := Max(x0, 0);
      y0 := Max(y0, 0);
      ghost var box := Box(x0, x1, y0, y1);
      assert box == RadiusBox(Shape(), position, radius);
      visited := [];
      var y := y0;
      while y < y1
        invariant y0 <= y <= Max(y0, y1)
        invariant visited == BoxScan(Shape(), cells, box.(y1 := y))
      {
        var row := ScanRow(y, x0, x1);
        visited := visited + row;
        y := y + 1;
      }
    }

    /** One row of apply_to_radius: cells x0 .. x1-1 of row y, left to right. */
    method ScanRow(y: int, x0: int, x1: int) returns (row: seq<T>)
      requires Valid() && 0 <= y < h && 0 <= x0 && (x0 < x1 ==> x1 <= w)
      ensures row == RowScan(Shape(), cells, y, x0, x1)
    {
      row := [];
      var x := x0;
      while x < x1
        invariant x0 <= x <= Max(x0, x1)
        invariant row == RowScan(Shape(), cells, y, x0, x)
      {
        CellIndexBounds(x, y, w, h);
        var c := cells[x + y * w];
        assert c == CellAt(Shape(), cells, x, y);
        row := VisitAll(row, c);
        x := x + 1;
      }
    }

    /**
     * _apply_to_all with a visitor that only reads: every stored element,
     * cell after cell, insertion order inside a cell.
     */
    method ApplyToAll() returns (visited: seq<T>)
      ensures visited == Flatten(cells)
    {
      visited := [];
      var i := 0;
      while i < |cells|
        invariant 0 <= i <= |cells|
        invariant visited == Flatten(cells[..i])
      {
        visited := VisitAll(visited, cells[i]);
        assert cells[..i + 1][..i] == cells[..i];
        i := i + 1;
      }
      assert cells[..i] == cells;
    }

    /**
     * clear_apply: snapshots the cells, clears them, then visits the
     * snapshot; the visitor may put each visited element back with insert.
     * Returns the visited elements in order. On the default-constructed
     * grid the snapshot is empty and nothing is visited.
     */
    method ClearApply(reinsert: T -> Option<Vec>) returns (visited: seq<T>)
      requires Valid() || cells == []
      requires ReinsertsInField(Shape(), Flatten(cells), reinsert)
      modifies this`cells
      ensures visited == Flatten(old(cells))
      ensures old(Valid()) ==> Valid() && cells == Reinserted(Shape(), Empty(|old(cells)|), visited, reinsert)
      ensures old(cells) == [] ==> cells == []
    {
      if |cells| == 0 {
        CellCountPositive(Shape());
        visited := [];
        return;
      }
      var snapshot := cells;
      Clear();
      visited := [];
      var i := 0;
      while i < |snapshot|
        invariant 0 <= i <= |snapshot| && Valid()
        invariant visited == Flatten(snapshot[..i])
        invariant ReinsertsInField(Shape(), visited, reinsert)
        invariant cells == Reinserted(Shape(), Empty(|snapshot|), visited, reinsert)
      {
        visited := VisitCell(snapshot, i, reinsert, visited);
        assert snapshot[..i + 1][..i] == snapshot[..i];
        i := i + 1;
      }
      assert snapshot[..i] == snapshot;
    }

    /** clear_apply's visitor on cell i of the snapshot, element by element. */
    method VisitCell(snapshot: seq<seq<T>>, i: int, reinsert: T -> Option<Vec>, seen: seq<T>) returns (visited: seq<T>)
      requires Valid() && 0 <= i < |snapshot| == |cells| && seen == Flatten(snapshot[..i])
      requires ReinsertsInField(Shape(), Flatten(snapshot), reinsert) && ReinsertsInField(Shape(), seen, reinsert)
      requires cells == Reinserted(Shape(), Empty(|snapshot|), seen, reinsert)
      modifies this`cells
      ensures Valid() && visited == seen + snapshot[i]
      ensures ReinsertsInField(Shape(), visited, reinsert)
      ensures cells == Reinserted(Shape(), Empty(|snapshot|), visited, reinsert)
    {
      var c := snapshot[i];
      visited := seen;
      var k := 0;
      while k < |c|
        invariant 0 <= k <= |c| && Valid()
        invariant visited == seen + c[..k]
        invariant ReinsertsInField(Shape(), visited, reinsert)
        invariant cells == Reinserted(Shape(), Empty(|snapshot|), visited, reinsert)
      {
        var e := c[k];
        VisitedPrefix(snapshot, i, k);
        InFieldOf(Shape(), Flatten(snapshot), reinsert, e);
        Visit(e, reinsert, visited);
        visited := visited + [e];
        k := k + 1;
      }
      assert c[..k] == c;
    }

    /** The visitor's step of clear_apply: put `e` back where it asks, or drop it. */
    method Visit(e: T, reinsert: T -> Option<Vec>, ghost done: seq<T>)
      requires Valid() && ReinsertsInField(Shape(), done, reinsert)
      requires reinsert(e).Some? ==> Shape().Contains(reinsert(e).value)
      requires cells == Reinserted(Shape(), Empty(|cells|), done, reinsert)
      modifies this`cells
      ensures Valid() && ReinsertsInField(Shape(), done + [e], reinsert)
      ensures cells == Reinserted(Shape(), Empty(|cells|), done + [e], reinsert)
    {
      ReinsertsExtend(Shape(), done, reinsert, e);
      match reinsert(e)
      case None =>
      case Some(p) =>
        Insert(e, p);
    }

    /**
     * resize_clear_apply: resize clears every cell before clear_apply takes
     * its snapshot, so the visitor is never called and the grid ends empty
     * with the new cell size.
     */
    method ResizeClearApply(cellRadius: real, reinsert: T -> Option<Vec>) returns (visited: seq<T>)
      requires cellRadius > 0.0 && fieldWidth >= 0.0 && fieldHeight >= 0.0
      modifies this
      ensures Valid()
      ensures visited == []
      ensures this.cellRadius == cellRadius && fieldWidth == old(fieldWidth) && fieldHeight == old(fieldHeight)
      ensures cells == Empty(w * h + 1)
    {
      Resize(cellRadius, fieldWidth, fieldHeight);
      FlattenEmpty<T>(|cells|);
      visited := ClearApply(reinsert);
    }
  }

  /** A prefix of the cells flattens to a prefix of the whole. */
  lemma {:induction false} FlattenPrefix<T>(cells: seq<seq<T>>, i: int)
    requires 0 <= i <= |cells|
    ensures Flatten(cells[..i]) <= Flatten(cells)
    decreases |cells| - i
  {
    if i < |cells| {
      FlattenPrefix(cells, i + 1);
      assert cells[..i + 1][..i] == cells[..i];
    } else {
      assert cells[..i] == cells;
    }
  }

  /** The element visited at cell i, position k, follows the earlier ones in Flatten. */
  lemma VisitedPrefix<T>(cells: seq<seq<T>>, i: int, k: int)
    requires 0 <= i < |cells| && 0 <= k < |cells[i]|
    ensures Flatten(cells[..i]) + cells[i][..k + 1] <= Flatten(cells)
    ensures cells[i][k] in Flatten(cells)
  {
    FlattenPrefix(cells, i + 1);
    assert cells[..i + 1][..i] == cells[..i];
    assert Flatten(cells[..i + 1]) == Flatten(cells[..i]) + cells[i];
    var pre := Flatten(cells[..i]) + cells[i][..k + 1];
    assert pre[|pre| - 1] == cells[i][k];
  }

  lemma ReinsertsExtend<T>(l: Layout, xs: seq<T>, reinsert: T -> Option<Vec>, e: T)
    requires ReinsertsInField(l, xs, reinsert)
    requires reinsert(e).Some? ==> l.Contains(reinsert(e).value)
    ensures ReinsertsInField(l, xs + [e], reinsert)
    ensures (xs + [e])[..|xs|] == xs
  {
    assert (xs + [e])[..|xs|] == xs;
  }

  lemma InFieldOf<T>(l: Layout, xs: seq<T>, reinsert: T -> Option<Vec>, e: T)
    requires ReinsertsInField(l, xs, reinsert) && e in xs
    ensures reinsert(e).Some? ==> l.Contains(reinsert(e).value)
  {
    var k :| 0 <= k < |xs| && xs[k] == e;
  }
}
