/** Properties of the table grid: what a resize keeps and creates, that a
    new table and a cleared one pass the validator, that the span setters
    mask exactly the cells they newly cover, and that the validator then
    reports those masked cells. */
module WebTableProps {
  import opened WebTable

  /** A grown row keeps its cells, pads with default cells, and gives each
      cell from `lo` on one more empty text. */
  lemma GrowRowCells(row: TableRow, size: nat, lo: nat)
    ensures |GrowRow(row, size, lo).data| == size
    ensures forall c :: 0 <= c < size ==>
      var d := if c < |row.data| then row.data[c] else DefaultCell;
      GrowRow(row, size, lo).data[c] == if lo <= c then d.(children := d.children + [Text("")]) else d
  {
  }

  /** The column step keeps the row count and gives the remaining rows
      `newCols` cells. */
  lemma ResizeColsShape(g: Grid, newRows: nat, newCols: nat)
    requires Shaped(g)
    ensures var h := ResizeCols(g, newRows, newCols);
      && h.rowCount == g.rowCount && |h.rows| == |g.rows| && h.colCount == newCols
      && h.rowGroups == g.rowGroups
      && (forall r :: 0 <= r < |h.rows| && r < newRows ==> |h.rows[r].data| == newCols)
      && (forall r, c :: 0 <= r < |h.rows| && r < newRows && 0 <= c < newCols ==>
            h.rows[r].data[c] == if c < g.colCount then g.rows[r].data[c] else BlankCell)
      && (|h.cols| == 0 || |h.cols| == newCols) && (|g.cols| == 0 ==> h.cols == g.cols)
      && (|h.colGroups| == 0 || |h.colGroups| == newCols) && (|g.colGroups| == 0 ==> h.colGroups == g.colGroups)
  {
    if newCols != g.colCount {
      forall r | 0 <= r < |g.rows| && r < newRows
        ensures |ResizeCols(g, newRows, newCols).rows[r].data| == newCols
        ensures forall c :: 0 <= c < newCols ==>
          ResizeCols(g, newRows, newCols).rows[r].data[c] == if c < g.colCount then g.rows[r].data[c] else BlankCell
      {
        GrowRowCells(g.rows[r], newCols, g.colCount);
      }
    }
  }

  /** A resize of a shaped grid yields a shaped `newRows` by `newCols` grid:
      cells in the overlap are untouched, every other cell is a new cell
      holding one empty text, record vectors not in use stay unused, and
      the append cell is left alone. */
  lemma ResizeShape(g: Grid, newRows: nat, newCols: nat)
    requires Shaped(g)
    ensures var h := ResizeGrid(g, newRows, newCols);
      && Shaped(h) && h.rowCount == newRows && h.colCount == newCols
      && (forall r, c :: 0 <= r < newRows && 0 <= c < newCols ==>
            h.rows[r].data[c] == if r < g.rowCount && c < g.colCount then g.rows[r].data[c] else BlankCell)
      && (|g.cols| == 0 ==> h.cols == g.cols)
      && (|g.colGroups| == 0 ==> h.colGroups == g.colGroups)
      && (|g.rowGroups| == 0 ==> h.rowGroups == g.rowGroups)
      && h.appendRow == g.appendRow && h.appendCol == g.appendCol
  {
    ResizeColsShape(g, newRows, newCols);
    var g1 := ResizeCols(g, newRows, newCols);
    if newRows != g1.rowCount {
      var rs := Resized(g1.rows, newRows, TableRow([]));
      forall r | g1.rowCount <= r < newRows
        ensures |ResizeRows(g1, newRows).rows[r].data| == newCols
        ensures forall c :: 0 <= c < newCols ==> ResizeRows(g1, newRows).rows[r].data[c] == BlankCell
      {
        GrowRowCells(rs[r], newCols, 0);
        assert rs[r] == TableRow([]);
      }
    }
  }

  /** A table made by the constructor passes the validator, and every cell
      holds one empty text. */
  lemma NewTableOK(r: nat, c: nat)
    requires r > 0 && c > 0
    ensures GridOK(ResizeGrid(EmptyGrid, r, c))
    ensures forall i, j :: 0 <= i < r && 0 <= j < c ==> ResizeGrid(EmptyGrid, r, c).rows[i].data[j] == BlankCell
  {
    ResizeShape(EmptyGrid, r, c);
  }

  /** Growing a table that passes the validator keeps it passing: old spans
      still fit and new cells are unmasked with spans of one. */
  lemma GrowKeepsOK(g: Grid, newRows: nat, newCols: nat)
    requires GridOK(g) && g.rowCount <= newRows && g.colCount <= newCols
    ensures GridOK(ResizeGrid(g, newRows, newCols))
  {
    ResizeShape(g, newRows, newCols);
    var h := ResizeGrid(g, newRows, newCols);
    forall r | 0 <= r < |h.rows|
      ensures RowOK(h.rows[r])
    {
      forall c | 0 <= c < |h.rows[r].data|
        ensures CellOK(h.rows[r].data[c])
      {
        if r < g.rowCount && c < g.colCount {
          assert RowOK(g.rows[r]);
        }
      }
    }
  }

  /** Clearing the table leaves a 0 by 0 grid with no records. */
  lemma ClearTableEmpties(g: Grid)
    requires Shaped(g)
    ensures ResizeGrid(g, 0, 0)
         == g.(rowCount := 0, colCount := 0, rows := [], cols := [], colGroups := [], rowGroups := [])
  {
    ResizeShape(g, 0, 0);
  }

  /** Clearing every cell of a shaped table resets all cells, so a table of
      at least one row and column then passes the validator. */
  lemma ClearCellsMakesOK(g: Grid)
    requires Shaped(g)
    ensures var h := ClearCellsSpec(g);
      (forall r, c :: 0 <= r < |h.rows| && 0 <= c < |h.rows[r].data| ==> h.rows[r].data[c] == DefaultCell)
      && (g.rowCount >= 1 && g.colCount >= 1 ==> GridOK(h))
  {
    var h := ClearCellsSpec(g);
    forall r | 0 <= r < |h.rows|
      ensures |h.rows[r].data| == g.colCount
      ensures forall c :: 0 <= c < |h.rows[r].data| ==> h.rows[r].data[c] == DefaultCell
    {
      assert h.rows[r] == ClearFirst(g.rows[r], g.colCount);
    }
  }

  /** Which cells the row-span setter changes: the focused cell takes the
      new span; in the focused cell's columns, rows newly covered are masked
      and rows no longer covered are unmasked; every other cell stays. */
  lemma RowSpanMasksExactly(rows: seq<TableRow>, r0: nat, c0: nat, n: nat, r: nat, c: nat)
    requires r0 < |rows| && c0 < |rows[r0].data|
    requires r < |rows| && c < |rows[r].data|
    ensures var after := RowSpanCells(rows, r0, c0, n);
      var d0 := rows[r0].data[c0];
      var base := if r == r0 && c == c0 then d0.(rowspan := n) else rows[r].data[c];
      var inCols := c0 <= c < c0 + d0.colspan;
      && |after| == |rows| && |after[r].data| == |rows[r].data|
      && after[r].data[c] == (if inCols && r0 + d0.rowspan <= r < r0 + n then base.(masked := true)
                              else if inCols && r0 + n <= r < r0 + d0.rowspan then base.(masked := false)
                              else base)
  {
  }

  /** The column-wise mirror: in the focused cell's rows, columns newly
      covered are masked and columns no longer covered are unmasked. */
  lemma ColSpanMasksExactly(rows: seq<TableRow>, r0: nat, c0: nat, n: nat, r: nat, c: nat)
    requires r0 < |rows| && c0 < |rows[r0].data|
    requires r < |rows| && c < |rows[r].data|
    ensures var after := ColSpanCells(rows, r0, c0, n);
      var d0 := rows[r0].data[c0];
      var base := if r == r0 && c == c0 then d0.(colspan := n) else rows[r].data[c];
      var inRows := r0 <= r < r0 + d0.rowspan;
      && |after| == |rows| && |after[r].data| == |rows[r].data|
      && after[r].data[c] == (if inRows && c0 + d0.colspan <= c < c0 + n then base.(masked := true)
                              else if inRows && c0 + n <= c < c0 + d0.colspan then base.(masked := false)
                              else base)
  {
  }

  /** Group spans: the focused group takes the new span, groups newly
      covered are masked, groups no longer covered are unmasked. */
  lemma GroupSpanMasksExactly(gs: seq<TableGroup>, i: nat, n: nat, j: nat)
    requires i < |gs| && j < |gs|
    ensures var after := GroupSpan(gs, i, n);
      var base := if j == i then gs[i].(span := n) else gs[j];
      && |after| == |gs|
      && after[j] == (if i + gs[i].span <= j < i + n then base.(masked := true)
                      else if i + n <= j < i + gs[i].span then base.(masked := false)
                      else base)
  {
  }

  /** The validator reports every masked cell, so widening a cell's row
      span over another row makes a valid table fail it. */
  lemma RowSpanFailsValidator(g: Grid, r0: nat, c0: nat, n: nat)
    requires GridOK(g) && CellSpansFit(g, r0, c0) && r0 + n <= g.rowCount
    requires g.rows[r0].data[c0].colspan >= 1 && g.rows[r0].data[c0].rowspan < n
    ensures !GridOK(g.(rows := RowSpanCells(g.rows, r0, c0, n)))
  {
    var d0 := g.rows[r0].data[c0];
    var r := r0 + d0.rowspan;
    RowSpanMasksExactly(g.rows, r0, c0, n, r, c0);
    assert !CellOK(RowSpanCells(g.rows, r0, c0, n)[r].data[c0]);
  }

  /** Likewise, widening a cell's column span over another column makes a
      valid table fail the validator. */
  lemma ColSpanFailsValidator(g: Grid, r0: nat, c0: nat, n: nat)
    requires GridOK(g) && CellSpansFit(g, r0, c0) && c0 + n <= g.colCount
    requires g.rows[r0].data[c0].rowspan >= 1 && g.rows[r0].data[c0].colspan < n
    ensures !GridOK(g.(rows := ColSpanCells(g.rows, r0, c0, n)))
  {
    var d0 := g.rows[r0].data[c0];
    var c := c0 + d0.colspan;
    ColSpanMasksExactly(g.rows, r0, c0, n, r0, c);
    assert !CellOK(ColSpanCells(g.rows, r0, c0, n)[r0].data[c]);
  }

  /** A table built with `r` rows and `c` columns passes its validator. */
  method NewTableIsOK(r: nat, c: nat) returns (t: Table)
    requires r > 0 && c > 0
    ensures t.OK() && t.info.rowCount == r && t.info.colCount == c
  {
    t := new Table(r, c);
    NewTableOK(r, c);
  }
}
