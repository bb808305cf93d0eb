/** The grid behind the web table widget: rows of cells with spans, header
    and mask flags, optional column, column-group and row-group records,
    the cell that receives appended widgets, and the table handle's cursor
    and focus. Styles, attributes, listeners and everything that talks to
    the page are not modelled; a child widget is an opaque handle. */
module WebTable {

  /** A widget placed in a cell: a text widget, or any other widget. */
  datatype Widget = Text(text: string) | Handle(id: nat)

  datatype TableData = TableData(colspan: nat, rowspan: nat, header: bool, masked: bool, children: seq<Widget>)

  /** A cell as the vector resize creates it. */
  const DefaultCell := TableData(1, 1, false, false, [])

  /** A cell the table creates itself: a default cell holding one empty text. */
  const BlankCell := DefaultCell.(children := [Text("")])

  datatype TableRow = TableRow(data: seq<TableData>)

  /** Columns carry no information besides their style. */
  datatype TableCol = TableCol

  datatype TableGroup = TableGroup(span: nat, masked: bool)

  const DefaultGroup := TableGroup(1, false)

  /** What the table handle is focused on. */
  datatype State = InTable | InRow | InCell | InCol | InColGroup | InRowGroup

  /** A vector resize: the first `n` elements are kept, and new ones are `fill`. */
  function Resized<T>(s: seq<T>, n: nat, fill: T): (r: seq<T>)
    ensures |r| == n
    ensures forall i :: 0 <= i < n ==> r[i] == if i < |s| then s[i] else fill
  {
    if n <= |s| then s[..n] else s + seq(n - |s|, _ => fill)
  }

  /** Each cell in columns [lo, hi) receives one more empty text widget. */
  function AddBlank(data: seq<TableData>, lo: nat, hi: nat): seq<TableData>
  {
    seq(|data|, i requires 0 <= i < |data| =>
      if lo <= i < hi then data[i].(children := data[i].children + [Text("")]) else data[i])
  }

  /** A row resized to `size` cells whose cells from `lo` on each receive an
      empty text widget. */
  function GrowRow(row: TableRow, size: nat, lo: nat): TableRow {
    TableRow(AddBlank(Resized(row.data, size, DefaultCell), lo, size))
  }

  /** The whole state of the grid. */
  datatype Grid = Grid(
    rowCount: nat, colCount: nat,
    rows: seq<TableRow>, cols: seq<TableCol>,
    colGroups: seq<TableGroup>, rowGroups: seq<TableGroup>,
    appendRow: nat, appendCol: nat)

  const EmptyGrid := Grid(0, 0, [], [], [], [], 0, 0)

  /** The column step of a resize: rows that remain are widened or narrowed,
      and the column records are resized only if they are in use. */
  function ResizeCols(g: Grid, newRows: nat, newCols: nat): Grid {
    if newCols == g.colCount then g
    else
      g.(rows := seq(|g.rows|, r requires 0 <= r < |g.rows| =>
                   if r < newRows then GrowRow(g.rows[r], newCols, g.colCount) else g.rows[r]),
         colCount := newCols,
         cols := if |g.cols| > 0 then Resized(g.cols, newCols, TableCol) else g.cols,
         colGroups := if |g.colGroups| > 0 then Resized(g.colGroups, newCols, DefaultGroup) else g.colGroups)
  }

  /** The row step of a resize: the row vector is resized and each new row
      is filled with table-made cells. */
  function ResizeRows(g: Grid, newRows: nat): Grid {
    if newRows == g.rowCount then g
    else
      var rs := Resized(g.rows, newRows, TableRow([]));
      g.(rows := seq(newRows, r requires 0 <= r < newRows =>
                   if g.rowCount <= r then GrowRow(rs[r], g.colCount, 0) else rs[r]),
         rowCount := newRows,
         rowGroups := if |g.rowGroups| > 0 then Resized(g.rowGroups, newRows, DefaultGroup) else g.rowGroups)
  }

  function ResizeGrid(g: Grid, newRows: nat, newCols: nat): Grid {
    ResizeRows(ResizeCols(g, newRows, newCols), newRows)
  }

  /** Every row has a record and `colCount` cells, and each optional
      record vector is either unused or has one entry per column or row. */
  predicate Shaped(g: Grid) {
    && |g.rows| == g.rowCount
    && (forall r :: 0 <= r < |g.rows| ==> |g.rows[r].data| == g.colCount)
    && (|g.cols| == 0 || |g.cols| == g.colCount)
    && (|g.colGroups| == 0 || |g.colGroups| == g.colCount)
    && (|g.rowGroups| == 0 || |g.rowGroups| == g.rowCount)
  }

  /** The cell check: a masked cell is reported. */
  predicate CellOK(d: TableData) {
    !d.masked
  }

  /** The row check: every cell of the row passes the cell check. */
  predicate RowOK(row: TableRow) {
    forall c :: 0 <= c < |row.data| ==> CellOK(row.data[c])
  }

  /** The grid validator: counts agree with the vectors, the table is at
      least one by one, every row passes the row check and has `colCount`
      cells, and no cell's span runs past the right or bottom edge. */
  predicate GridOK(g: Grid) {
    && g.rowCount == |g.rows|
    && (|g.cols| == 0 || g.colCount == |g.cols|)
    && g.rowCount >= 1
    && g.colCount >= 1
    && (|g.colGroups| == 0 || g.colCount == |g.colGroups|)
    && (|g.rowGroups| == 0 || g.rowCount == |g.rowGroups|)
    && (forall r :: 0 <= r < |g.rows| ==> RowOK(g.rows[r]) && |g.rows[r].data| == g.colCount)
    && (forall r, c :: 0 <= r < |g.rows| && 0 <= c < |g.rows[r].data| ==>
          c + g.rows[r].data[c].colspan <= g.colCount && r + g.rows[r].data[c].rowspan <= g.rowCount)
  }

  /** A stored position that fell out of range goes back to 0. */
  function ResetIndex(i: nat, n: nat): (r: nat)
    ensures n > 0 ==> r < n
    ensures i < n ==> r == i
  {
    if i >= n then 0 else i
  }

  /** A cell back to its defaults, children removed. */
  function ClearCellSpec(g: Grid, r: nat, c: nat): Grid
    requires r < |g.rows| && c < |g.rows[r].data|
  {
    g.(rows := g.rows[r := TableRow(g.rows[r].data[c := DefaultCell])])
  }

  /** The first `n` cells of a row cleared. */
  function ClearFirst(row: TableRow, n: nat): TableRow {
    TableRow(seq(|row.data|, c requires 0 <= c < |row.data| => if c < n then DefaultCell else row.data[c]))
  }

  /** The first `colCount` cells of row `r` cleared. */
  function ClearRowSpec(g: Grid, r: nat): Grid
    requires r < |g.rows|
  {
    g.(rows := g.rows[r := ClearFirst(g.rows[r], g.colCount)])
  }

  /** The first `colCount` cells of the first `rowCount` rows cleared. */
  function ClearCellsSpec(g: Grid): Grid {
    g.(rows := seq(|g.rows|, r requires 0 <= r < |g.rows| =>
                 if r < g.rowCount then ClearFirst(g.rows[r], g.colCount) else g.rows[r]))
  }

  /** Cells [lo, hi) of a row get the mask flag `m`. */
  function MaskCells(data: seq<TableData>, lo: int, hi: int, m: bool): seq<TableData> {
    seq(|data|, c requires 0 <= c < |data| => if lo <= c < hi then data[c].(masked := m) else data[c])
  }

  /** Cells in rows [rlo, rhi) and columns [clo, chi) get the mask flag `m`. */
  function MaskRect(rows: seq<TableRow>, rlo: int, rhi: int, clo: int, chi: int, m: bool): seq<TableRow> {
    seq(|rows|, r requires 0 <= r < |rows| =>
      if rlo <= r < rhi then TableRow(MaskCells(rows[r].data, clo, chi, m)) else rows[r])
  }

  /** Groups [lo, hi) get the mask flag `m`. */
  function MaskGroups(gs: seq<TableGroup>, lo: int, hi: int, m: bool): seq<TableGroup> {
    seq(|gs|, i requires 0 <= i < |gs| => if lo <= i < hi then gs[i].(masked := m) else gs[i])
  }

  /** A cell's field replaced. */
  function SetCell(rows: seq<TableRow>, r: nat, c: nat, d: TableData): seq<TableRow>
    requires r < |rows| && c < |rows[r].data|
  {
    rows[r := TableRow(rows[r].data[c := d])]
  }

  /** Cell (r, c) spans `n` rows: rows newly covered are masked within the
      cell's columns, rows no longer covered are unmasked. */
  function RowSpanCells(rows: seq<TableRow>, r: nat, c: nat, n: nat): seq<TableRow>
    requires r < |rows| && c < |rows[r].data|
  {
    var d := rows[r].data[c];
    var spanned := SetCell(rows, r, c, d.(rowspan := n));
    MaskRect(MaskRect(spanned, r + d.rowspan, r + n, c, c + d.colspan, true),
             r + n, r + d.rowspan, c, c + d.colspan, false)
  }

  /** The row-span step keeps every row's length and changes only the
      focused cell's row span among the span fields of that cell. */
  lemma RowSpanKeepsShape(rows: seq<TableRow>, r: nat, c: nat, n: nat)
    requires r < |rows| && c < |rows[r].data|
    ensures var after := RowSpanCells(rows, r, c, n);
      && |after| == |rows|
      && (forall i :: 0 <= i < |rows| ==> |after[i].data| == |rows[i].data|)
      && after[r].data[c].rowspan == n && after[r].data[c].colspan == rows[r].data[c].colspan
  {
  }

  /** Cell (r, c) spans `n` columns: columns newly covered are masked within
      the cell's rows, columns no longer covered are unmasked. */
  function ColSpanCells(rows: seq<TableRow>, r: nat, c: nat, n: nat): seq<TableRow>
    requires r < |rows| && c < |rows[r].data|
  {
    var d := rows[r].data[c];
    var spanned := SetCell(rows, r, c, d.(colspan := n));
    MaskRect(MaskRect(spanned, r, r + d.rowspan, c + d.colspan, c + n, true),
             r, r + d.rowspan, c + n, c + d.colspan, false)
  }

  /** The group vector sized on first use. */
  function GroupsInUse(gs: seq<TableGroup>, count: nat): seq<TableGroup> {
    if |gs| == 0 then Resized(gs, count, DefaultGroup) else gs
  }

  /** Group `i` spans `n` groups: groups newly covered are masked, groups
      no longer covered are unmasked. */
  function GroupSpan(gs: seq<TableGroup>, i: nat, n: nat): seq<TableGroup>
    requires i < |gs|
  {
    var prior := gs[i].span;
    var spanned := gs[i := gs[i].(span := n)];
    if prior != n then MaskGroups(MaskGroups(spanned, i + prior, i + n, true), i + n, i + prior, false)
    else spanned
  }

  /** The grid is shaped and the spans of cell (r, c) stay inside it, as the
      span setters assume when they walk the covered cells. */
  predicate CellSpansFit(g: Grid, r: nat, c: nat) {
    && Shaped(g)
    && r < g.rowCount && c < g.colCount
    && r + g.rows[r].data[c].rowspan <= g.rowCount
    && c + g.rows[r].data[c].colspan <= g.colCount
  }

  /** Group `i` exists and both its old and its new span stay inside the groups. */
  predicate GroupSpanFits(gs: seq<TableGroup>, i: nat, n: nat) {
    i < |gs| && i + gs[i].span <= |gs| && i + n <= |gs|
  }

  class TableInfo {
    var rowCount: nat
    var colCount: nat
    var rows: seq<TableRow>
    var cols: seq<TableCol>
    var colGroups: seq<TableGroup>
    var rowGroups: seq<TableGroup>
    var appendRow: nat
    var appendCol: nat

    function View(): Grid
      reads this
    {
      Grid(rowCount, colCount, rows, cols, colGroups, rowGroups, appendRow, appendCol)
    }

    constructor()
      ensures View() == EmptyGrid
    {
      rowCount, colCount := 0, 0;
      rows, cols, colGroups, rowGroups := [], [], [], [];
      appendRow, appendCol := 0, 0;
    }

    /** Places a widget at the end of cell (r, c)'s children. */
    method AddChildAt(r: nat, c: nat, w: Widget)
      requires r < |rows| && c < |rows[r].data|
      modifies this
      ensures View() == old(View()).(rows := old(rows)[r := TableRow(old(rows)[r].data[c := old(rows)[r].data[c].(children := old(rows)[r].data[c].children + [w])])])
    {
      var data := rows[r].data;
      rows := rows[r := TableRow(data[c := data[c].(children := data[c].children + [w])])];
    }

    /** Places a widget in the append cell, after moving that cell back to
        row or column 0 if the table shrank under it. */
    method AddChild(w: Widget)
      requires ResetIndex(appendRow, rowCount) < |rows|
      requires ResetIndex(appendCol, colCount) < |rows[ResetIndex(appendRow, rowCount)].data|
      modifies this
      ensures appendRow == old(ResetIndex(appendRow, rowCount))
      ensures appendCol == old(ResetIndex(appendCol, colCount))
      ensures var cell := old(rows[ResetIndex(appendRow, rowCount)].data[ResetIndex(appendCol, colCount)]);
        View() == old(View()).(appendRow := appendRow, appendCol := appendCol,
                               rows := SetCell(old(rows), appendRow, appendCol, cell.(children := cell.children + [w])))
    {
      if appendRow >= rowCount { appendRow := 0; }
      if appendCol >= colCount { appendCol := 0; }
      AddChildAt(appendRow, appendCol, w);
    }

    /** The text widget that appended text goes to: the last child of the
        append cell when it is a text that accepts more (`appendable`, a
        property of the widget itself), otherwise a new empty text placed
        at the end of that cell. */
    method GetTextWidget(appendable: bool) returns (w: Widget)
      requires ResetIndex(appendRow, rowCount) < |rows|
      requires ResetIndex(appendCol, colCount) < |rows[ResetIndex(appendRow, rowCount)].data|
      modifies this
      ensures appendRow == old(ResetIndex(appendRow, rowCount))
      ensures appendCol == old(ResetIndex(appendCol, colCount))
      ensures var kids := old(rows[ResetIndex(appendRow, rowCount)].data[ResetIndex(appendCol, colCount)].children);
        var reuse := |kids| > 0 && kids[|kids| - 1].Text? && appendable;
        && (reuse ==> View() == old(View()).(appendRow := appendRow, appendCol := appendCol) && w == kids[|kids| - 1])
        && (!reuse ==> View() == old(View()).(appendRow := appendRow, appendCol := appendCol,
                                              rows := SetCell(old(rows), appendRow, appendCol, old(rows)[appendRow].data[appendCol].(children := kids + [Text("")])))
                       && w == Text(""))
    {
      if appendRow >= rowCount { appendRow := 0; }
      if appendCol >= colCount { appendCol := 0; }
      var kids := rows[appendRow].data[appendCol].children;
      if |kids| == 0 || !kids[|kids| - 1].Text? || !appendable {
        AddChild(Text(""));
      }
      kids := rows[appendRow].data[appendCol].children;
      w := kids[|kids| - 1];
    }

    /** Resets cell (r, c): spans of one, no header, no mask, no children. */
    method ClearCell(r: nat, c: nat)
      requires r < |rows| && c < |rows[r].data|
      modifies this
      ensures View() == ClearCellSpec(old(View()), r, c)
    {
      rows := rows[r := TableRow(rows[r].data[c := DefaultCell])];
    }

    /** Clears the first `colCount` cells of row `r`. */
    method ClearRowCells(r: nat)
      requires r < |rows| && colCount <= |rows[r].data|
      modifies this
      ensures View() == ClearRowSpec(old(View()), r)
    {
      ghost var g0 := View();
      var c := 0;
      assert ClearFirst(g0.rows[r], 0) == g0.rows[r];
      while c < colCount
        invariant c <= colCount
        invariant View() == g0.(rows := g0.rows[r := ClearFirst(g0.rows[r], c)])
      {
        ClearCell(r, c);
        assert rows[r] == ClearFirst(g0.rows[r], c + 1);
        c := c + 1;
      }
    }

    /** Clears row `r`; its own style is not modelled, so this is the
        clearing of its cells. */
    method ClearRow(r: nat)
      requires r < |rows| && colCount <= |rows[r].data|
      modifies this
      ensures View() == ClearRowSpec(old(View()), r)
    {
      ClearRowCells(r);
    }

    /** Clears the first `colCount` cells of every row. */
    method ClearTableCells()
      requires rowCount <= |rows|
      requires forall r :: 0 <= r < rowCount ==> colCount <= |rows[r].data|
      modifies this
      ensures View() == ClearCellsSpec(old(View()))
    {
      ghost var g0 := View();
      var r := 0;
      while r < rowCount
        invariant r <= rowCount && |rows| == |g0.rows|
        invariant View() == g0.(rows := rows)
        invariant forall i :: 0 <= i < |rows| ==>
          rows[i] == if i < r then ClearFirst(g0.rows[i], colCount) else g0.rows[i]
      {
        ClearRowCells(r);
        r := r + 1;
      }
      assert rows == ClearCellsSpec(g0).rows;
    }

    /** Clears every row, which in this model is clearing its cells. */
    method ClearTableRows()
      requires rowCount <= |rows|
      requires forall r :: 0 <= r < rowCount ==> colCount <= |rows[r].data|
      modifies this
      ensures View() == ClearCellsSpec(old(View()))
    {
      ghost var g0 := View();
      var r := 0;
      while r < rowCount
        invariant r <= rowCount && |rows| == |g0.rows|
        invariant View() == g0.(rows := rows)
        invariant forall i :: 0 <= i < |rows| ==>
          rows[i] == if i < r then ClearFirst(g0.rows[i], colCount) else g0.rows[i]
      {
        ClearRow(r);
        r := r + 1;
      }
      assert rows == ClearCellsSpec(g0).rows;
    }

    /** Clears the table by resizing it to nothing. */
    method ClearTable()
      modifies this
      ensures View() == ResizeGrid(old(View()), 0, 0)
    {
      Resize(0, 0);
    }

    predicate OK()
      reads this
    {
      GridOK(View())
    }

    /** Sets the mask flag of cells [lo, hi) of row `r`. */
    method MaskRowCells(r: nat, lo: nat, hi: nat, m: bool)
      requires r < |rows| && (lo < hi ==> hi <= |rows[r].data|)
      modifies this
      ensures View() == old(View()).(rows := old(rows)[r := TableRow(MaskCells(old(rows)[r].data, lo, hi, m))])
    {
      ghost var g0 := View();
      var c := lo;
      assert MaskCells(g0.rows[r].data, lo, c, m) == g0.rows[r].data;
      while c < hi
        invariant lo <= c && (c <= hi || c == lo)
        invariant View() == g0.(rows := g0.rows[r := TableRow(MaskCells(g0.rows[r].data, lo, c, m))])
      {
        var data := rows[r].data;
        rows := rows[r := TableRow(data[c := data[c].(masked := m)])];
        assert rows[r].data == MaskCells(g0.rows[r].data, lo, c + 1, m);
        c := c + 1;
      }
      assert MaskCells(g0.rows[r].data, lo, c, m) == MaskCells(g0.rows[r].data, lo, hi, m);
    }

    /** Sets the mask flag of the cells in rows [rlo, rhi) and columns [clo, chi). */
    method MaskRectangle(rlo: nat, rhi: nat, clo: nat, chi: nat, m: bool)
      requires rlo < rhi ==> rhi <= |rows|
      requires clo < chi ==> forall i :: rlo <= i < rhi ==> chi <= |rows[i].data|
      modifies this
      ensures View() == old(View()).(rows := MaskRect(old(rows), rlo, rhi, clo, chi, m))
    {
      ghost var g0 := View();
      var r := rlo;
      while r < rhi
        invariant rlo <= r && (r <= rhi || r == rlo) && |rows| == |g0.rows|
        invariant View() == g0.(rows := rows)
        invariant clo < chi ==> forall i :: rlo <= i < rhi ==> chi <= |rows[i].data|
        invariant forall i :: 0 <= i < |rows| ==>
          rows[i] == if rlo <= i < r then TableRow(MaskCells(g0.rows[i].data, clo, chi, m)) else g0.rows[i]
      {
        MaskRowCells(r, clo, chi, m);
        r := r + 1;
      }
      assert rows == MaskRect(g0.rows, rlo, rhi, clo, chi, m);
    }

    /** Cell (r, c) spans `n` rows; walks the rows gained and the rows lost. */
    method SetCellRowSpan(r: nat, c: nat, n: nat)
      requires CellSpansFit(View(), r, c) && r + n <= rowCount
      modifies this
      ensures View() == old(View()).(rows := RowSpanCells(old(rows), r, c, n))
    {
      var d := rows[r].data[c];
      rows := SetCell(rows, r, c, d.(rowspan := n));
      MaskRectangle(r + d.rowspan, r + n, c, c + d.colspan, true);
      MaskRectangle(r + n, r + d.rowspan, c, c + d.colspan, false);
    }

    /** Cell (r, c) spans `n` columns; walks the columns gained and lost. */
    method SetCellColSpan(r: nat, c: nat, n: nat)
      requires CellSpansFit(View(), r, c) && c + n <= colCount
      modifies this
      ensures View() == old(View()).(rows := ColSpanCells(old(rows), r, c, n))
    {
      var d := rows[r].data[c];
      rows := SetCell(rows, r, c, d.(colspan := n));
      MaskRectangle(r, r + d.rowspan, c + d.colspan, c + n, true);
      MaskRectangle(r, r + d.rowspan, c + n, c + d.colspan, false);
    }

    /** Row group `i` spans `n` groups, the group vector sized on first use. */
    method SetRowGroupSpan(i: nat, n: nat)
      requires GroupSpanFits(GroupsInUse(rowGroups, rowCount), i, n)
      modifies this
      ensures View() == old(View()).(rowGroups := GroupSpan(old(GroupsInUse(rowGroups, rowCount)), i, n))
    {
      if |rowGroups| == 0 {
        rowGroups := Resized(rowGroups, rowCount, DefaultGroup);
      }
      var prior := rowGroups[i].span;
      rowGroups := rowGroups[i := rowGroups[i].(span := n)];
      if prior != n {
        rowGroups := MaskGroupRange(rowGroups, i, prior, n, true);
        rowGroups := MaskGroupRange(rowGroups, i, n, prior, false);
      }
    }

    /** Column group `i` spans `n` groups, the group vector sized on first use. */
    method SetColGroupSpan(i: nat, n: nat)
      requires GroupSpanFits(GroupsInUse(colGroups, colCount), i, n)
      modifies this
      ensures View() == old(View()).(colGroups := GroupSpan(old(GroupsInUse(colGroups, colCount)), i, n))
    {
      if |colGroups| == 0 {
        colGroups := Resized(colGroups, colCount, DefaultGroup);
      }
      var prior := colGroups[i].span;
      colGroups := colGroups[i := colGroups[i].(span := n)];
      if prior != n {
        colGroups := MaskGroupRange(colGroups, i, prior, n, true);
        colGroups := MaskGroupRange(colGroups, i, n, prior, false);
      }
    }

    /** Resizes row `r` to `size` cells and gives each cell from `lo` on an
        empty text widget. */
    method GrowRowAt(r: nat, size: nat, lo: nat)
      requires r < |rows|
      modifies this
      ensures View() == old(View()).(rows := old(rows)[r := GrowRow(old(rows)[r], size, lo)])
    {
      var base := Resized(rows[r].data, size, DefaultCell);
      rows := rows[r := TableRow(base)];
      var c := lo;
      assert AddBlank(base, lo, c) == base;
      while c < size
        invariant lo <= c && (c <= size || c == lo)
        invariant View() == old(View()).(rows := old(rows)[r := TableRow(AddBlank(base, lo, c))])
      {
        AddChildAt(r, c, Text(""));
        assert rows[r].data == AddBlank(base, lo, c + 1);
        c := c + 1;
      }
      assert AddBlank(base, lo, c) == AddBlank(base, lo, size);
    }

    /** The column step of a resize. */
    method ResizeColumns(newRows: nat, newCols: nat)
      modifies this
      ensures View() == ResizeCols(old(View()), newRows, newCols)
    {
      if newCols != colCount {
        ghost var g0 := View();
        var r := 0;
        while r < |rows| && r < newRows
          invariant r <= |rows| == |g0.rows| && r <= newRows
          invariant View() == g0.(rows := rows)
          invariant forall i :: 0 <= i < |rows| ==>
            rows[i] == if i < r then GrowRow(g0.rows[i], newCols, g0.colCount) else g0.rows[i]
        {
          GrowRowAt(r, newCols, colCount);
          r := r + 1;
        }
        assert rows == seq(|g0.rows|, i requires 0 <= i < |g0.rows| =>
                   if i < newRows then GrowRow(g0.rows[i], newCols, g0.colCount) else g0.rows[i]);
        colCount := newCols;
        if |cols| > 0 { cols := Resized(cols, newCols, TableCol); }
        if |colGroups| > 0 { colGroups := Resized(colGroups, newCols, DefaultGroup); }
      }
    }

    /** The row step of a resize. */
    method ResizeRowCount(newRows: nat)
      modifies this
      ensures View() == ResizeRows(old(View()), newRows)
    {
      if newRows != rowCount {
        ghost var g1 := View();
        rows := Resized(rows, newRows, TableRow([]));
        ghost var rs := rows;
        var r := rowCount;
        while r < newRows
          invariant rowCount <= r && (r <= newRows || r == rowCount)
          invariant View() == g1.(rows := rows)
          invariant |rows| == newRows
          invariant forall i :: 0 <= i < newRows ==>
            rows[i] == if rowCount <= i < r then GrowRow(rs[i], colCount, 0) else rs[i]
        {
          GrowRowAt(r, colCount, 0);
          r := r + 1;
        }
        assert rows == seq(newRows, i requires 0 <= i < newRows =>
                   if g1.rowCount <= i then GrowRow(rs[i], g1.colCount, 0) else rs[i]);
        rowCount := newRows;
        if |rowGroups| > 0 { rowGroups := Resized(rowGroups, newRows, DefaultGroup); }
      }
    }

    /** Resizes the grid to `newRows` by `newCols`: columns first, on the rows
        that remain, then rows, with each new cell holding an empty text. */
    method Resize(newRows: nat, newCols: nat)
      modifies this
      ensures View() == ResizeGrid(old(View()), newRows, newCols)
    {
      ResizeColumns(newRows, newCols);
      ResizeRowCount(newRows);
    }
  }

  /** Sets the mask flag of groups `base + i` for i in [lo, hi), one at a time. */
  method MaskGroupRange(gs: seq<TableGroup>, base: nat, lo: nat, hi: nat, m: bool) returns (r: seq<TableGroup>)
    requires lo < hi ==> base + hi <= |gs|
    ensures r == MaskGroups(gs, base + lo, base + hi, m)
  {
    r := gs;
    var i := lo;
    assert MaskGroups(gs, base + lo, base + i, m) == gs;
    while i < hi
      invariant lo <= i && (i <= hi || i == lo)
      invariant r == MaskGroups(gs, base + lo, base + i, m)
    {
      r := r[base + i := r[base + i].(masked := m)];
      i := i + 1;
    }
    assert MaskGroups(gs, base + lo, base + i, m) == MaskGroups(gs, base + lo, base + hi, m);
  }

  /** A handle on a table: the shared grid, the cursor and the focus. */
  class Table {
    const info: TableInfo
    var curRow: nat
    var curCol: nat
    var state: State

    /** A new `r` by `c` table, focused on the whole table at (0, 0). */
    constructor(r: nat, c: nat)
      requires c > 0 && r > 0
      ensures fresh(info) && info.View() == ResizeGrid(EmptyGrid, r, c)
      ensures curRow == 0 && curCol == 0 && state == InTable
    {
      curRow, curCol, state := 0, 0, InTable;
      var i := new TableInfo();
      i.Resize(r, c);
      info := i;
    }

    /** The append cell becomes the cursor's cell. */
    method PrepareAppend()
      modifies info
      ensures info.View() == old(info.View()).(appendRow := curRow, appendCol := curCol)
    {
      info.appendRow := curRow;
      info.appendCol := curCol;
    }

    /** Sets the number of rows; a cursor row that is now out of range goes to 0. */
    method Rows(r: nat)
      modifies this, info
      ensures info.View() == ResizeGrid(old(info.View()), r, old(info.colCount))
      ensures curRow == ResetIndex(old(curRow), r) && curCol == old(curCol) && state == old(state)
    {
      info.Resize(r, info.colCount);
      if curRow >= r { curRow := 0; }
    }

    /** Sets the number of columns; a cursor column that is now out of range goes to 0. */
    method Cols(c: nat)
      modifies this, info
      ensures info.View() == ResizeGrid(old(info.View()), old(info.rowCount), c)
      ensures curCol == ResetIndex(old(curCol), c) && curRow == old(curRow) && state == old(state)
    {
      info.Resize(info.rowCount, c);
      if curCol >= c { curCol := 0; }
    }

    method Resize(r: nat, c: nat)
      modifies this, info
      ensures info.View() == ResizeGrid(old(info.View()), r, c)
      ensures curRow == ResetIndex(old(curRow), r) && curCol == ResetIndex(old(curCol), c)
      ensures state == old(state)
    {
      info.Resize(r, c);
      if curRow >= r { curRow := 0; }
      if curCol >= c { curCol := 0; }
    }

    method SetCellActive(r: nat, c: nat)
      requires r < info.rowCount && c < info.colCount
      modifies this
      ensures curRow == r && curCol == c && state == InCell
    {
      curRow, curCol := r, c;
      state := InCell;
    }

    method SetRowActive(r: nat)
      requires r < info.rowCount
      modifies this
      ensures curRow == r && curCol == 0 && state == InRow
    {
      curRow, curCol := r, 0;
      state := InRow;
    }

    method SetColActive(c: nat)
      requires c < info.colCount
      modifies this
      ensures curRow == 0 && curCol == c && state == InCol
    {
      curCol, curRow := c, 0;
      state := InCol;
    }

    method SetRowGroupActive(r: nat)
      requires r < info.rowCount
      modifies this
      ensures curRow == r && curCol == 0 && state == InRowGroup
    {
      curRow, curCol := r, 0;
      state := InRowGroup;
    }

    method SetColGroupActive(c: nat)
      requires c < info.colCount
      modifies this
      ensures curRow == 0 && curCol == c && state == InColGroup
    {
      curCol, curRow := c, 0;
      state := InColGroup;
    }

    /** Focus on the whole table; the cursor stays where it is. */
    method SetTableActive()
      modifies this
      ensures curRow == old(curRow) && curCol == old(curCol) && state == InTable
    {
      state := InTable;
    }

    /** Marks the focused cell as a header cell or not. */
    method SetHeader(h: bool)
      requires state == InCell && curRow < |info.rows| && curCol < |info.rows[curRow].data|
      modifies info
      ensures info.View() == old(info.View()).(rows := SetCell(old(info.rows), curRow, curCol, old(info.rows[curRow].data[curCol]).(header := h)))
    {
      info.rows := SetCell(info.rows, curRow, curCol, info.rows[curRow].data[curCol].(header := h));
    }

    /** Clears what the focus names: the whole table, the cursor row, or the
        cursor cell. */
    method Clear()
      requires state == InTable || state == InRow || state == InCell
      requires state == InRow ==> curRow < |info.rows| && info.colCount <= |info.rows[curRow].data|
      requires state == InCell ==> curRow < |info.rows| && curCol < |info.rows[curRow].data|
      modifies info
      ensures state == InTable ==> info.View() == ResizeGrid(old(info.View()), 0, 0)
      ensures state == InRow ==> info.View() == ClearRowSpec(old(info.View()), curRow)
      ensures state == InCell ==> info.View() == ClearCellSpec(old(info.View()), curRow, curCol)
    {
      if state == InTable {
        info.ClearTable();
      } else if state == InRow {
        info.ClearRow(curRow);
      } else {
        info.ClearCell(curRow, curCol);
      }
    }

    /** Clears the cells that the focus names, keeping the table's size. */
    method ClearCells()
      requires state == InTable || state == InRow || state == InCell
      requires state == InTable ==>
        info.rowCount <= |info.rows| && forall r :: 0 <= r < info.rowCount ==> info.colCount <= |info.rows[r].data|
      requires state == InRow ==> curRow < |info.rows| && info.colCount <= |info.rows[curRow].data|
      requires state == InCell ==> curRow < |info.rows| && curCol < |info.rows[curRow].data|
      modifies info
      ensures state == InTable ==> info.View() == ClearCellsSpec(old(info.View()))
      ensures state == InRow ==> info.View() == ClearRowSpec(old(info.View()), curRow)
      ensures state == InCell ==> info.View() == ClearCellSpec(old(info.View()), curRow, curCol)
    {
      if state == InTable {
        info.ClearTableCells();
      } else if state == InRow {
        info.ClearRowCells(curRow);
      } else {
        info.ClearCell(curRow, curCol);
      }
    }

    /** The focused cell spans `n` rows, or the focused row group spans `n`
        groups; newly covered cells or groups are masked and those no longer
        covered are unmasked. */
    method SetRowSpan(n: nat)
      requires curRow + n <= info.rowCount
      requires state == InCell || state == InRowGroup
      requires state == InCell ==> CellSpansFit(info.View(), curRow, curCol)
      requires state == InRowGroup ==> GroupSpanFits(GroupsInUse(info.rowGroups, info.rowCount), curRow, n)
      modifies info
      ensures state == InCell ==>
        info.View() == old(info.View()).(rows := RowSpanCells(old(info.rows), curRow, curCol, n))
      ensures state == InRowGroup ==>
        info.View() == old(info.View()).(rowGroups := GroupSpan(GroupsInUse(old(info.rowGroups), old(info.rowCount)), curRow, n))
    {
      if state == InCell {
        info.SetCellRowSpan(curRow, curCol, n);
      } else {
        info.SetRowGroupSpan(curRow, n);
      }
    }

    /** The column-wise mirror of SetRowSpan. */
    method SetColSpan(n: nat)
      requires curCol + n <= info.colCount
      requires state == InCell || state == InColGroup
      requires state == InCell ==> CellSpansFit(info.View(), curRow, curCol)
      requires state == InColGroup ==> GroupSpanFits(GroupsInUse(info.colGroups, info.colCount), curCol, n)
      modifies info
      ensures state == InCell ==>
        info.View() == old(info.View()).(rows := ColSpanCells(old(info.rows), curRow, curCol, n))
      ensures state == InColGroup ==>
        info.View() == old(info.View()).(colGroups := GroupSpan(GroupsInUse(old(info.colGroups), old(info.colCount)), curCol, n))
    {
      if state == InCell {
        info.SetCellColSpan(curRow, curCol, n);
      } else {
        info.SetColGroupSpan(curCol, n);
      }
    }

    /** The span of the focused group, rows or columns by the focus. */
    method SetSpan(n: nat)
      requires state == InRowGroup || state == InColGroup
      requires state == InRowGroup ==>
        curRow + n <= info.rowCount && GroupSpanFits(GroupsInUse(info.rowGroups, info.rowCount), curRow, n)
      requires state == InColGroup ==>
        curCol + n <= info.colCount && GroupSpanFits(GroupsInUse(info.colGroups, info.colCount), curCol, n)
      modifies info
      ensures state == InRowGroup ==>
        info.View() == old(info.View()).(rowGroups := GroupSpan(GroupsInUse(old(info.rowGroups), old(info.rowCount)), curRow, n))
      ensures state == InColGroup ==>
        info.View() == old(info.View()).(colGroups := GroupSpan(GroupsInUse(old(info.colGroups), old(info.colCount)), curCol, n))
    {
      if state == InRowGroup {
        SetRowSpan(n);
      } else {
        SetColSpan(n);
      }
    }

    /** Both spans of the focused cell: rows first, then columns, each
        masking and unmasking as its own setter does. */
    method SetSpans(rowSpan: nat, colSpan: nat)
      requires state == InCell
      requires curRow + rowSpan <= info.rowCount && curCol + colSpan <= info.colCount
      requires CellSpansFit(info.View(), curRow, curCol)
      modifies info
      ensures info.View() == old(info.View()).(rows :=
        ColSpanCells(RowSpanCells(old(info.rows), curRow, curCol, rowSpan), curRow, curCol, colSpan))
    {
      ghost var g0 := info.View();
      SetRowSpan(rowSpan);
      RowSpanKeepsShape(g0.rows, curRow, curCol, rowSpan);
      assert CellSpansFit(info.View(), curRow, curCol);
      SetColSpan(colSpan);
    }

    /** The validator: the cursor is inside the table and the grid passes. */
    predicate OK()
      reads this, info
    {
      curRow < info.rowCount && curCol < info.colCount && info.OK()
    }
  }
}
