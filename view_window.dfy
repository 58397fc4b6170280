/** The paged signal table (ArrayTableViewer and NumpyTableModel in
    viewWindow.py): the widget size decides how many rows and columns of
    cells fit, the signal is cut into pages of rows * columns samples, and
    the scroll bar selects the page. The last page is filled up with NaN.
    A reshaped page is kept flat, in row-major order: cell (r, c) is entry
    r * columns + c. */
module TableView {
  import opened Util

  /** CELL_WIDTH and CELL_HEIGHT, in pixels. */
  const CellWidth: nat := 75
  const CellHeight: nat := 20

  datatype Orientation = Horizontal | Vertical

  /** Qt's DisplayRole, or any other role. */
  datatype Role = Display | OtherRole

  // ---------------------------------------------------------------- NumpyTableModel

  /** The table model: the page, its shape and the two header lists. */
  datatype TableModel = TableModel(cells: seq<Sample>, rows: nat, cols: nat,
                                   rowNames: seq<int>, columnNames: seq<int>)

  /** __get_header: the given names when there are some and they are
      exactly count of them, otherwise 0 .. count-1. */
  function Header(names: Option<seq<int>>, count: nat): (r: seq<int>)
    ensures |r| == count
    ensures names.Some? && |names.value| == count ==> r == names.value
    ensures names.None? || |names.value| != count ==> forall i :: 0 <= i < count ==> r[i] == i
  {
    if names.Some? && |names.value| > 0 && |names.value| == count then names.value
    else seq(count, i => i)
  }

  /** NumpyTableModel(data, rownames, columnnames). Both header lists are
      sized by the row count. */
  function NewTableModel(cells: seq<Sample>, rows: nat, cols: nat,
                         rowNames: Option<seq<int>>, columnNames: Option<seq<int>>): (m: TableModel)
    requires |cells| == rows * cols
    ensures RowCount(m) == rows && ColumnCount(m) == cols && m.cells == cells
    ensures |m.rowNames| == rows && |m.columnNames| == rows
  {
    TableModel(cells, rows, cols, Header(rowNames, rows), Header(columnNames, rows))
  }

  function RowCount(m: TableModel): nat { m.rows }

  function ColumnCount(m: TableModel): nat { m.cols }

  /** Cell (r, c) of the reshaped page. */
  function Cell(m: TableModel, r: nat, c: nat): Sample
    requires |m.cells| == m.rows * m.cols && r < m.rows && c < m.cols
  {
    FlatIndexBound(r, c, m.rows, m.cols);
    m.cells[r * m.cols + c]
  }

  lemma FlatIndexBound(r: nat, c: nat, rows: nat, cols: nat)
    requires r < rows && c < cols
    ensures r * cols + c < rows * cols
  {
    MulMonotone(r + 1, rows, cols);
  }

  /** The header list for an orientation. */
  function Names(m: TableModel, orientation: Orientation): seq<int>
  {
    match orientation
    case Vertical => m.rowNames
    case Horizontal => m.columnNames
  }

  /** headerData: for the display role, the name of a section the header
      list covers; None otherwise. */
  function HeaderData(m: TableModel, section: nat, orientation: Orientation, role: Role): (r: Option<int>)
    ensures r.Some? <==> role == Display && section < |Names(m, orientation)|
    ensures r.Some? ==> r.value == Names(m, orientation)[section]
  {
    if role != Display then None
    else if orientation == Vertical && section < |m.rowNames| then Some(m.rowNames[section])
    else if orientation == Horizontal && section < |m.columnNames| then Some(m.columnNames[section])
    else None
  }

  /** Column headers follow the row count: with more columns than rows the
      columns past the row count have no header, and the names are the
      column numbers. */
  lemma ColumnHeadersSizedByRows(cells: seq<Sample>, rows: nat, cols: nat, rowNames: Option<seq<int>>, c: nat)
    requires |cells| == rows * cols && c < cols
    ensures var m := NewTableModel(cells, rows, cols, rowNames, None);
      && (c >= rows ==> HeaderData(m, c, Horizontal, Display) == None)
      && (c < rows ==> HeaderData(m, c, Horizontal, Display) == Some(c))
  {
  }

  // ---------------------------------------------------------------- paging

  /** update_bin_attr's row count for a table height: three quarters of
      the height (rounded up) in cells, at least one. */
  function RowsFor(height: nat): (r: nat)
    ensures r >= 1
    ensures r == 1 || r * CellHeight <= height - height / 4 < (r + 1) * CellHeight
  {
    Max((height - height / 4) / CellHeight, 1)
  }

  /** update_bin_attr's column count for a table width, at least one. */
  function ColsFor(width: nat): (c: nat)
    ensures c >= 1
    ensures c == 1 || c * CellWidth <= width < (c + 1) * CellWidth
  {
    Max(width / CellWidth, 1)
  }

  /** update_table's page index: lowered to nBins - 1 when above it, and
      never raised. */
  function ClampPage(binIdx: int, nBins: nat): (k: int)
    ensures k <= nBins - 1 && k <= binIdx
    ensures binIdx <= nBins - 1 ==> k == binIdx
    ensures binIdx > nBins - 1 ==> k == nBins - 1
  {
    if binIdx > nBins - 1 then nBins - 1 else binIdx
  }

  /** The slice start and end of page k. */
  function PageStart(k: int, binSize: nat): int { k * binSize }

  function PageEnd(k: int, binSize: nat, n: nat): int { Min(k * binSize + binSize, n) }

  /** The samples of page k: full_data[start:end], padded with NaN up to
      binSize when shorter. */
  function PageSamples(data: seq<real>, k: int, binSize: nat): seq<Sample>
  {
    var sub := AsSamples(PySlice(data, PageStart(k, binSize), PageEnd(k, binSize, |data|)));
    if |sub| < binSize then sub + seq(binSize - |sub|, _ => None) else sub
  }

  /** update_table's row labels: the data index of each row's first cell. */
  function RowLabels(start: int, rows: nat, cols: nat): (r: seq<int>)
    ensures |r| == rows
  {
    seq(rows, i => start + i * cols)
  }

  /** The table model update_table builds for page k. */
  function PageModel(data: seq<real>, rows: nat, cols: nat, k: int): TableModel
    requires rows >= 1 && cols >= 1 && k <= CeilDiv(|data|, rows * cols) - 1
  {
    PageSize(data, rows * cols, k);
    NewTableModel(PageSamples(data, k, rows * cols), rows, cols,
                  Some(RowLabels(PageStart(k, rows * cols), rows, cols)), None)
  }

  /** A page that update_table can reach starts no later than it ends and
      spans at most binSize indices; a page 0 <= k < nBins lies inside the
      signal and is not empty. */
  lemma PageBounds(n: nat, b: nat, k: int)
    requires b >= 1 && k <= CeilDiv(n, b) - 1
    ensures PageStart(k, b) <= PageEnd(k, b, n) <= PageStart(k, b) + b
    ensures k >= 0 ==> 0 <= PageStart(k, b) < PageEnd(k, b, n) <= n
  {
    var c := CeilDiv(n, b);
    CeilDivBounds(n, b);
    if k >= 0 {
      MulMonotone(k, c - 1, b);
    } else {
      MulNegative(k, b);
    }
  }

  lemma MulNegative(k: int, b: nat)
    requires k < 0
    ensures k * b <= 0
  {
  }

  /** A page that update_table can reach holds exactly binSize samples. */
  lemma PageSize(data: seq<real>, binSize: nat, k: int)
    requires binSize >= 1 && k <= CeilDiv(|data|, binSize) - 1
    ensures |PageSamples(data, k, binSize)| == binSize
  {
    var start, end := PageStart(k, binSize), PageEnd(k, binSize, |data|);
    PageBounds(|data|, binSize, k);
    PySliceLength(data, start, end);
  }

  /** Entry o of page k (0 <= k < nBins) is the sample at start + o when
      that is before the page end, and NaN padding otherwise. */
  lemma PageSampleAt(data: seq<real>, b: nat, k: nat, o: nat)
    requires b >= 1 && k < CeilDiv(|data|, b) && o < b
    ensures PageStart(k, b) + o < PageEnd(k, b, |data|) ==>
      PageSamples(data, k, b)[o] == Some(data[PageStart(k, b) + o])
    ensures PageStart(k, b) + o >= PageEnd(k, b, |data|) ==> PageSamples(data, k, b)[o] == None
  {
    var start, end := PageStart(k, b), PageEnd(k, b, |data|);
    PageBounds(|data|, b, k);
    PageSize(data, b, k);
    var sub := PySlice(data, start, end);
    assert sub == data[start..end];
  }

  /** Cell (r, c) of page k (0 <= k < nBins) holds the sample at
      start + r * cols + c when that is before the page end, and NaN
      padding otherwise; row r is labelled start + r * cols. */
  lemma PageCell(data: seq<real>, rows: nat, cols: nat, k: nat, r: nat, c: nat)
    requires rows >= 1 && cols >= 1 && k < CeilDiv(|data|, rows * cols)
    requires r < rows && c < cols
    ensures var m := PageModel(data, rows, cols, k);
      var i := PageStart(k, rows * cols) + r * cols + c;
      && m.rowNames[r] == PageStart(k, rows * cols) + r * cols
      && (i < PageEnd(k, rows * cols, |data|) ==> 0 <= i < |data| && Cell(m, r, c) == Some(data[i]))
      && (i >= PageEnd(k, rows * cols, |data|) ==> Cell(m, r, c) == None)
  {
    var b := rows * cols;
    FlatIndexBound(r, c, rows, cols);
    var o := r * cols + c;
    PageSampleAt(data, b, k, o);
    PageBounds(|data|, b, k);
  }

  /** Every sample is shown exactly where its index says: sample i is in
      page i / binSize, row (i % binSize) / cols, column (i % binSize) % cols. */
  lemma EverySampleShown(data: seq<real>, rows: nat, cols: nat, i: nat)
    requires rows >= 1 && cols >= 1 && i < |data|
    ensures var b := rows * cols;
      && i / b < CeilDiv(|data|, b)
      && (i % b) / cols < rows
      && Cell(PageModel(data, rows, cols, i / b), (i % b) / cols, (i % b) % cols) == Some(data[i])
  {
    var b := rows * cols;
    MulMonotone(1, rows, cols);
    var k, o := i / b, i % b;
    var r, c := o / cols, o % cols;
    ChunkIndexOf(i, k, b, |data|);
    RowOfOffset(o, rows, cols);
    PageCell(data, rows, cols, k, r, c);
    OffsetInPage(i, b, |data|);
  }

  /** Index i lies before the end of its page. */
  lemma OffsetInPage(i: nat, b: nat, n: nat)
    requires b >= 1 && i < n
    ensures PageStart(i / b, b) + i % b == i < PageEnd(i / b, b, n)
  {
  }

  /** The chunk containing index i is below the chunk count. */
  lemma ChunkIndexOf(i: nat, k: nat, b: nat, n: nat)
    requires b >= 1 && i < n && k == i / b
    ensures k < CeilDiv(n, b)
  {
    CeilDivBounds(n, b);
    var c := CeilDiv(n, b);
    if k >= c {
      MulMonotone(c, k, b);
      assert false;
    }
  }

  /** An offset inside a page of rows * cols cells splits into a row below
      rows and a column below cols. */
  lemma RowOfOffset(o: nat, rows: nat, cols: nat)
    requires cols >= 1 && o < rows * cols
    ensures o / cols < rows && o == (o / cols) * cols + o % cols
  {
    if o / cols >= rows {
      MulMonotone(rows, o / cols, cols);
      assert false;
    }
  }

  // ---------------------------------------------------------------- ArrayTableViewer

  class ArrayTableViewer {
    const fullData: seq<real>
    var numRows: nat
    var numCols: nat
    var binSize: nat
    var nBins: nat
    /** The model shown in the table widget. */
    var model: TableModel
    /** The scroll bar's range and value. */
    var scrollMinimum: int
    var scrollMaximum: int
    var scrollValue: int

    /** The page geometry agrees with the row and column counts. */
    ghost predicate Valid()
      reads this
    {
      && numRows >= 1 && numCols >= 1
      && binSize == numRows * numCols
      && nBins == CeilDiv(|fullData|, binSize)
    }

    /** The table shows the page the scroll bar is on, and the scroll bar's
        value lies in its range, which ends at the last page. */
    ghost predicate ShowsScrolledPage()
      reads this
      requires Valid()
    {
      && scrollMinimum <= scrollValue <= scrollMaximum == nBins - 1
      && model == PageModel(fullData, numRows, numCols, ClampPage(scrollValue, nBins))
    }

    /** __init__ with initUI: the geometry for the table's size, page 0 and
        the scroll bar range 0 .. nBins - 1 (Qt lowers the minimum to -1 when
        there are no pages). An empty signal only shows a message box and
        goes on. */
    constructor (data: seq<real>, width: nat, height: nat)
      ensures fullData == data && Valid() && ShowsScrolledPage()
      ensures numRows == RowsFor(height) && numCols == ColsFor(width)
      ensures scrollValue == (if nBins == 0 then -1 else 0)
    {
      fullData := data;
      new;
      UpdateBinAttr(width, height);
      UpdateTable(0);
      scrollMinimum := Min(0, nBins - 1);
      scrollMaximum := nBins - 1;
      scrollValue := Min(0, nBins - 1);
    }

    /** update_bin_attr: rows and columns for the table size, then the page
        size and the page count. */
    method UpdateBinAttr(width: nat, height: nat)
      modifies this`numRows, this`numCols, this`binSize, this`nBins
      ensures Valid()
      ensures numRows == RowsFor(height) && numCols == ColsFor(width)
    {
      numRows := RowsFor(height);
      numCols := ColsFor(width);
      binSize := numRows * numCols;
      nBins := CeilDiv(|fullData|, binSize);
    }

    /** update_table(bin_idx): shows page ClampPage(bin_idx). */
    method UpdateTable(binIdx: int)
      requires Valid()
      modifies this`model
      ensures model == PageModel(fullData, numRows, numCols, ClampPage(binIdx, nBins))
    {
      var k := ClampPage(binIdx, nBins);
      var start := k * binSize;
      var end := Min((k + 1) * binSize, |fullData|);
      assert start == PageStart(k, binSize) && end == PageEnd(k, binSize, |fullData|);
      var subset := AsSamples(PySlice(fullData, start, end));
      if |subset| < binSize {
        subset := subset + seq(binSize - |subset|, _ => None);
      }
      PageSize(fullData, binSize, k);
      var labels := RowLabels(start, numRows, numCols);
      model := NewTableModel(subset, numRows, numCols, Some(labels), None);
    }

    /** update_scrollbar: range 0 .. nBins - 1 and value 0, as Qt's
        QScrollBar applies them (the minimum follows a smaller maximum, the
        value is kept inside the range). */
    method UpdateScrollbar()
      requires Valid()
      modifies this`scrollMinimum, this`scrollMaximum, this`scrollValue
      ensures scrollMaximum == nBins - 1 && scrollMinimum == Min(0, nBins - 1)
      ensures scrollValue == Min(0, nBins - 1)
    {
      scrollMinimum := 0;
      scrollMaximum := Max(scrollMaximum, 0);
      scrollMinimum := Min(scrollMinimum, nBins - 1);
      scrollMaximum := nBins - 1;
      scrollValue := Min(0, nBins - 1);
    }

    /** resizeEvent: recomputes the geometry; only when the row or column
        count changed does it show page 0 and reset the scroll bar. */
    method Resize(width: nat, height: nat)
      requires Valid() && ShowsScrolledPage()
      modifies this`numRows, this`numCols, this`binSize, this`nBins, this`model,
        this`scrollMinimum, this`scrollMaximum, this`scrollValue
      ensures Valid()
      ensures numRows == RowsFor(height) && numCols == ColsFor(width)
      ensures old(numRows) == numRows && old(numCols) == numCols ==>
        model == old(model) && scrollValue == old(scrollValue) && ShowsScrolledPage()
      ensures old(numRows) != numRows || old(numCols) != numCols ==>
        && model == PageModel(fullData, numRows, numCols, ClampPage(0, nBins))
        && scrollValue == Min(0, nBins - 1) && ShowsScrolledPage()
    {
      var oldRows, oldCols := numRows, numCols;
      UpdateBinAttr(width, height);
      if oldRows != numRows || oldCols != numCols {
        UpdateTable(0);
        UpdateScrollbar();
      }
    }

    /** The scroll bar's valueChanged signal: Qt keeps the value inside the
        range and, when it changed, update_table shows the new page. */
    method Scroll(value: int)
      requires Valid() && ShowsScrolledPage()
      modifies this`scrollValue, this`model
      ensures Valid() && ShowsScrolledPage()
      ensures scrollValue == Max(scrollMinimum, Min(value, scrollMaximum))
    {
      var v := Max(scrollMinimum, Min(value, scrollMaximum));
      if v != scrollValue {
        MoveTo(v);
      }
    }

    /** A new scroll value inside the range, and the page it selects on
        display. */
    method MoveTo(v: int)
      requires Valid() && scrollMinimum <= v <= scrollMaximum == nBins - 1
      modifies this`scrollValue, this`model
      ensures scrollValue == v && ShowsScrolledPage()
    {
      scrollValue := v;
      UpdateTable(v);
    }
  }

  /** The page arithmetic of update_bin_attr: at least one row and column,
      and nBins pages of binSize cells cover the whole signal with the last
      page not empty. */
  lemma GeometryCoversSignal(n: nat, width: nat, height: nat)
    ensures var b := RowsFor(height) * ColsFor(width);
      && b >= 1
      && CeilDiv(n, b) * b >= n
      && (n > 0 ==> (CeilDiv(n, b) - 1) * b < n)
  {
    var b := RowsFor(height) * ColsFor(width);
    MulMonotone(1, RowsFor(height), ColsFor(width));
    CeilDivBounds(n, b);
  }
}
