/** The older fixed-size pager (ArrayTableViewer in viewWindows.py): the
    signal is cut into chunks of chunkSize samples and a rows x columns
    table shows the chunk the scroll bar selects, filled row by row. The
    table holds the sample a cell shows (its text is str() of it), or None
    for an empty cell. */
module ChunkPager {
  import opened Util

  /** The cell size initUI fixes, in pixels. */
  const CellWidth: nat := 75
  const CellHeight: nat := 20

  /** (total + chunkSize - 1) // chunkSize, the chunk count __init__ stores. */
  function TotalChunks(total: nat, chunkSize: nat): (c: nat)
    requires chunkSize >= 1
  {
    (total + chunkSize - 1) / chunkSize
  }

  /** The rounding-up division is the ceiling of total / chunkSize. */
  lemma TotalChunksIsCeiling(total: nat, chunkSize: nat)
    requires chunkSize >= 1
    ensures TotalChunks(total, chunkSize) == CeilDiv(total, chunkSize)
  {
    var q := TotalChunks(total, chunkSize);
    var m := total + chunkSize - 1;
    assert m == q * chunkSize + m % chunkSize;
    if q > 0 {
      assert (q - 1) * chunkSize == q * chunkSize - chunkSize;
    }
    CeilDivUnique(total, chunkSize, q);
  }

  /** The table position (i, j) in row-major order. */
  function Flat(i: nat, j: nat, columns: nat): nat { i * columns + j }

  /** The index update_display reads for cell (i, j) of chunk k. */
  function CellIndex(k: nat, chunkSize: nat, i: nat, j: nat, columns: nat): nat
  {
    k * chunkSize + Flat(i, j, columns)
  }

  /** The end of chunk k: min(start + chunkSize, total). */
  function ChunkEndOf(k: nat, chunkSize: nat, total: nat): nat
  {
    Min(k * chunkSize + chunkSize, total)
  }

  /** What update_display leaves in cell (i, j) for chunk k: the sample
      when its index is before the chunk end, nothing otherwise. */
  function Shown(data: seq<real>, k: nat, chunkSize: nat, columns: nat, i: nat, j: nat): Option<real>
  {
    var idx := CellIndex(k, chunkSize, i, j, columns);
    if idx < ChunkEndOf(k, chunkSize, |data|) then Some(data[idx]) else None
  }

  /** Cells left of a position in the same row have smaller indices, and
      every cell of a later row a larger one. */
  lemma FlatOrder(i: nat, j: nat, i2: nat, j2: nat, columns: nat)
    requires j < columns && j2 < columns
    ensures (i < i2 || (i == i2 && j <= j2)) ==> Flat(i, j, columns) <= Flat(i2, j2, columns)
  {
    if i < i2 {
      MulMonotone(i + 1, i2, columns);
    }
  }

  /** initUI's window size: the cells plus the header, scroll bar and
      label extents plus fixed margins of 60 and 95 pixels. */
  function WindowSize(rows: nat, columns: nat, verticalHeaderWidth: nat, horizontalHeaderHeight: nat,
                      scrollBarWidth: nat, labelHeight: nat): (size: (nat, nat))
    ensures size.0 >= CellWidth * columns + 60 && size.1 >= CellHeight * rows + 95
  {
    (CellWidth * columns + verticalHeaderWidth + scrollBarWidth + 60,
     CellHeight * rows + horizontalHeaderHeight + labelHeight + 95)
  }

  /** What adjust_window_size is for: every cell of the table, placed
      after the vertical header and below the label and the horizontal
      header, lies inside the window, with the scroll bar beside it. */
  lemma CellsFitInWindow(rows: nat, columns: nat, vw: nat, hh: nat, sw: nat, lh: nat, i: nat, j: nat)
    requires i < rows && j < columns
    ensures vw + (j + 1) * CellWidth + sw <= WindowSize(rows, columns, vw, hh, sw, lh).0
    ensures lh + hh + (i + 1) * CellHeight <= WindowSize(rows, columns, vw, hh, sw, lh).1
  {
  }

  class ChunkTableViewer {
    const data: seq<real>
    const chunkSize: nat
    const rows: nat
    const columns: nat
    const totalChunks: nat
    /** The table widget's cells. */
    const table: array2<Option<real>>
    var scrollMaximum: int

    ghost predicate Valid()
      reads this
    {
      && chunkSize >= 1
      && table.Length0 == rows && table.Length1 == columns
      && totalChunks == TotalChunks(|data|, chunkSize)
    }

    /** __init__ and initUI: the chunk count, an empty rows x columns table,
        the scroll range 0 .. totalChunks - 1 and chunk 0 on display. */
    constructor (data: seq<real>, chunkSize: nat, rows: nat, columns: nat)
      requires chunkSize >= 1
      ensures Valid() && fresh(table)
      ensures this.data == data && this.chunkSize == chunkSize && this.rows == rows && this.columns == columns
      ensures scrollMaximum == totalChunks - 1
      ensures forall i, j :: 0 <= i < rows && 0 <= j < columns ==> table[i, j] == Shown(data, 0, chunkSize, columns, i, j)
    {
      this.data := data;
      this.chunkSize := chunkSize;
      this.rows := rows;
      this.columns := columns;
      totalChunks := TotalChunks(|data|, chunkSize);
      table := new Option<real>[rows, columns]((_, _) => None);
      scrollMaximum := TotalChunks(|data|, chunkSize) - 1;
      new;
      UpdateDisplay(0);
    }

    /** update_display(k): clears the table, then fills it row by row with
        chunk k; a row stops at the first index past the chunk end. */
    method UpdateDisplay(k: nat)
      requires Valid()
      modifies table
      ensures forall i, j :: 0 <= i < rows && 0 <= j < columns ==> table[i, j] == Shown(data, k, chunkSize, columns, i, j)
    {
      forall i, j | 0 <= i < rows && 0 <= j < columns {
        table[i, j] := None;
      }
      var start := k * chunkSize;
      var end := Min(start + chunkSize, |data|);
      var i := 0;
      while i < rows
        invariant 0 <= i <= rows
        invariant forall r, c :: 0 <= r < i && 0 <= c < columns ==> table[r, c] == Shown(data, k, chunkSize, columns, r, c)
        invariant forall r, c :: i <= r < rows && 0 <= c < columns ==> table[r, c] == None
      {
        var j := 0;
        while j < columns
          invariant 0 <= j <= columns
          invariant forall r, c :: 0 <= r < i && 0 <= c < columns ==> table[r, c] == Shown(data, k, chunkSize, columns, r, c)
          invariant forall c :: 0 <= c < j ==> table[i, c] == Shown(data, k, chunkSize, columns, i, c)
          invariant forall r, c :: i <= r < rows && 0 <= c < columns && (r > i || c >= j) ==> table[r, c] == None
        {
          var index := start + (i * columns + j);
          assert index == CellIndex(k, chunkSize, i, j, columns);
          if index < end {
            table[i, j] := Some(data[index]);
          } else {
            PastEndStaysPast(k, chunkSize, |data|, columns, i, j);
            break;
          }
          j := j + 1;
        }
        i := i + 1;
      }
    }
  }

  /** Once a row reaches the chunk end, the rest of that row is past it too,
      so breaking out of the row leaves those cells empty as required. */
  lemma PastEndStaysPast(k: nat, chunkSize: nat, total: nat, columns: nat, i: nat, j: nat)
    requires j < columns && CellIndex(k, chunkSize, i, j, columns) >= ChunkEndOf(k, chunkSize, total)
    ensures forall c :: j <= c < columns ==> CellIndex(k, chunkSize, i, c, columns) >= ChunkEndOf(k, chunkSize, total)
  {
    forall c | j <= c < columns
      ensures CellIndex(k, chunkSize, i, c, columns) >= ChunkEndOf(k, chunkSize, total)
    {
      FlatOrder(i, j, i, c, columns);
    }
  }

  /** A cell is filled exactly when its index is inside the chunk, and then
      with that sample: the signal is never read at or past the chunk end. */
  lemma ShownIsInsideChunk(data: seq<real>, k: nat, chunkSize: nat, columns: nat, i: nat, j: nat)
    ensures Shown(data, k, chunkSize, columns, i, j).Some? <==>
      k * chunkSize <= CellIndex(k, chunkSize, i, j, columns) < ChunkEndOf(k, chunkSize, |data|)
    ensures Shown(data, k, chunkSize, columns, i, j).Some? ==>
      CellIndex(k, chunkSize, i, j, columns) < |data| &&
      Shown(data, k, chunkSize, columns, i, j).value == data[CellIndex(k, chunkSize, i, j, columns)]
  {
  }

  /** With chunks larger than the table, a full chunk's sample at offset
      rows * columns is in the chunk but shown in no cell. */
  lemma ChunkTailHidden(data: seq<real>, k: nat, chunkSize: nat, rows: nat, columns: nat)
    requires rows * columns < chunkSize && k * chunkSize + chunkSize <= |data|
    ensures var hidden := k * chunkSize + rows * columns;
      && hidden < ChunkEndOf(k, chunkSize, |data|)
      && forall i, j :: 0 <= i < rows && 0 <= j < columns ==> CellIndex(k, chunkSize, i, j, columns) != hidden
  {
    forall i, j | 0 <= i < rows && 0 <= j < columns
      ensures CellIndex(k, chunkSize, i, j, columns) < k * chunkSize + rows * columns
    {
      FlatOrder(i, j, rows - 1, columns - 1, columns);
      assert Flat(rows - 1, columns - 1, columns) == rows * columns - 1;
    }
  }
}
