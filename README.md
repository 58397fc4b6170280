# pod5Viewer, modelled in Dafny

pod5Viewer is a Qt desktop viewer for nanopore POD5 files. This project
models the bookkeeping and index arithmetic inside its windows and proves
what that logic promises:

- **Main window.** The data tabs (one preview tab plus proper tabs), the
  record kept for every opened read, tab cycling and closing, and the reads
  a plot is opened for. Also the conversion of a read record for display,
  the help-string path of every row in a data tab, and the directory filter
  that picks `.pod5` files.
- **File navigator.** Hiding reads by a search prefix and a whitelist of
  read IDs, loading the tree, and the alternating sorts of files and reads.
- **Read-ID input window.** Parsing the pasted IDs, and the rule for
  overwriting them with a file's content.
- **Signal plot window.** Preparing the reads (sorting, NaN padding,
  colours, legend flags), plotting the visible reads over a ratio range
  with subsampling, and re-plotting on legend, data or zoom changes.
- **Overview strip.** Binning, min-max scaling into the widget's pixel box,
  the segments that get drawn, and the mouse and typed-input zoom state
  machine that turns pixels and data indices into ratios.
- **Paged signal table.** Rows and columns from the widget size, page
  clamping, slicing, NaN padding and reshaping, the header lists, and
  re-paging on resize.
- **Older chunk pager.** Ceiling-division chunk count, row-by-row filling
  of the table with a break at the chunk end, and the window size.

There is one module per source file:

| module | file | source |
|---|---|---|
| `Viewer` | `pod5_viewer.dfy` | `pod5Viewer.py`, tabs and the directory filter |
| `ReadData` | `read_data.dfy` | `pod5Viewer.py`, `transform_data` and `populate_tree_model` |
| `Navigator` | `file_navigator.dfy` | `fileNavigator.py` |
| `IdInput` | `id_input.dfy` | `idInputWindow.py` |
| `Figure` | `figure.dfy` | `figureWindow.py`, `FigureWindow` |
| `Overview` | `overview.dfy` | `figureWindow.py`, `OverviewWidget` |
| `TableView` | `view_window.dfy` | `viewWindow.py` |
| `ChunkPager` | `view_windows.dfy` | `viewWindows.py` |

Three modules are shared:

- `Util`: Option and Result, Python's ceiling division, `int()` of a
  float, slicing, `str.join`, and the chunking of an index range.
- `Text`: `str.strip`, `str(n)` and `int(s)`.
- `Sorting`: a stable sort with its proofs.

Objects whose methods update fields are classes:

- `OverviewWidget`, `FigureWindow`, the two `ArrayTableViewer`s,
  `FileNavigator`, `IdInputWindow` and `Pod5Viewer`.
- Each has `modifies` frames on its methods, and its loops carry invariants.

Pure computations are functions with lemmas: `scale_between`,
`transform_data`, `hide_item`, `get_ids` and the directory filter.

The following are abstracted as parameters:

- NaN is `None` in an `Option<real>` sample.
- The per-bin median and the normalisation are function parameters.
- Widget widths and heights are parameters.
- The user's answer to a question box is a parameter.
- The read records the data handler loads are passed in.

## Model

| member | source | states |
|---|---|---|
| Overview.BinSize | pod5Viewer/figureWindow.py:116-117 | `max(1, int(n / 1000))` is at least 1; it is 1 exactly when n < 2000; for n >= 1000, 1000 bins of that size fit into n and 1000 bins one sample larger do not |
| Overview.BinMedians | pod5Viewer/figureWindow.py:129 | one median per run of b samples, `ceil(len / b)` of them |
| Overview.BinMedianAt | pod5Viewer/figureWindow.py:129 | entry k is the median of the k-th run `y[k*b : min(k*b+b, len)]`, and that run is not empty |
| Overview.ChunkShift | pod5Viewer/figureWindow.py:129 | run j of `y[b:]` is run j+1 of y |
| Overview.BinnedPointCount | pod5Viewer/figureWindow.py:127-132 | binning keeps x and y aligned and keeps a read of at most 1000 samples whole; a longer read keeps between 1000 and 1999 points |
| Overview.BinnedLengthBounds | pod5Viewer/figureWindow.py:117-129 | for n > binCount samples, chunking by the bin size gives at least binCount and fewer than 2*binCount chunks |
| Overview.ChunkCountBounds | pod5Viewer/figureWindow.py:117-129 | the ceiling of n / b lies in [binCount, 2*binCount) when b*binCount <= n < (b+1)*binCount |
| Overview.OverviewExceedsBinCount | pod5Viewer/figureWindow.py:117-129 | a read of 1999 samples gets bin size 1 and so keeps 1999 points, not 1000 |
| Overview.BinReads | pod5Viewer/figureWindow.py:123-132 | the loop of set_data fails exactly when some read has no non-NaN sample; otherwise every read is binned, in order |
| Overview.NanMin | pod5Viewer/figureWindow.py:187 | `np.nanmin`: absent exactly when every sample is NaN, otherwise a sample of the series and at most every non-NaN sample |
| Overview.NanMax | pod5Viewer/figureWindow.py:188 | `np.nanmax`: absent exactly when every sample is NaN, otherwise a sample of the series and at least every non-NaN sample |
| Overview.FractionBounds | pod5Viewer/figureWindow.py:193 | `(v - min) / (max - min)` lies in [0, 1], and is 0 at the minimum and 1 at the maximum |
| Overview.FractionMonotone | pod5Viewer/figureWindow.py:193 | that fraction keeps the order of values |
| Overview.ScaleBetween | pod5Viewer/figureWindow.py:161-194 | raises on empty input and, only for non-empty input, on a == b; otherwise returns a series of the same length |
| Overview.VariesBounds | pod5Viewer/figureWindow.py:187-190 | when the non-NaN samples are not all equal, the minimum is below the maximum |
| Overview.ScaleBetweenInRange | pod5Viewer/figureWindow.py:193 | with a < b every scaled sample lies in [a, b] |
| Overview.AffineInRange | pod5Viewer/figureWindow.py:193 | the affine map sends [min, max] into [a, b] |
| Overview.ScaleBetweenEndpoints | pod5Viewer/figureWindow.py:193 | for a varying series the minimum lands on a and the maximum on b |
| Overview.ScaleBetweenMonotone | pod5Viewer/figureWindow.py:193 | with a < b the scaling keeps the order of samples |
| Overview.ScaleBetweenNaN | pod5Viewer/figureWindow.py:187-193 | NaN stays NaN and numbers stay numbers, except that a constant series becomes (a+b)/2 in every slot, NaN slots included |
| Overview.ScaleBetweenAt | pod5Viewer/figureWindow.py:193 | each number of a varying series is mapped by `a + (b-a)*(v-min)/(max-min)` |
| Overview.FlipY | pod5Viewer/figureWindow.py:156 | `-(v) + height`: same length, NaN where the input is NaN, and each flipped value plus the original is the height |
| Overview.ScaleSeriesInBox | pod5Viewer/figureWindow.py:153-157 | a read scales exactly when it has samples and the box is at least one pixel wide and high; its y pixels lie in [0, height], with a varying read's maximum at row 0 and its minimum at row height |
| Overview.ScaledArangeSpread | pod5Viewer/figureWindow.py:154 | the x-values 0..n-1 are spread evenly: value i lands at pixel i*width/(n-1), the first at 0 and the last at the width |
| Overview.AffineFromZero | pod5Viewer/figureWindow.py:193 | scaling i from [0, n-1] onto [0, width] is i*width/(n-1) |
| Overview.EvenPixelEnds | pod5Viewer/figureWindow.py:154 | the even spread starts at pixel 0 and ends at the width |
| Overview.ArangeExtremes | pod5Viewer/figureWindow.py:187-188 | the smallest of 0..n-1 is 0 and the largest n-1 |
| Overview.CountingExtremes | pod5Viewer/figureWindow.py:187-188 | a series 0, 1, ..., n-1 has minimum 0 and maximum n-1 |
| Overview.ScaleToSize | pod5Viewer/figureWindow.py:139-159 | every read is scaled in order; the call fails exactly when some read cannot be scaled, with that read's error |
| Overview.DrawnSegments | pod5Viewer/figureWindow.py:240-247 | the segment i to i+1 is drawn exactly when neither y-value is NaN; segments come in increasing order and stay in range |
| Overview.AdjustSpan | pod5Viewer/figureWindow.py:302-311 | the adjusted span is always a proper interval (start < end) |
| Overview.AdjustSpanLongDrag | pod5Viewer/figureWindow.py:302-311 | a drag of at least 10 pixels selects exactly its ordered ends in either direction; a click selects the pixels on either side of it |
| Overview.ShortDragIgnoresPosition | pod5Viewer/figureWindow.py:308-311 | a drag shorter than 10 pixels selects (d//2 - 1, d//2 + 1) wherever it is made |
| Overview.ReleaseSpan | pod5Viewer/figureWindow.py:302-316 | the clamped span lies in [0, N]; it is proper exactly when the adjusted span overlaps (0, N); a span already inside is kept |
| Overview.ReleaseSpanReversed | pod5Viewer/figureWindow.py:314-316 | clamping pixels to data units reverses the span: a drag 600-700 over 500 samples gives (600, 500) |
| Overview.ReleaseRatios | pod5Viewer/figureWindow.py:318-320 | the emitted start ratio is never negative and the end ratio never exceeds N / width |
| Overview.ReleaseRatiosLongDrag | pod5Viewer/figureWindow.py:302-320 | a long drag inside [0, N] emits its ordered ends divided by the width |
| Overview.ZoomBounds | pod5Viewer/figureWindow.py:349-353 | an ordered pair is clamped to [0, N]; a reversed pair collapses onto x2, clamped |
| Overview.ZoomRatios | pod5Viewer/figureWindow.py:356-357 | limits inside the data give ordered ratios in [0, 1] |
| Overview.Pixel | pod5Viewer/figureWindow.py:361-362 | `int(ratio * width)` of a ratio in [0, 1] lies in [0, width] |
| Overview.PixelMonotone | pod5Viewer/figureWindow.py:361-362 | a larger ratio never gives an earlier pixel |
| Overview.ZoomPixels | pod5Viewer/figureWindow.py:356-362 | limits inside the data give ordered pixels inside the widget |
| Overview.TruncMonotone | pod5Viewer/figureWindow.py:361-362 | `int()` of non-negative floats is non-negative and keeps their order |
| Overview.TruncAtMost | pod5Viewer/figureWindow.py:361-362 | `int()` of a float in [0, n] is at most n |
| Overview.ZoomBoundsInside | pod5Viewer/figureWindow.py:349-353 | typed limits inside the data are kept in order, and reversed ones select only x2 |
| Overview.OverviewWidget.constructor | pod5Viewer/figureWindow.py:76-97 | a widget without data starts with no selection and no committed zoom |
| Overview.OverviewWidget.SetData | pod5Viewer/figureWindow.py:105-137 | outcomes (SetDataResult, KeptOnFailure): an empty dict fails and changes nothing; a read without numbers fails after x_vals is set, keeping the rest; otherwise x-limit N is the first read's length and every read is binned by BinSize(N), then scaled, or the scaling error is reported with the old pixels kept |
| Overview.OverviewWidget.Resize | pod5Viewer/figureWindow.py:249-257 | the stored reads are rescaled to the new size, or the old pixels stay when scaling raises |
| Overview.OverviewWidget.Press | pod5Viewer/figureWindow.py:266-267 | a left press starts the selection at x; any other press changes nothing |
| Overview.OverviewWidget.HoverIndexInside | pod5Viewer/figureWindow.py:281 | with data loaded, hovering inside the widget finds a sample; hovering two widths to the left raises |
| Overview.OverviewWidget.Move | pod5Viewer/figureWindow.py:277-290 | once the hover lookup succeeds, a truthy selection start makes the selection end follow the mouse |
| Overview.OverviewWidget.Release | pod5Viewer/figureWindow.py:299-327 | a left release with a truthy start commits ReleaseSpan, emits ReleaseRatios and ends the selection; a zero width or any other release changes nothing |
| Overview.OverviewWidget.ResetZoom | pod5Viewer/figureWindow.py:329-335 | the committed zoom is forgotten |
| Overview.OverviewWidget.SetZoom | pod5Viewer/figureWindow.py:337-369 | emits ZoomRatios and commits ZoomPixels; with no data (N = 0) it raises and changes nothing |
| Overview.ZoomFromLeftEdgeUnshaded | pod5Viewer/figureWindow.py:215 | a committed zoom starting at pixel 0 is falsy, so the outside is not shaded |
| Figure.LongerFirstIsStrict | pod5Viewer/figureWindow.py:466 | "longer first" is a strict order |
| Figure.MaxLen | pod5Viewer/figureWindow.py:470 | the longest length: no signal is longer, and some signal has it |
| Figure.Pad | pod5Viewer/figureWindow.py:479-482 | padding gives exactly the target length, keeps the original prefix and adds only NaN |
| Figure.InitData | pod5Viewer/figureWindow.py:456-491 | an empty dict raises; otherwise the reads are prepared as PreparedFrom says: sorted, padded, with normalised copies and a True legend flag each |
| Figure.PrepareNextKeeps | pod5Viewer/figureWindow.py:476-487 | one step of init_data's loop keeps the first k reads prepared, now k+1 |
| Figure.PreparedSortedAndPadded | pod5Viewer/figureWindow.py:466-485 | the reads are a permutation of the input, longest first; each has the longest length, starts with its samples followed only by NaN, and has x = 0..n-1 |
| Figure.PreparedColors | pod5Viewer/figureWindow.py:468-477 | colours repeat every ten reads, and the normalised copy keeps its read's colour |
| Figure.PreparedHasLegend | pod5Viewer/figureWindow.py:487 | every prepared read, raw or normalised, has a legend flag |
| Figure.PlotStep | pod5Viewer/figureWindow.py:671-676 | one more read adds its line exactly when its flag is True, and the label then reports its bin size |
| Figure.SubsetMessageMeaning | pod5Viewer/figureWindow.py:729-734 | the label says "no subsetting" exactly when the bin size is at most 1, and otherwise contains the bin size |
| Figure.PlotLinesAreVisibleReads | pod5Viewer/figureWindow.py:671-676 | a line is drawn for a read exactly when its legend flag is True |
| Figure.SubsampleCount | pod5Viewer/figureWindow.py:663-668 | subsampling leaves fewer than 10,000 points, and a slice of fewer than 10,000 samples is not reduced |
| Figure.PlotLinePointBound | pod5Viewer/figureWindow.py:662-675 | a plotted line has aligned x and y with fewer than 10,000 points, and a short slice is drawn whole |
| Figure.StridedByOne | pod5Viewer/figureWindow.py:667 | `x[::1]` is x |
| Figure.NoSubsettingBelowTwiceBinCount | pod5Viewer/figureWindow.py:663-665 | the label reads "no subsetting" exactly when the sliced read has fewer than 10,000 samples |
| Figure.FullRangeSlicesAll | pod5Viewer/figureWindow.py:673-675 | the default range (0.0, 1.0) slices the whole read |
| Figure.ReadZoomInput | pod5Viewer/figureWindow.py:711-720 | nothing happens exactly when the first field is empty; otherwise both must parse as int or the input is invalid |
| Figure.EmptySecondLimitIsInvalid | pod5Viewer/figureWindow.py:713-718 | a typed first limit with an empty second field is reported invalid, since the guard tests the first field twice |
| Figure.TypedLimitsAreRead | pod5Viewer/figureWindow.py:715-716 | typing two integers zooms to exactly those integers |
| Figure.FigureWindow.constructor | pod5Viewer/figureWindow.py:438-451 | raw data shown, no stored ratios, the prepared reads and flags kept, and an overview without a selection |
| Figure.FigureWindow.CurrentData | pod5Viewer/figureWindow.py:751-764 | the normalised or the raw reads; every read it returns has a legend flag |
| Figure.FigureWindow.UpdatePlot | pod5Viewer/figureWindow.py:652-686 | the lines become those of the visible reads over [s, e), the label follows the last visible read, and the ratios are stored |
| Figure.FigureWindow.ReplotRange | pod5Viewer/figureWindow.py:699-702 | the stored ratios when both are truthy, the full range (0.0, 1.0) otherwise |
| Figure.FigureWindow.ToggleSignal | pod5Viewer/figureWindow.py:688-702 | sets the read's flag and re-plots the lines and subset label over ReplotRange |
| Figure.FigureWindow.OnZoomRangeChanged | pod5Viewer/figureWindow.py:635 | an emitted ratio pair re-plots over exactly that range |
| Figure.FigureWindow.OverviewRelease | pod5Viewer/figureWindow.py:299-327 | a left release with a truthy start emits ReleaseRatios, commits ReleaseSpan in the overview and ends its selection, and the plot's lines, label and stored range follow the emitted ratios; any other release changes neither window |
| Figure.FigureWindow.ZoomIn | pod5Viewer/figureWindow.py:704-720 | empty input does nothing and bad input is reported; two ints commit ZoomPixels in the overview and re-plot the lines and label over ZoomRatios; the zoom fails when the overview has no data; on every outcome but a zoom the lines, label and both windows' zoom state are unchanged |
| Figure.FigureWindow.ResetZoom | pod5Viewer/figureWindow.py:722-727 | re-plots the lines and subset label over the full range and forgets the overview's zoom |
| Figure.FigureWindow.FillOverview | pod5Viewer/figureWindow.py:615-619 | the overview holds what set_data gives for the shown reads: each outcome, the binned and scaled reads, and the fields kept on failure |
| Figure.FigureWindow.LoadAndPlot | pod5Viewer/figureWindow.py:443-454 | the overview is filled as set_data says; when it loads the full range is plotted, otherwise the plot is untouched |
| Figure.FigureWindow.ShowData | pod5Viewer/figureWindow.py:736-749 | switches raw/normalised and reloads the overview as set_data says; when that succeeds it re-plots over ReplotRange, otherwise the plot is untouched |
| Figure.ZoomFromZeroIsForgotten | pod5Viewer/figureWindow.py:699 | a stored zoom starting at ratio 0.0 is falsy, so a re-plot shows the full range |
| Figure.OpenFigure | pod5Viewer/figureWindow.py:428-454 | an empty dict fails; an opened window shows the prepared raw reads over the full range |
| TableView.Header | pod5Viewer/viewWindow.py:18-22 | the given names when they are exactly count many, otherwise 0..count-1 |
| TableView.NewTableModel | pod5Viewer/viewWindow.py:12-28 | the model has the page's shape, and both header lists have the row count's length |
| TableView.HeaderData | pod5Viewer/viewWindow.py:43-50 | a name exactly for the display role and a section the header list covers |
| TableView.ColumnHeadersSizedByRows | pod5Viewer/viewWindow.py:15-16 | column headers exist only for columns below the row count, and they are the column numbers |
| TableView.FlatIndexBound | pod5Viewer/viewWindow.py:184 | cell (r, c) of a rows x cols page is an index inside the page |
| TableView.RowsFor | pod5Viewer/viewWindow.py:195-196 | at least one row; otherwise as many 20-pixel rows as fit into three quarters of the height |
| TableView.ColsFor | pod5Viewer/viewWindow.py:197 | at least one column; otherwise as many 75-pixel columns as fit into the width |
| TableView.ClampPage | pod5Viewer/viewWindow.py:172-173 | an index above the last page is lowered to it, and no index is raised |
| TableView.RowLabels | pod5Viewer/viewWindow.py:185 | one label per row |
| TableView.PageBounds | pod5Viewer/viewWindow.py:175-176 | a reachable page spans at most bin_size indices; a page 0 <= k < n_bins is a non-empty range inside the signal |
| TableView.MulNegative | pod5Viewer/viewWindow.py:175 | a negative page index starts at or before 0 |
| TableView.PageSize | pod5Viewer/viewWindow.py:178-182 | a reachable page holds exactly bin_size samples after padding |
| TableView.PageSampleAt | pod5Viewer/viewWindow.py:178-182 | entry o of a page is the sample start+o before the page end, and NaN padding after it |
| TableView.PageCell | pod5Viewer/viewWindow.py:178-187 | cell (r, c) holds `data[start + r*cols + c]` before the page end and NaN after it; row r is labelled start + r*cols |
| TableView.EverySampleShown | pod5Viewer/viewWindow.py:175-187 | every sample i is shown in page i // bin_size, at the row and column its offset gives |
| TableView.OffsetInPage | pod5Viewer/viewWindow.py:175-176 | index i is its page's start plus its offset, and lies before its page's end |
| TableView.ChunkIndexOf | pod5Viewer/viewWindow.py:200 | the page holding index i is below n_bins |
| TableView.RowOfOffset | pod5Viewer/viewWindow.py:184 | an offset inside a page splits into a row below rows and a column below cols |
| TableView.ArrayTableViewer.constructor | pod5Viewer/viewWindow.py:131-142 | geometry for the table size, page 0 shown, scroll range 0..n_bins-1 as Qt applies it |
| TableView.ArrayTableViewer.UpdateBinAttr | pod5Viewer/viewWindow.py:190-200 | rows and columns for the size; page size rows*cols and `ceil(N / bin_size)` pages |
| TableView.ArrayTableViewer.UpdateTable | pod5Viewer/viewWindow.py:159-188 | the model is the clamped page, padded and labelled |
| TableView.ArrayTableViewer.UpdateScrollbar | pod5Viewer/viewWindow.py:226-233 | range 0..n_bins-1 and value 0, as Qt's scroll bar applies them |
| TableView.ArrayTableViewer.Resize | pod5Viewer/viewWindow.py:213-224 | re-pages only when rows or columns change, then shows page 0 with the scroll bar reset; the table always shows the scrolled page |
| TableView.ArrayTableViewer.Scroll | pod5Viewer/viewWindow.py:142 | a scroll value is kept inside the range, and the table shows the page it selects |
| TableView.ArrayTableViewer.MoveTo | pod5Viewer/viewWindow.py:142 | a new value in range shows the page it selects |
| TableView.GeometryCoversSignal | pod5Viewer/viewWindow.py:195-200 | the page size is at least 1, and n_bins pages cover the signal with the last page not empty |
| ChunkPager.TotalChunksIsCeiling | pod5Viewer/viewWindows.py:31 | `(N + chunk_size - 1) // chunk_size` is `ceil(N / chunk_size)` |
| ChunkPager.FlatOrder | pod5Viewer/viewWindows.py:141 | cells earlier in row-major order read earlier indices |
| ChunkPager.WindowSize | pod5Viewer/viewWindows.py:107-116 | the window is at least the cell area plus 60 pixels wide and 95 high |
| ChunkPager.CellsFitInWindow | pod5Viewer/viewWindows.py:107-116 | every cell, placed after the header and label, fits inside the window together with the scroll bar |
| ChunkPager.ChunkTableViewer.constructor | pod5Viewer/viewWindows.py:22-72 | the chunk count is stored, the scroll range ends at total_chunks-1, and chunk 0 is on display |
| ChunkPager.ChunkTableViewer.UpdateDisplay | pod5Viewer/viewWindows.py:131-148 | after clearing and the row-by-row fill, each cell holds its sample exactly when the index is before the chunk end, and is empty otherwise |
| ChunkPager.PastEndStaysPast | pod5Viewer/viewWindows.py:146-148 | once a row reaches the chunk end the rest of the row is past it, so the break leaves those cells empty |
| ChunkPager.ShownIsInsideChunk | pod5Viewer/viewWindows.py:141-145 | a cell is filled exactly when its index is inside the chunk; the array is never read at or past the end |
| ChunkPager.ChunkTailHidden | pod5Viewer/viewWindows.py:139-141 | when chunks are larger than the table, the chunk's sample at offset rows*columns is shown in no cell |
| Navigator.HideItem | pod5Viewer/fileNavigator.py:206-239 | a read is shown exactly when (no search or it starts with the search) and (no whitelist or it is on it) |
| Navigator.NoFilterHidesNothing | pod5Viewer/fileNavigator.py:237-239 | with neither filter on, nothing is hidden |
| Navigator.LoadedReads | pod5Viewer/fileNavigator.py:133-139 | the children load_data leaves: its IDs in order, all visible |
| Navigator.FilteredReads | pod5Viewer/fileNavigator.py:133-139 | the children load_data is meant to create: its IDs in order, each hidden as HideItem says |
| Navigator.LoadedTree | pod5Viewer/fileNavigator.py:127-141 | one collapsed item per file, in dict order, with LoadedReads as its children |
| Navigator.LoadedTreeFiltered | pod5Viewer/fileNavigator.py:133-141 | a freshly loaded tree agrees with the filters exactly when the filters hide none of its reads |
| Navigator.LoadShowsHiddenRead | pod5Viewer/fileNavigator.py:133-141 | with the search "ab" on, loading the read "cd" shows it although hide_item hides it |
| Navigator.RefilterLoaded | pod5Viewer/fileNavigator.py:199-204 | update_view on the loaded reads gives FilteredReads |
| Navigator.Refiltered | pod5Viewer/fileNavigator.py:200-204 | texts and order are kept and every hidden flag is recomputed |
| Navigator.FileOrderIsStrict | pod5Viewer/fileNavigator.py:291 | ordering files by path, ascending or reversed, is a strict order |
| Navigator.ReadOrderIsStrict | pod5Viewer/fileNavigator.py:308-311 | ordering reads by ID, ascending or descending, is a strict order |
| Navigator.SortedFiles | pod5Viewer/fileNavigator.py:283-296 | the sorted files are a permutation, ordered by path (reversed when descending), each with its expanded state and reads |
| Navigator.SortedReads | pod5Viewer/fileNavigator.py:308-311 | a file's sorted reads are a permutation ordered by ID, with hidden flags carried along |
| Navigator.FileNavigator.constructor | pod5Viewer/fileNavigator.py:47-48 | an empty tree with no filters, both sorts ascending first |
| Navigator.FileNavigator.LoadData | pod5Viewer/fileNavigator.py:127-141 | the tree becomes LoadedTree of the files, every read visible whatever the filters; contains_data holds exactly when some file was given |
| Navigator.FileNavigator.LoadDataFiltered | pod5Viewer/fileNavigator.py:127-141 | load followed by update_view: one collapsed item per file with FilteredReads as its children, so every hidden flag agrees with the filters |
| Navigator.FileNavigator.Clear | pod5Viewer/fileNavigator.py:158-160 | no files and no filters |
| Navigator.FileNavigator.UpdateView | pod5Viewer/fileNavigator.py:199-204 | every hidden flag agrees with the filters; files, order, texts and expanded states are kept |
| Navigator.FileNavigator.ClearSearch | pod5Viewer/fileNavigator.py:166-168 | the search is off, the field is empty, and the view is refiltered |
| Navigator.FileNavigator.UpdateSearchStr | pod5Viewer/fileNavigator.py:174-179 | empty text turns the search off, any other text is the prefix; then the view is refiltered |
| Navigator.FileNavigator.UpdateReadsOfInterest | pod5Viewer/fileNavigator.py:190-191 | the whitelist is replaced (None turns it off) and the view is refiltered |
| Navigator.FileNavigator.SortTopLevelItems | pod5Viewer/fileNavigator.py:283-296 | the files taken out and put back are the stable sort of the old files |
| Navigator.FileNavigator.SortChildItems | pod5Viewer/fileNavigator.py:308-311 | each file's reads are sorted on their own, and files keep their places |
| Navigator.FileNavigator.SortFiles | pod5Viewer/fileNavigator.py:246-254 | sorts in the current direction, then flips it |
| Navigator.FileNavigator.SortReads | pod5Viewer/fileNavigator.py:261-270 | sorts every file's reads in the current direction, then flips it |
| Navigator.SortFilesTwice | pod5Viewer/fileNavigator.py:246-254 | two presses sort once each way and leave the direction where it started |
| Sorting.Insert | pod5Viewer/fileNavigator.py:291 | inserting adds exactly the element |
| Sorting.SortBy | pod5Viewer/fileNavigator.py:291 | the result is a permutation of the input |
| Sorting.InsertSorted | pod5Viewer/fileNavigator.py:291 | inserting into a sorted sequence keeps it sorted |
| Sorting.SortBySorted | pod5Viewer/fileNavigator.py:291 | the result is sorted |
| IdInput.LineBreakIsSpace | pod5Viewer/idInputWindow.py:122 | every line boundary is whitespace, so the outer strip removes boundaries at either end |
| IdInput.FirstBreak | pod5Viewer/idInputWindow.py:122 | the first line boundary, or the end when there is none; no boundary comes before it |
| IdInput.SplitLines | pod5Viewer/idInputWindow.py:122 | `splitlines` gives no lines exactly for empty text, and no line contains a boundary |
| IdInput.ParseIds | pod5Viewer/idInputWindow.py:122-130 | when there are IDs there is at least one |
| IdInput.StripLines | pod5Viewer/idInputWindow.py:123 | each line is stripped, and order and count are kept |
| IdInput.ParseIdsNone | pod5Viewer/idInputWindow.py:127-128 | get_ids returns None exactly when the text is empty or whitespace only |
| IdInput.ParseIdsRoundTrip | pod5Viewer/idInputWindow.py:122-130 | IDs written one per line come back unchanged, in order, when each is stripped without boundaries and the first and last are non-empty |
| IdInput.JoinedIsStripped | pod5Viewer/idInputWindow.py:122 | such lines joined with newlines are unchanged by strip |
| IdInput.StripLinesClean | pod5Viewer/idInputWindow.py:123 | stripping clean lines leaves them as they are |
| IdInput.CleanLineEnds | pod5Viewer/idInputWindow.py:123 | a clean non-empty line neither starts nor ends with whitespace |
| IdInput.JoinFirst | pod5Viewer/idInputWindow.py:122 | the joined text starts with the first line's first character |
| IdInput.JoinLast | pod5Viewer/idInputWindow.py:122 | the joined text ends with the last line's last character |
| IdInput.SplitJoin | pod5Viewer/idInputWindow.py:122 | `splitlines` undoes joining with newlines when no line holds a boundary and the last is not empty |
| IdInput.JoinNonEmpty | pod5Viewer/idInputWindow.py:122 | the join with a non-empty last line is not empty |
| IdInput.BlankLineKept | pod5Viewer/idInputWindow.py:122-123 | a blank line between two IDs comes back as an empty ID |
| IdInput.IdInputWindow.constructor | pod5Viewer/idInputWindow.py:29-34 | an empty box |
| IdInput.IdInputWindow.GetIds | pod5Viewer/idInputWindow.py:122-130 | returns ParseIds of the box and closes the window whatever it returns |
| IdInput.IdInputWindow.ClearIds | pod5Viewer/idInputWindow.py:112 | the box is empty |
| IdInput.IdInputWindow.LoadIds | pod5Viewer/idInputWindow.py:91-103 | the question is asked exactly when the box strips to something; without it the content replaces the box, with it only a Yes does |
| IdInput.AskedIffNotBlank | pod5Viewer/idInputWindow.py:91 | the box strips to something exactly when it holds a non-whitespace character |
| ReadData.Shows | pod5Viewer/pod5Viewer.py:765 | `str()` of each value, in order |
| ReadData.Transform | pod5Viewer/pod5Viewer.py:760-776 | the same keys in the same order, each value converted by the rule for its type |
| ReadData.TransformIsJsonReady | pod5Viewer/pod5Viewer.py:760-776 | nothing JSON cannot hold is left, at any depth |
| ReadData.ValueIsJsonReady | pod5Viewer/pod5Viewer.py:762-775 | one converted value is JSON-ready |
| ReadData.TransformFixesJsonReady | pod5Viewer/pod5Viewer.py:760-776 | a JSON-ready dict is left unchanged |
| ReadData.ValueFixed | pod5Viewer/pod5Viewer.py:762-775 | a JSON-ready value is left unchanged |
| ReadData.TransformIdempotent | pod5Viewer/pod5Viewer.py:760-776 | converting twice, with either shorten flag, is converting once |
| ReadData.ArrayConversion | pod5Viewer/pod5Viewer.py:762-767 | when shortening, an array of more than 100 values becomes its first 100 joined by commas plus "..."; any other array becomes a list of all values |
| ReadData.NestedArraysKept | pod5Viewer/pod5Viewer.py:772-773 | arrays inside a nested dict are never shortened |
| ReadData.TextValues | pod5Viewer/pod5Viewer.py:768-771 | UUIDs and dates become their text |
| ReadData.Tooltip | pod5Viewer/pod5Viewer.py:516-518 | the help string of the space-joined path, or "No docstring available" when it is missing or empty |
| ReadData.ChildKeys | pod5Viewer/pod5Viewer.py:526 | children of a digit-only key keep the parent path; others extend it by the key |
| ReadData.Populate | pod5Viewer/pod5Viewer.py:515-537 | one row per entry |
| ReadData.PopulateWellLabelled | pod5Viewer/pod5Viewer.py:506-537 | from the empty path, every row at every depth is looked up under its path, ends in its own key with no digit-only key before it, and has that path's tooltip |
| ReadData.RowWellLabelled | pod5Viewer/pod5Viewer.py:515-537 | one row and its subtree are well labelled |
| ReadData.DigitKeyIsTransparent | pod5Viewer/pod5Viewer.py:526 | children of a digit-only key are labelled like that key's siblings |
| Viewer.FirstDot | pod5Viewer/pod5Viewer.py:376 | the first '.' of a path, or its end |
| Viewer.Segments | pod5Viewer/pod5Viewer.py:376 | `split(".")` gives at least one piece, and no piece contains a dot |
| Viewer.SegmentsJoin | pod5Viewer/pod5Viewer.py:376 | joining the pieces with "." gives the path back |
| Viewer.SecondSegmentExists | pod5Viewer/pod5Viewer.py:376 | a second piece exists exactly when the path holds a dot |
| Viewer.Pod5Files | pod5Viewer/pod5Viewer.py:376 | the comprehension raises exactly when some path has no dot |
| Viewer.SelectDirectoryLoads | pod5Viewer/pod5Viewer.py:373-378 | files are loaded exactly when every path has a dot and one qualifies; the loaded files are exactly those whose second piece is "pod5" |
| Viewer.Pod5Members | pod5Viewer/pod5Viewer.py:376 | the filtered list holds exactly the paths whose second piece is "pod5" |
| Viewer.FirstDotAt | pod5Viewer/pod5Viewer.py:376 | FirstDot is the position of the first dot |
| Viewer.SegmentsAt | pod5Viewer/pod5Viewer.py:376 | splitting at the first dot gives the prefix, then the pieces of the rest |
| Viewer.FirstPiece | pod5Viewer/pod5Viewer.py:376 | a dot-free prefix followed by a dot is the first piece |
| Viewer.LeadingPiece | pod5Viewer/pod5Viewer.py:376 | a dot-free prefix followed by nothing or a dot is the first piece |
| Viewer.SecondPiece | pod5Viewer/pod5Viewer.py:376 | in a + "." + b + tail, with no dot in a or b and tail empty or starting with a dot, the second piece is b |
| Viewer.Pod5FilterOnWholePath | pod5Viewer/pod5Viewer.py:376 | the test reads the second piece of the whole path, so a/b.c is kept exactly when b is "pod5", whatever the extension |
| Viewer.TabBar.IndexOf | pod5Viewer/pod5Viewer.py:442 | `indexOf`: the tab holding the widget, or -1 exactly when none does |
| Viewer.TabBar.Add | pod5Viewer/pod5Viewer.py:447 | `addTab` appends; the first tab becomes current and otherwise the current tab stays |
| Viewer.TabBar.Select | pod5Viewer/pod5Viewer.py:298 | `setCurrentIndex` selects an index in range and ignores any other |
| Viewer.TabBar.Remove | pod5Viewer/pod5Viewer.py:551 | `removeTab` removes exactly that tab; an index out of range changes nothing |
| Viewer.WidgetIndex | pod5Viewer/pod5Viewer.py:442 | the first tab holding the widget, or -1 exactly when none does |
| Viewer.RemoveKeepsCurrentTab | pod5Viewer/pod5Viewer.py:551 | removing another tab keeps the same tab current |
| Viewer.RemoveCurrentSelectsNeighbour | pod5Viewer/pod5Viewer.py:551 | removing the current tab selects its right neighbour, or its left one when it was last |
| Viewer.FirstWithText | pod5Viewer/pod5Viewer.py:468-472 | the first tab with the text, or the end; no earlier tab has it |
| Viewer.FirstWithTextAt | pod5Viewer/pod5Viewer.py:468-472 | the loop's stopping index is FirstWithText, and it is inside exactly when some tab has the text |
| Viewer.ProperTabsShowRead | pod5Viewer/pod5Viewer.py:468-479 | afterwards the read's tab is current; a tab is added only when none showed the read; texts stay distinct |
| Viewer.PlotSelection | pod5Viewer/pod5Viewer.py:812-815 | the current tab's ID alone, or every tab's ID in order |
| Viewer.DedupIsSetOfIds | pod5Viewer/pod5Viewer.py:817-819 | the plot dict's keys are the IDs, each exactly once |
| Viewer.Pod5Viewer.constructor | pod5Viewer/pod5Viewer.py:212-225 | no tabs, no preview, no records, no figure |
| Viewer.Pod5Viewer.UpdatePreviewTab | pod5Viewer/pod5Viewer.py:438-448 | for a read: the old preview tab goes, a new preview is added last and made current, its record stored and the old record kept; proper tabs stay distinct |
| Viewer.Pod5Viewer.AddProperTab | pod5Viewer/pod5Viewer.py:460-479 | for a read: the preview is dropped and forgotten, the read's tab is selected or added with its record; no two proper tabs show the same read |
| Viewer.Pod5Viewer.SelectOrAddTab | pod5Viewer/pod5Viewer.py:468-479 | the first tab showing the read is selected, or a new tab for it is added, current and recorded |
| Viewer.Pod5Viewer.RemoveTab | pod5Viewer/pod5Viewer.py:540-554 | deletes the tab's record and the tab, forgetting the preview once its tab is gone; a missing record raises KeyError and changes nothing |
| Viewer.Pod5Viewer.CycleReads | pod5Viewer/pod5Viewer.py:292-298 | the current index becomes (i+1) mod count; without tabs nothing happens |
| Viewer.Pod5Viewer.CloseTabShortcut | pod5Viewer/pod5Viewer.py:301-306 | removes the current tab when there is one |
| Viewer.Pod5Viewer.ClearViewer | pod5Viewer/pod5Viewer.py:830-837 | no tabs, no records, no figure |
| Viewer.Pod5Viewer.PlotSignal | pod5Viewer/pod5Viewer.py:802-828 | no tab shows the warning; otherwise the selected IDs are plotted each once, or the first ID without a record raises KeyError before the figure is replaced |
| Viewer.RemoveAtIndex | pod5Viewer/pod5Viewer.py:551 | the tabs after the removed one move up by one |
| Viewer.RemoveKeeps | pod5Viewer/pod5Viewer.py:550-551 | removal keeps widgets fresh and proper tabs distinct; other tabs keep their records unless one shows the same read |
| Viewer.DropPreview | pod5Viewer/pod5Viewer.py:441-442 | `removeTab(indexOf(preview))` removes the preview's tab, and changes nothing when it is gone |
| Viewer.DropPreviewKeeps | pod5Viewer/pod5Viewer.py:463-466 | once the preview is dropped, all remaining tabs have distinct texts |
| Viewer.DropTabDistinct | pod5Viewer/pod5Viewer.py:463-466 | removing the tab that holds the preview leaves only proper tabs, which were distinct |
| Viewer.AppendKeeps | pod5Viewer/pod5Viewer.py:447 | appending a tab with a new widget keeps the tab invariants |
| Viewer.PreviewDuplicatesProperTab | pod5Viewer/pod5Viewer.py:438-448 | previewing a read that already has a proper tab opens a second tab for it |
| Viewer.SharedReadBlocksClosing | pod5Viewer/pod5Viewer.py:550-551 | closing one of two tabs for the same read deletes the shared record, so closing the other raises KeyError and leaves it |
| Text.StripLeading | pod5Viewer/idInputWindow.py:122 | removes exactly the leading whitespace |
| Text.StripTrailing | pod5Viewer/idInputWindow.py:122 | removes exactly the trailing whitespace |
| Text.StripSlice | pod5Viewer/idInputWindow.py:122-123 | strip leaves a slice with only whitespace around it, not starting or ending with whitespace; it is empty exactly for all-whitespace text |
| Text.NatToString | pod5Viewer/figureWindow.py:733 | `str(n)` is a non-empty digit string |
| Text.Digit | pod5Viewer/figureWindow.py:733 | a digit value gives a digit character |
| Text.NatToStringValue | pod5Viewer/figureWindow.py:733 | reading back `str(n)` gives n |
| Text.RemoveUnderscores | pod5Viewer/figureWindow.py:715-716 | digit groups without underscores are digits, and plain digits are unchanged |
| Text.ParseBody | pod5Viewer/figureWindow.py:715-716 | the unsigned part parses exactly when it is digit groups |
| Text.DigitsBody | pod5Viewer/figureWindow.py:715-716 | plain digits read as their value |
| Text.IntRoundTrip | pod5Viewer/figureWindow.py:715-716 | `int(str(n)) == n` for every int |
| Text.NatRoundTrip | pod5Viewer/figureWindow.py:715-716 | `int(str(n)) == n` for n >= 0 |
| Text.AllDigitsParse | pod5Viewer/figureWindow.py:715-716 | plain digits are digit groups, unsigned and not whitespace at either end |
| Text.NegativeRoundTrip | pod5Viewer/figureWindow.py:715-716 | `int(str(-m)) == -m` for m > 0 |
| Text.ParseNegative | pod5Viewer/figureWindow.py:715-716 | a minus sign before digit groups negates their value |
| Text.StripKeeps | pod5Viewer/idInputWindow.py:123 | text with no whitespace at either end is unchanged by strip |
| Text.ParseIntRejects | pod5Viewer/figureWindow.py:715-718 | text holding a character that is no digit, underscore, sign or whitespace is not a number |
| Text.ParseIntBlank | pod5Viewer/figureWindow.py:715-718 | `int()` of empty or whitespace-only text raises |
| Util.CeilDiv | pod5Viewer/viewWindow.py:200 | zero exactly for zero items |
| Util.CeilDivBounds | pod5Viewer/viewWindow.py:200 | `math.ceil(n / d)` is the least r with r*d >= n |
| Util.CeilDivUnique | pod5Viewer/viewWindow.py:200 | any r with (r-1)*d < n <= r*d is that ceiling |
| Util.CeilDivStep | pod5Viewer/figureWindow.py:129 | taking the first run of b leaves one run fewer |
| Util.ChunksPartition | pod5Viewer/viewWindow.py:175-176 | pages 0..n_bins-1 are non-empty, contiguous and end at N; every index lies in page i // bin_size and no other |
| Util.LastChunkEnd | pod5Viewer/viewWindow.py:176 | the last page ends at N |
| Util.ChunkIndexBound | pod5Viewer/viewWindow.py:175-176 | index i's page is below the page count |
| Util.ChunkNonEmpty | pod5Viewer/viewWindow.py:175-176 | every page below the count is non-empty |
| Util.ChunkContiguous | pod5Viewer/viewWindow.py:175-176 | each page starts where the previous one ends |
| Util.ChunkOf | pod5Viewer/viewWindow.py:175-176 | index i lies in page k exactly when k = i // bin_size |
| Util.Trunc | pod5Viewer/figureWindow.py:361-362 | `int()` of a float truncates toward zero |
| Util.Floor | pod5Viewer/figureWindow.py:673 | `math.floor` is the greatest integer not above x |
| Util.Ceil | pod5Viewer/figureWindow.py:674 | `math.ceil` is the least integer not below x |
| Util.SliceBound | pod5Viewer/figureWindow.py:675 | a slice bound counts from the end when negative and is clamped to [0, len] |
| Util.PySlice | pod5Viewer/figureWindow.py:675 | `s[i:j]` is the plain slice for bounds inside, and never longer than s |
| Util.PySliceLength | pod5Viewer/viewWindow.py:178 | a slice is never longer than j - i, and is empty when both bounds are at or before -len |
| Util.Strided | pod5Viewer/figureWindow.py:128 | `x[::b]` has `ceil(len / b)` entries, entry k being x[k*b] |
| Util.StridedStep | pod5Viewer/figureWindow.py:128 | the first element, then the stride of the rest, is the stride of the whole |
| Util.Arange | pod5Viewer/figureWindow.py:483 | `np.arange(n)` is 0, 1, ..., n-1 |
| Util.AsSamples | pod5Viewer/viewWindow.py:178 | a float array has no NaN |
| Util.FilterMapMembers | pod5Viewer/pod5Viewer.py:376 | a comprehension's results are exactly the images of the kept elements |
| Util.FilterMapSource | pod5Viewer/pod5Viewer.py:376 | each result comes from a kept element |
| Util.FilterMapTarget | pod5Viewer/pod5Viewer.py:376 | each kept element contributes its image |
| Util.StrLessIrreflexive | pod5Viewer/fileNavigator.py:291 | no string sorts before itself |
| Util.StrLessTransitive | pod5Viewer/fileNavigator.py:291 | string order is transitive |
| Util.StrLessTotal | pod5Viewer/fileNavigator.py:291 | two different strings are ordered one way or the other |

## Where the code and its description differ

The model follows the code. These are the points where the code does
something other than what its documentation describes:

- The overview holds up to 1999 points per read, not 1000. The bin size
  is `max(1, int(N / 1000))`, so 1001 to 1999 samples are not reduced
  (`Overview.BinnedPointCount`, `Overview.OverviewExceedsBinCount`).
- A finished drag is clamped to `x_lims`, which is in data units, while the
  drag is in pixels. A span past the data can therefore come out reversed
  (`Overview.ReleaseSpanReversed`).
- A drag shorter than ten pixels selects the pixels around half its
  length, not around its midpoint (`Overview.ShortDragIgnoresPosition`).
- `set_zoom` orders its limits with `x1 = min(x1, x2)` and then
  `x2 = max(x1, x2)`. Reversed limits therefore collapse onto the second
  one (`Overview.ZoomBoundsInside`).
- Truthiness is tested where None is meant:
  - a selection started at pixel 0 does not start;
  - a committed zoom at pixel 0 is not shaded (`Overview.ZoomFromLeftEdgeUnshaded`);
  - a stored zoom from ratio 0.0 is re-plotted as the full range
    (`Figure.ZoomFromZeroIsForgotten`).
- `zoom_in` tests the first field twice and never tests the second, so an
  empty second field is reported as invalid input
  (`Figure.EmptySecondLimitIsInvalid`).
- The directory filter tests the second dot-separated piece of the whole
  path, not the file's extension. A `.pod5` file under a directory with a
  dot in its name is skipped, and `x.pod5.bak` is loaded
  (`Viewer.Pod5FilterOnWholePath`).
- Previewing a read that already has a proper tab opens a second tab for
  it (`Viewer.PreviewDuplicatesProperTab`). Closing one of the two deletes
  the record both rely on, so the other can no longer be closed
  (`Viewer.SharedReadBlocksClosing`).
- The table model sizes its column headers by the row count
  (`TableView.ColumnHeadersSizedByRows`).
- The older pager never shows the part of a chunk beyond rows x columns
  cells (`ChunkPager.ChunkTailHidden`).

- load_data computes each read's hidden flag and calls `setHidden` before
  the read is added to the tree. Qt ignores `setHidden` on an item that is
  not in a view, so freshly loaded reads are all visible even while a
  search or a whitelist is active, until the next update_view
  (`Navigator.LoadShowsHiddenRead`).

## Findings

| source | as written | input that shows it | evidently intended | confidence | as-written member | corrected member |
|---|---|---|---|---|---|---|
| pod5Viewer/fileNavigator.py:133-141 | `setHidden(hide_item)` on each read before `addChild` and `addTopLevelItem`, which Qt ignores for an item outside a view | a search "ab" active, then `load_data({"f.pod5": ["cd"]})`: "cd" is shown | the loaded reads hidden as hide_item says | not executed; relies on Qt's documented behaviour of `QTreeWidgetItem::setHidden` | Navigator.FileNavigator.LoadData, Navigator.LoadShowsHiddenRead | Navigator.FileNavigator.LoadDataFiltered |

## Left out

- **Rendering and UI plumbing.** Qt widgets, layouts, menus, cursors,
  shortcuts wiring, the hover label's text, the y-axis label, QPainter
  drawing and matplotlib calls. Only the state they read or write is kept;
  a plot is the list of lines it would draw.
- **I/O.** File and directory dialogs, reading the ID file, JSON/npy/txt
  export, `resume_with_path`, `show_full_signal`, the export actions and
  PermissionError boxes. A loaded file's content and the user's answers are
  parameters.
- **The data handler.** `dataHandler.py` wraps the external pod5 reader.
  Read records, file-to-ID maps and directory listings are passed in, and
  the lookup of the "signal" field of a record is abstracted.
- **Floating point.** Reals are exact. `normalize` (a z-score) and the
  median are parameter functions, and the table's 4-decimal rounding of
  cell text is not modelled. `np.full_like` keeps the array's dtype, so on
  an integer array the midpoint (a+b)/2 would be truncated; the model keeps
  the real midpoint.
- **y_lims.** set_data computes it but nothing reads it.
- **Numbers and text.** `int()` and `str.isdigit()` are modelled for ASCII
  digits only, not other Unicode digits. `str()` of cell values and of leaf
  values in a data tab is abstracted (leaves keep the value itself).
- **QTextEdit.** The box is its plain text; rich-text conversion is not
  modelled.
- **String order.** It is by code point, as Python sorts. Qt's
  `sortChildren` compares UTF-16 code units, which differs only for
  characters outside the Basic Multilingual Plane.
- **Unloaded overview.** An overview used before set_data raises
  AttributeError; the model starts with empty data instead.
- **Sorting.SortBy:** stability, meaning that equal keys keep their input
  order as Python's and Qt's stable sorts guarantee, is built into the
  insertion sort but not stated as a proved property.
- **Hidden flags on re-insert.** sort_top_level_items takes items out and
  puts them back; Qt's handling of hidden flags on re-inserted items is
  assumed to keep them.
- **TableView.HeaderData:** the section is a `nat`; Qt never passes a
  negative section.
- **ChunkPager.ChunkTableViewer.constructor:** it requires chunk_size >= 1.
  The default is 100, and nothing in the application constructs this class
  (the main window uses the one in `viewWindow.py`); a chunk size of 0
  would raise ZeroDivisionError in `__init__`, which is not modelled.
- **ChunkPager.ChunkTableViewer.UpdateDisplay:** it takes a chunk index >= 0.
  That covers every call: `valueChanged` is connected only after
  `setMaximum(total_chunks - 1)`, and a bar whose range is [-1, -1] cannot
  be moved, so the index -1 never arrives.
- **TableView.ArrayTableViewer.Scroll:** it models the final value change.
  It does not model the intermediate valueChanged emissions while
  setMinimum and setMaximum run inside update_scrollbar, since each ends on
  the page that the final value shows.
- **Multi-dimensional arrays.** Record arrays are one-dimensional.
- **Read IDs.** The reads of a dictionary are a sequence whose IDs are
  taken to be distinct, as dictionary keys are.
- **Viewer.Pod5Viewer.ClearViewer:** it leaves out the file navigator's
  `clear()`, which is modelled as `Navigator.FileNavigator.Clear`, and the
  widget model reset.
- **Other windows.** `PlotViewer` (a web view wrapper) and the
  focus-switching shortcut are not modelled.
