/** The signal plot window (FigureWindow in figureWindow.py): it pads the
    reads to a common length, gives each a colour, plots the visible reads
    over a ratio range of their length with at most SubsampleBinCount-sized
    subsampling, and re-plots when the legend, the raw/normalised choice or
    the zoom changes. The plot itself is the list of lines handed to
    matplotlib; normalisation and the per-bin median are parameter
    functions. */
module Figure {
  import opened Util
  import opened Text
  import opened Overview
  import Sorting

  /** SUBSAMPLE_BIN_COUNT */
  const SubsampleBinCount: nat := 5000

  /** COLOR_CYCLE */
  const ColorCycle: seq<string> := ["#1f77b4", "#ff7f0e", "#2ca02c", "#d62728", "#9467bd",
                                     "#8c564b", "#e377c2", "#7f7f7f", "#bcbd22", "#17becf"]

  /** MESSAGE_NO_SUBSETTING */
  const NoSubsettingMessage: string := "No subsetting " + "performed - each point corresponds to one measurement."

  /** The text before the bin size in the subsetting message. */
  const SubsettingPrefix: string := "Subsetting " + "active - one point corresponds to "

  /** One entry of the dictionary the window is opened with. */
  datatype RawRead = RawRead(id: string, signal: seq<Sample>)

  // ---------------------------------------------------------------- init_data

  /** The order of sorted(..., key=len, reverse=True): a longer read comes
      before a shorter one; equal lengths keep their order. */
  function LongerFirst(a: RawRead, b: RawRead): bool
  {
    |a.signal| > |b.signal|
  }

  lemma LongerFirstIsStrict()
    ensures Sorting.StrictOrder(LongerFirst)
  {
  }

  /** max(len(s) for s in signals): the longest signal's length. */
  function MaxLen(raw: seq<RawRead>): (m: nat)
    ensures forall i :: 0 <= i < |raw| ==> |raw[i].signal| <= m
    ensures |raw| > 0 ==> exists i :: 0 <= i < |raw| && |raw[i].signal| == m
  {
    if |raw| == 0 then 0
    else
      var rest := MaxLen(raw[1..]);
      assert forall i :: 1 <= i < |raw| ==> raw[i] == raw[1..][i - 1];
      if |raw[0].signal| >= rest then |raw[0].signal| else rest
  }

  /** A signal filled up with NaN to length n. */
  function Pad(signal: seq<Sample>, n: nat): (r: seq<Sample>)
    requires |signal| <= n
    ensures |r| == n && r[..|signal|] == signal
    ensures forall i :: |signal| <= i < n ==> r[i].None?
  {
    if |signal| < n then signal + seq(n - |signal|, _ => None) else signal
  }

  /** What init_data keeps for a dictionary of reads. */
  datatype Prepared = Prepared(data: seq<Series>, dataNorm: seq<Series>, legend: map<string, bool>)

  /** The k-th read as init_data keeps it: padded to length n, with x-values
      0 .. n-1 and colour ColorCycle[k % 10]. */
  function PaddedSeries(r: RawRead, n: nat, k: nat): Series
    requires |r.signal| <= n
  {
    Series(r.id, Arange(n), Pad(r.signal, n), ColorCycle[k % 10])
  }

  /** p is what init_data builds from raw: the reads sorted longest first,
      each padded to the longest length, the normalised copy built from the
      padded signal, and a legend flag True for every read. */
  ghost predicate PreparedFrom(p: Prepared, raw: seq<RawRead>, normalize: seq<Sample> -> seq<Sample>)
  {
    var sorted := Sorting.SortBy(raw, LongerFirst);
    PreparedFromSorted(p, sorted, MaxLen(sorted), normalize, |sorted|)
  }

  /** The first k reads of sorted are prepared in p. */
  ghost predicate PreparedFromSorted(p: Prepared, sorted: seq<RawRead>, n: nat,
                                     normalize: seq<Sample> -> seq<Sample>, k: nat)
  {
    && k <= |sorted|
    && (forall i :: 0 <= i < |sorted| ==> |sorted[i].signal| <= n)
    && |p.data| == k && |p.dataNorm| == k
    && (forall i :: 0 <= i < k ==> p.data[i] == PaddedSeries(sorted[i], n, i))
    && (forall i :: 0 <= i < k ==> p.dataNorm[i] == p.data[i].(y := normalize(p.data[i].y)))
    && (forall id :: id in p.legend <==> exists i :: 0 <= i < k && sorted[i].id == id)
    && (forall id :: id in p.legend ==> p.legend[id])
  }

  /** init_data: an empty dictionary raises ValueError (None); otherwise the
      result is PreparedFrom(raw). */
  method InitData(raw: seq<RawRead>, normalize: seq<Sample> -> seq<Sample>) returns (r: Option<Prepared>)
    ensures r.None? <==> |raw| == 0
    ensures r.Some? ==> PreparedFrom(r.value, raw, normalize)
  {
    if |raw| == 0 {
      return None;
    }
    var sorted := Sorting.SortBy(raw, LongerFirst);
    var n := MaxLen(sorted);
    var p := Prepared([], [], map[]);
    var k := 0;
    while k < |sorted|
      invariant PreparedFromSorted(p, sorted, n, normalize, k)
    {
      PrepareNextKeeps(p, sorted, n, normalize, k);
      p := PrepareNext(p, sorted[k], n, normalize, k);
      k := k + 1;
    }
    return Some(p);
  }

  /** One step of init_data's loop: the k-th read's padded series, its
      normalised copy and its legend flag are added. */
  function PrepareNext(p: Prepared, r: RawRead, n: nat, normalize: seq<Sample> -> seq<Sample>, k: nat): Prepared
    requires |r.signal| <= n
  {
    var line := PaddedSeries(r, n, k);
    Prepared(p.data + [line], p.dataNorm + [line.(y := normalize(line.y))], p.legend[r.id := true])
  }

  lemma PrepareNextKeeps(p: Prepared, sorted: seq<RawRead>, n: nat, normalize: seq<Sample> -> seq<Sample>, k: nat)
    requires PreparedFromSorted(p, sorted, n, normalize, k) && k < |sorted|
    ensures PreparedFromSorted(PrepareNext(p, sorted[k], n, normalize, k), sorted, n, normalize, k + 1)
  {
    var q := PrepareNext(p, sorted[k], n, normalize, k);
    forall id
      ensures id in q.legend <==> exists i :: 0 <= i < k + 1 && sorted[i].id == id
    {
      if id in p.legend {
        var i :| 0 <= i < k && sorted[i].id == id;
        assert 0 <= i < k + 1 && sorted[i].id == id;
      } else if id == sorted[k].id {
        assert 0 <= k < k + 1 && sorted[k].id == id;
      }
    }
  }

  /** What init_data promises about the order and the padding: the reads
      are a permutation of the input, no read is shorter than a later one,
      every signal has the longest length and starts with its original
      samples, followed only by NaN, and x is 0 .. n-1. */
  lemma {:induction false} PreparedSortedAndPadded(p: Prepared, raw: seq<RawRead>, normalize: seq<Sample> -> seq<Sample>)
    requires PreparedFrom(p, raw, normalize)
    ensures var sorted := Sorting.SortBy(raw, LongerFirst);
      && multiset(sorted) == multiset(raw)
      && (forall k, l :: 0 <= k < l < |sorted| ==> |sorted[k].signal| >= |sorted[l].signal|)
      && (forall k :: 0 <= k < |p.data| ==>
           && p.data[k].id == sorted[k].id
           && |p.data[k].y| == MaxLen(sorted) == |p.data[k].x|
           && p.data[k].y[..|sorted[k].signal|] == sorted[k].signal
           && (forall i :: |sorted[k].signal| <= i < MaxLen(sorted) ==> p.data[k].y[i].None?)
           && (forall i :: 0 <= i < |p.data[k].x| ==> p.data[k].x[i] == i as real))
  {
    LongerFirstIsStrict();
    Sorting.SortBySorted(raw, LongerFirst);
  }

  /** Colours repeat every ten reads. */
  lemma PreparedColors(p: Prepared, raw: seq<RawRead>, normalize: seq<Sample> -> seq<Sample>, k: nat)
    requires PreparedFrom(p, raw, normalize) && k + 10 < |p.data|
    ensures p.data[k].color == p.data[k + 10].color == p.dataNorm[k].color == ColorCycle[k % 10]
  {
    var sorted := Sorting.SortBy(raw, LongerFirst);
    var n := MaxLen(sorted);
    assert p.data[k] == PaddedSeries(sorted[k], n, k);
    assert p.data[k + 10] == PaddedSeries(sorted[k + 10], n, k + 10);
    assert (k + 10) % 10 == k % 10;
  }

  // ---------------------------------------------------------------- update_plot

  /** The index range [floor(len * s), ceil(len * e)) update_plot slices. */
  function SliceStart(len: nat, s: real): int { Floor(len as real * s) }

  function SliceEnd(len: nat, e: real): int { Ceil(len as real * e) }

  /** The line update_plot draws for one visible read: the read sliced to
      the ratio range, then every b-th x-value and the median of each run of
      b y-values, with b = max(1, int(len / SubsampleBinCount)). */
  function PlotLineOf(r: Series, s: real, e: real, median: seq<Sample> -> Sample): Series
  {
    var xs := PySlice(r.x, SliceStart(|r.x|, s), SliceEnd(|r.x|, e));
    var ys := PySlice(r.y, SliceStart(|r.x|, s), SliceEnd(|r.x|, e));
    var b := BinSize(|xs|, SubsampleBinCount);
    Series(r.id, Strided(xs, b), BinMedians(ys, b, median), r.color)
  }

  /** The bin size update_plot reports for one visible read. */
  function PlotBinSize(r: Series, s: real, e: real): nat
  {
    BinSize(|PySlice(r.x, SliceStart(|r.x|, s), SliceEnd(|r.x|, e))|, SubsampleBinCount)
  }

  /** Whether a read's legend flag is set. */
  function Shown(legend: map<string, bool>): Series -> bool
  {
    (r: Series) => r.id in legend && legend[r.id]
  }

  /** The line drawn for a read over the ratio range [s, e). */
  function LineOver(s: real, e: real, median: seq<Sample> -> Sample): Series -> Series
  {
    (r: Series) => PlotLineOf(r, s, e, median)
  }

  /** The lines of all reads whose legend flag is True, in order. */
  function PlotLines(ds: seq<Series>, legend: map<string, bool>, s: real, e: real,
                     median: seq<Sample> -> Sample): seq<Series>
  {
    FilterMap(ds, Shown(legend), LineOver(s, e, median))
  }

  /** The subset label after update_plot: the message for the last visible
      read's bin size, or the previous text when no read is visible. */
  function LabelAfter(ds: seq<Series>, legend: map<string, bool>, s: real, e: real, previous: string): string
  {
    if |ds| == 0 then previous
    else
      var last := ds[|ds| - 1];
      if Shown(legend)(last) then SubsetMessage(PlotBinSize(last, s, e))
      else LabelAfter(ds[..|ds| - 1], legend, s, e, previous)
  }

  /** One read more for update_plot: its line is appended when it is shown,
      and the label then reports its bin size. */
  lemma PlotStep(ds: seq<Series>, i: nat, legend: map<string, bool>, s: real, e: real,
                 median: seq<Sample> -> Sample, previous: string)
    requires i < |ds|
    ensures PlotLines(ds[..i + 1], legend, s, e, median) ==
      PlotLines(ds[..i], legend, s, e, median) + (if Shown(legend)(ds[i]) then [PlotLineOf(ds[i], s, e, median)] else [])
    ensures LabelAfter(ds[..i + 1], legend, s, e, previous) ==
      if Shown(legend)(ds[i]) then SubsetMessage(PlotBinSize(ds[i], s, e))
      else LabelAfter(ds[..i], legend, s, e, previous)
  {
    assert ds[..i + 1][..i] == ds[..i];
  }

  /** update_subset_label's text for a bin size. */
  function SubsetMessage(binSize: nat): string
  {
    if binSize <= 1 then NoSubsettingMessage
    else SubsettingPrefix + NatToString(binSize) + " measurements."
  }

  /** The label says that nothing was subset exactly when the bin size is
      at most 1, and otherwise names the bin size. */
  lemma SubsetMessageMeaning(binSize: nat)
    ensures SubsetMessage(binSize) == NoSubsettingMessage <==> binSize <= 1
    ensures binSize > 1 ==> NatToString(binSize) <= SubsetMessage(binSize)[45..]
  {
    if binSize > 1 {
      var digits := NatToString(binSize);
      var m := SubsettingPrefix + digits + " measurements.";
      assert |SubsettingPrefix| == 45;
      assert m[0] == 'S' && NoSubsettingMessage[0] == 'N';
      assert m[45..] == digits + " measurements.";
    }
  }

  /** update_plot draws a line for a read exactly when its legend flag is
      True: every line is the line of a visible read, and every visible read
      has its line. */
  lemma PlotLinesAreVisibleReads(ds: seq<Series>, legend: map<string, bool>, s: real, e: real,
                                 median: seq<Sample> -> Sample)
    ensures forall line :: line in PlotLines(ds, legend, s, e, median) ==>
      exists i :: 0 <= i < |ds| && ds[i].id in legend && legend[ds[i].id] && line == PlotLineOf(ds[i], s, e, median)
    ensures forall i :: 0 <= i < |ds| && ds[i].id in legend && legend[ds[i].id] ==>
      PlotLineOf(ds[i], s, e, median) in PlotLines(ds, legend, s, e, median)
  {
    FilterMapMembers(ds, Shown(legend), LineOver(s, e, median));
    forall line | line in PlotLines(ds, legend, s, e, median)
      ensures exists i :: 0 <= i < |ds| && ds[i].id in legend && legend[ds[i].id] && line == PlotLineOf(ds[i], s, e, median)
    {
      assert ImageOfKept(ds, Shown(legend), LineOver(s, e, median), line);
    }
    forall i | 0 <= i < |ds| && ds[i].id in legend && legend[ds[i].id]
      ensures PlotLineOf(ds[i], s, e, median) in PlotLines(ds, legend, s, e, median)
    {
      assert Shown(legend)(ds[i]);
    }
  }

  /** A subsampled slice of n points has fewer than 2 * SubsampleBinCount
      points, and one shorter than that is not subsampled at all. */
  lemma SubsampleCount(n: nat)
    ensures CeilDiv(n, BinSize(n, SubsampleBinCount)) < 2 * SubsampleBinCount
    ensures n < 2 * SubsampleBinCount ==> CeilDiv(n, BinSize(n, SubsampleBinCount)) == n
  {
    if n > SubsampleBinCount {
      BinnedLengthBounds(n, SubsampleBinCount);
    }
    if n < 2 * SubsampleBinCount {
      CeilDivUnique(n, 1, n);
    }
  }

  /** A plotted line never has 10,000 points or more, and its x and y stay
      aligned. A slice shorter than 2 * SubsampleBinCount is drawn whole. */
  lemma PlotLinePointBound(r: Series, s: real, e: real, median: seq<Sample> -> Sample)
    requires |r.x| == |r.y|
    ensures |PlotLineOf(r, s, e, median).x| == |PlotLineOf(r, s, e, median).y| < 2 * SubsampleBinCount
    ensures var xs := PySlice(r.x, SliceStart(|r.x|, s), SliceEnd(|r.x|, e));
      |xs| < 2 * SubsampleBinCount ==> PlotLineOf(r, s, e, median).x == xs
  {
    var xs := PySlice(r.x, SliceStart(|r.x|, s), SliceEnd(|r.x|, e));
    var ys := PySlice(r.y, SliceStart(|r.x|, s), SliceEnd(|r.x|, e));
    assert |ys| == |xs|;
    SubsampleCount(|xs|);
    if |xs| < 2 * SubsampleBinCount {
      StridedByOne(xs);
    }
  }

  /** Taking every element keeps the sequence. */
  lemma StridedByOne(s: seq<real>)
    ensures Strided(s, 1) == s
  {
    CeilDivUnique(|s|, 1, |s|);
  }

  /** The subset label reads "no subsetting" exactly when the sliced read
      has fewer than 2 * SubsampleBinCount samples. */
  lemma NoSubsettingBelowTwiceBinCount(r: Series, s: real, e: real)
    ensures SubsetMessage(PlotBinSize(r, s, e)) == NoSubsettingMessage <==>
      |PySlice(r.x, SliceStart(|r.x|, s), SliceEnd(|r.x|, e))| < 2 * SubsampleBinCount
  {
    SubsetMessageMeaning(PlotBinSize(r, s, e));
  }

  /** The default range (0.0, 1.0) slices the whole read. */
  lemma FullRangeSlicesAll(r: Series)
    ensures SliceStart(|r.x|, 0.0) == 0 && SliceEnd(|r.x|, 1.0) == |r.x|
    ensures PySlice(r.x, SliceStart(|r.x|, 0.0), SliceEnd(|r.x|, 1.0)) == r.x
  {
  }

  /** Python truthiness of a float | None ratio: 0.0 and None are false. */
  predicate TruthyRatio(r: Option<real>)
  {
    r.Some? && r.value != 0.0
  }

  /** How ZoomIn reads the two input fields: nothing happens when the first
      is empty (the second is never looked at, as both halves of the check
      test the first); otherwise both must parse as int. */
  datatype ZoomRequest = NotTyped | Invalid | Limits(x1: int, x2: int)

  function ReadZoomInput(text1: string, text2: string): (r: ZoomRequest)
    ensures r == NotTyped <==> |text1| == 0
    ensures r.Limits? ==> ParseInt(text1) == Some(r.x1) && ParseInt(text2) == Some(r.x2)
    ensures |text1| > 0 && (ParseInt(text1).None? || ParseInt(text2).None?) ==> r == Invalid
  {
    if |text1| > 0 then
      var p1, p2 := ParseInt(text1), ParseInt(text2);
      if p1.None? || p2.None? then Invalid else Limits(p1.value, p2.value)
    else NotTyped
  }

  /** A typed first limit with an empty second field is reported as invalid
      input rather than ignored. */
  lemma EmptySecondLimitIsInvalid(text1: string)
    requires |text1| > 0
    ensures ReadZoomInput(text1, "") == Invalid
  {
    ParseIntBlank("");
  }

  /** Typing two numbers zooms to them. */
  lemma TypedLimitsAreRead(x1: int, x2: int)
    ensures ReadZoomInput(IntToString(x1), IntToString(x2)) == Limits(x1, x2)
  {
    IntRoundTrip(x1);
    IntRoundTrip(x2);
    assert |NatToString(if x1 < 0 then -x1 else x1)| > 0;
  }

  /** Outcome of ZoomIn. */
  datatype ZoomOutcome = NothingTyped | InvalidInput | ZoomFailed | Zoomed(ratios: (real, real))

  /** Outcome of opening the window. */
  datatype OpenOutcome = Opened | EmptyData | OverviewNotLoaded(reason: SetDataOutcome)

  class FigureWindow {
    var data: seq<Series>
    var dataNorm: seq<Series>
    var legendSelected: map<string, bool>
    var showNorm: bool
    var currentStart: Option<real>
    var currentEnd: Option<real>
    /** The lines handed to matplotlib by the last update_plot. */
    var lines: seq<Series>
    var subsetLabel: string
    const overview: OverviewWidget
    const median: seq<Sample> -> Sample

    /** Every read, raw or normalised, has a legend flag. */
    ghost predicate Valid()
      reads this
    {
      && (forall i :: 0 <= i < |data| ==> data[i].id in legendSelected)
      && (forall i :: 0 <= i < |dataNorm| ==> dataNorm[i].id in legendSelected)
    }

    /** The window after init_data and before the overview is filled. */
    constructor (p: Prepared, median: seq<Sample> -> Sample)
      requires forall i :: 0 <= i < |p.data| ==> p.data[i].id in p.legend
      requires forall i :: 0 <= i < |p.dataNorm| ==> p.dataNorm[i].id in p.legend
      ensures Valid()
      ensures data == p.data && dataNorm == p.dataNorm && legendSelected == p.legend
      ensures !showNorm && currentStart == None && currentEnd == None && lines == [] && subsetLabel == ""
      ensures this.median == median && fresh(overview)
      ensures overview.series == [] && overview.zoomStart == None && overview.currentStart == None
    {
      data, dataNorm, legendSelected := p.data, p.dataNorm, p.legend;
      showNorm := false;
      currentStart, currentEnd := None, None;
      lines, subsetLabel := [], "";
      this.median := median;
      overview := new OverviewWidget();
    }

    /** get_current_data: the normalised reads when they are shown, the raw
      reads otherwise; either way every read has a legend flag. */
    function CurrentData(): (r: seq<Series>)
      reads this
      ensures r == data || r == dataNorm
      ensures Valid() ==> forall i :: 0 <= i < |r| ==> r[i].id in legendSelected
    {
      if showNorm then dataNorm else data
    }

    /** update_plot(s, e): replaces the lines by those of the visible reads
      over the ratio range [s, e), updates the subset label and stores the
      ratios. */
    method UpdatePlot(s: real, e: real)
      requires Valid()
      modifies this`lines, this`subsetLabel, this`currentStart, this`currentEnd
      ensures Valid()
      ensures lines == PlotLines(CurrentData(), legendSelected, s, e, median)
      ensures subsetLabel == LabelAfter(CurrentData(), legendSelected, s, e, old(subsetLabel))
      ensures currentStart == Some(s) && currentEnd == Some(e)
    {
      var current := CurrentData();
      lines := [];
      var i := 0;
      while i < |current|
        invariant 0 <= i <= |current|
        invariant lines == PlotLines(current[..i], legendSelected, s, e, median)
        invariant subsetLabel == LabelAfter(current[..i], legendSelected, s, e, old(subsetLabel))
      {
        PlotStep(current, i, legendSelected, s, e, median, old(subsetLabel));
        if Shown(legendSelected)(current[i]) {
          subsetLabel := SubsetMessage(PlotBinSize(current[i], s, e));
          lines := lines + [PlotLineOf(current[i], s, e, median)];
        }
        i := i + 1;
      }
      assert current[..i] == current;
      currentStart, currentEnd := Some(s), Some(e);
    }

    /** The range toggle_signal and show_data re-plot: the stored ratios when
      both are truthy, (0.0, 1.0) otherwise. */
    function ReplotRange(): (r: (real, real))
      reads this
      ensures TruthyRatio(currentStart) && TruthyRatio(currentEnd) ==> r == (currentStart.value, currentEnd.value)
      ensures !(TruthyRatio(currentStart) && TruthyRatio(currentEnd)) ==> r == (0.0, 1.0)
    {
      if TruthyRatio(currentStart) && TruthyRatio(currentEnd) then (currentStart.value, currentEnd.value)
      else (0.0, 1.0)
    }

    /** toggle_signal: sets the read's legend flag and re-plots over
      ReplotRange. */
    method ToggleSignal(id: string, checked: bool)
      requires Valid()
      modifies this`legendSelected, this`lines, this`subsetLabel, this`currentStart, this`currentEnd
      ensures Valid()
      ensures legendSelected == old(legendSelected)[id := checked]
      ensures lines == PlotLines(CurrentData(), legendSelected, old(ReplotRange()).0, old(ReplotRange()).1, median)
      ensures subsetLabel == LabelAfter(CurrentData(), legendSelected, old(ReplotRange()).0, old(ReplotRange()).1, old(subsetLabel))
      ensures currentStart == Some(old(ReplotRange()).0) && currentEnd == Some(old(ReplotRange()).1)
    {
      legendSelected := legendSelected[id := checked];
      var r := ReplotRange();
      UpdatePlot(r.0, r.1);
    }

    /** The overview's zoom_range_changed signal drives update_plot. */
    method OnZoomRangeChanged(emitted: Option<(real, real)>)
      requires Valid()
      modifies this`lines, this`subsetLabel, this`currentStart, this`currentEnd
      ensures Valid()
      ensures emitted.None? ==> unchanged(this)
      ensures emitted.Some? ==>
        && lines == PlotLines(CurrentData(), legendSelected, emitted.value.0, emitted.value.1, median)
        && subsetLabel == LabelAfter(CurrentData(), legendSelected, emitted.value.0, emitted.value.1, old(subsetLabel))
        && currentStart == Some(emitted.value.0) && currentEnd == Some(emitted.value.1)
    {
      if emitted.Some? {
        UpdatePlot(emitted.value.0, emitted.value.1);
      }
    }

    /** A mouse release on the overview: the overview commits the selection
      and emits its ratios, and update_plot follows them. */
    method OverviewRelease(x: int, leftButton: bool, width: nat) returns (emitted: Option<(real, real)>)
      requires Valid()
      modifies this`lines, this`subsetLabel, this`currentStart, this`currentEnd,
        overview`zoomStart, overview`zoomEnd, overview`currentStart, overview`currentEnd
      ensures Valid()
      ensures Truthy(old(overview.zoomStart)) && leftButton && width > 0 ==>
        var start := old(overview.zoomStart).value;
        var span := ReleaseSpan(start, x, overview.xMax);
        var ratios := ReleaseRatios(start, x, overview.xMax, width);
        && emitted == Some(ratios)
        && overview.currentStart == Some(span.0) && overview.currentEnd == Some(span.1)
        && overview.zoomStart == None && overview.zoomEnd == None
        && lines == PlotLines(CurrentData(), legendSelected, ratios.0, ratios.1, median)
        && subsetLabel == LabelAfter(CurrentData(), legendSelected, ratios.0, ratios.1, old(subsetLabel))
        && currentStart == Some(ratios.0) && currentEnd == Some(ratios.1)
      ensures !(Truthy(old(overview.zoomStart)) && leftButton && width > 0) ==>
        emitted == None && unchanged(this) && unchanged(overview)
    {
      emitted := overview.Release(x, leftButton, width);
      OnZoomRangeChanged(emitted);
    }

    /** zoom_in: reads the two fields and, for two ints, zooms the overview
      to them, which re-plots; on every other outcome nothing changes. */
    method ZoomIn(text1: string, text2: string, width: nat) returns (outcome: ZoomOutcome)
      requires Valid()
      modifies this`lines, this`subsetLabel, this`currentStart, this`currentEnd, overview`currentStart, overview`currentEnd
      ensures Valid()
      ensures ReadZoomInput(text1, text2) == NotTyped ==> outcome == NothingTyped
      ensures ReadZoomInput(text1, text2) == Invalid ==> outcome == InvalidInput
      ensures ReadZoomInput(text1, text2).Limits? ==>
        var z := ReadZoomInput(text1, text2);
        (if overview.xMax == 0 then outcome == ZoomFailed
         else
           && outcome == Zoomed(ZoomRatios(z.x1, z.x2, overview.xMax))
           && overview.currentStart == Some(ZoomPixels(z.x1, z.x2, overview.xMax, width).0)
           && overview.currentEnd == Some(ZoomPixels(z.x1, z.x2, overview.xMax, width).1))
      ensures outcome.Zoomed? ==>
        && lines == PlotLines(CurrentData(), legendSelected, outcome.ratios.0, outcome.ratios.1, median)
        && subsetLabel == LabelAfter(CurrentData(), legendSelected, outcome.ratios.0, outcome.ratios.1, old(subsetLabel))
        && currentStart == Some(outcome.ratios.0) && currentEnd == Some(outcome.ratios.1)
      ensures !outcome.Zoomed? ==>
        && lines == old(lines) && subsetLabel == old(subsetLabel)
        && currentStart == old(currentStart) && currentEnd == old(currentEnd)
        && overview.currentStart == old(overview.currentStart) && overview.currentEnd == old(overview.currentEnd)
    {
      var request := ReadZoomInput(text1, text2);
      match request
      case NotTyped =>
        outcome := NothingTyped;
      case Invalid =>
        outcome := InvalidInput;
      case Limits(x1, x2) =>
        var emitted := overview.SetZoom(x1, x2, width);
        if emitted.None? {
          outcome := ZoomFailed;
        } else {
          UpdatePlot(emitted.value.0, emitted.value.1);
          outcome := Zoomed(emitted.value);
        }
    }

    /** reset_zoom: re-plots the full range and clears the overview's
      zoom. */
    method ResetZoom()
      requires Valid()
      modifies this`lines, this`subsetLabel, this`currentStart, this`currentEnd, overview`currentStart, overview`currentEnd
      ensures Valid()
      ensures lines == PlotLines(CurrentData(), legendSelected, 0.0, 1.0, median)
      ensures subsetLabel == LabelAfter(CurrentData(), legendSelected, 0.0, 1.0, old(subsetLabel))
      ensures currentStart == Some(0.0) && currentEnd == Some(1.0)
      ensures overview.currentStart == None && overview.currentEnd == None
    {
      UpdatePlot(0.0, 1.0);
      overview.ResetZoom();
    }

    /** overview.set_data(current data): only the overview changes, as
        set_data says. */
    method FillOverview(width: nat, height: nat) returns (loaded: SetDataOutcome)
      modifies overview`xVals, overview`xMax, overview`series, overview`scaled
      ensures overview.SetDataResult(loaded, CurrentData(), median, width, height)
      ensures overview.KeptOnFailure(loaded)
    {
      loaded := overview.SetData(CurrentData(), median, width, height);
    }

    /** The end of __init__: the overview is filled with the shown reads,
        then update_plot draws the full range; when set_data raises, the
        plot is not drawn. */
    method LoadAndPlot(width: nat, height: nat) returns (loaded: SetDataOutcome)
      requires Valid()
      modifies this`lines, this`subsetLabel, this`currentStart, this`currentEnd,
        overview`xVals, overview`xMax, overview`series, overview`scaled
      ensures Valid()
      ensures overview.SetDataResult(loaded, CurrentData(), median, width, height)
      ensures overview.KeptOnFailure(loaded)
      ensures loaded == Loaded ==>
        && lines == PlotLines(CurrentData(), legendSelected, 0.0, 1.0, median)
        && subsetLabel == LabelAfter(CurrentData(), legendSelected, 0.0, 1.0, old(subsetLabel))
        && currentStart == Some(0.0) && currentEnd == Some(1.0)
      ensures loaded != Loaded ==>
        && lines == old(lines) && subsetLabel == old(subsetLabel)
        && currentStart == old(currentStart) && currentEnd == old(currentEnd)
    {
      loaded := FillOverview(width, height);
      if loaded == Loaded {
        UpdatePlot(0.0, 1.0);
      }
    }

    /** show_data: chooses raw or normalised reads, reloads the overview with
      them (an exception there ends the call) and re-plots over
      ReplotRange. */
    method ShowData(norm: bool, width: nat, height: nat) returns (outcome: SetDataOutcome)
      requires Valid()
      modifies this`showNorm, this`lines, this`subsetLabel, this`currentStart, this`currentEnd,
        overview`xVals, overview`xMax, overview`series, overview`scaled
      ensures Valid()
      ensures showNorm == norm
      ensures overview.SetDataResult(outcome, CurrentData(), median, width, height)
      ensures overview.KeptOnFailure(outcome)
      ensures outcome != Loaded ==>
        && lines == old(lines) && subsetLabel == old(subsetLabel)
        && currentStart == old(currentStart) && currentEnd == old(currentEnd)
      ensures outcome == Loaded ==>
        && lines == PlotLines(CurrentData(), legendSelected, old(ReplotRange()).0, old(ReplotRange()).1, median)
        && subsetLabel == LabelAfter(CurrentData(), legendSelected, old(ReplotRange()).0, old(ReplotRange()).1, old(subsetLabel))
        && currentStart == Some(old(ReplotRange()).0) && currentEnd == Some(old(ReplotRange()).1)
    {
      var r := ReplotRange();
      showNorm := norm;
      outcome := FillOverview(width, height);
      if outcome != Loaded {
        return;
      }
      UpdatePlot(r.0, r.1);
    }
  }

  /** A stored zoom that starts at ratio 0.0 is falsy, so toggling a read
      or switching the data re-plots the full range. */
  lemma ZoomFromZeroIsForgotten(w: FigureWindow, e: real)
    requires w.currentStart == Some(0.0) && w.currentEnd == Some(e)
    ensures w.ReplotRange() == (0.0, 1.0)
  {
  }

  /** Opening the window: init_data, then the overview is filled with the
      shown reads, then update_plot draws the full range. An empty
      dictionary or a failing set_data aborts the window. */
  method OpenFigure(raw: seq<RawRead>, normalize: seq<Sample> -> seq<Sample>, median: seq<Sample> -> Sample,
                    width: nat, height: nat) returns (outcome: OpenOutcome, w: FigureWindow?, ghost prepared: Prepared)
    ensures outcome == EmptyData <==> |raw| == 0
    ensures outcome.Opened? ==>
      && w != null && fresh(w) && w.Valid() && !w.showNorm
      && PreparedFrom(prepared, raw, normalize) && w.data == prepared.data && w.dataNorm == prepared.dataNorm
      && w.lines == PlotLines(w.data, w.legendSelected, 0.0, 1.0, median)
      && w.currentStart == Some(0.0) && w.currentEnd == Some(1.0)
  {
    var init := InitData(raw, normalize);
    if init.None? {
      outcome, w, prepared := EmptyData, null, Prepared([], [], map[]);
      return;
    }
    var p := init.value;
    prepared := p;
    PreparedHasLegend(p, raw, normalize);
    w := new FigureWindow(p, median);
    var loaded := w.LoadAndPlot(width, height);
    outcome := if loaded == Loaded then Opened else OverviewNotLoaded(loaded);
  }

  /** Every prepared read has a legend flag. */
  lemma PreparedHasLegend(p: Prepared, raw: seq<RawRead>, normalize: seq<Sample> -> seq<Sample>)
    requires PreparedFrom(p, raw, normalize)
    ensures forall i :: 0 <= i < |p.data| ==> p.data[i].id in p.legend
    ensures forall i :: 0 <= i < |p.dataNorm| ==> p.dataNorm[i].id in p.legend
  {
    var sorted := Sorting.SortBy(raw, LongerFirst);
    forall i | 0 <= i < |p.data|
      ensures p.data[i].id in p.legend
    {
      assert p.data[i].id == sorted[i].id;
    }
    forall i | 0 <= i < |p.dataNorm|
      ensures p.dataNorm[i].id in p.legend
    {
      assert p.dataNorm[i].id == sorted[i].id;
    }
  }
}
