/** The overview strip under the signal plot (OverviewWidget in
    figureWindow.py): it keeps a binned copy of every read's signal, scales it
    to the widget's pixel box, draws the line segments between non-NaN
    samples, and turns mouse drags or typed x-limits into a zoom selection
    that it reports to the plot as a pair of ratios. Widget width and height
    are parameters; the per-bin median is a parameter function. */
module Overview {
  import opened Util

  /** Number of bins the overview aims for (OVERVIEW_BIN_COUNT). */
  const OverviewBinCount: nat := 1000

  /** One read as the overview receives it: x-values, y-values (None = NaN)
      and the line colour. The dictionary of reads becomes a sequence in
      insertion order. */
  datatype Series = Series(id: string, x: seq<real>, y: seq<Sample>, color: string)

  /** One read in pixel coordinates. */
  datatype ScaledSeries = ScaledSeries(id: string, x: seq<Sample>, y: seq<Sample>, color: string)

  /** Why scale_between raises ValueError. */
  datatype ScaleError = EmptyInput | EqualBounds

  /** How set_data ended: the dictionary was empty (IndexError), some read
      has no non-NaN sample (max() of an empty array raises), scaling to the
      widget failed, or everything was loaded and scaled. */
  datatype SetDataOutcome = Loaded | NoSeries | SeriesWithoutValues | ScaleFailed(error: ScaleError)

  /** Python truthiness of an `int | None` attribute: 0 and None are false. */
  predicate Truthy(p: Option<int>)
  {
    p.Some? && p.value != 0
  }

  // ---------------------------------------------------------------- binning

  /** max(1, int(n / binCount)): the number of samples that share one bin.
      Bins hold a single sample exactly when there are fewer than two full
      bins' worth of samples; otherwise binCount bins of this size fit into
      n and binCount bins of one more sample do not. */
  function BinSize(n: nat, binCount: nat): (b: nat)
    requires binCount > 0
    ensures b >= 1
    ensures b == 1 <==> n < 2 * binCount
    ensures n >= binCount ==> b * binCount <= n < (b + 1) * binCount
  {
    if n / binCount < 1 then 1 else n / binCount
  }

  /** [median(y[i:i+b]) for i in range(0, len(y), b)]: one value per run of
      b samples, the last run possibly shorter. */
  function BinMedians(y: seq<Sample>, b: nat, median: seq<Sample> -> Sample): (r: seq<Sample>)
    requires b >= 1
    ensures |r| == CeilDiv(|y|, b)
    decreases |y|
  {
    if |y| == 0 then []
    else
      var rest := BinMedians(y[Min(b, |y|)..], b, median);
      if b < |y| then CeilDivStep(|y|, b); [median(y[..b])] + rest
      else CeilDivUnique(|y|, b, 1); [median(y)] + rest
  }

  /** Entry k of the medians is the median of run k of y, and that run is
      not empty. */
  lemma {:induction false} BinMedianAt(y: seq<Sample>, b: nat, median: seq<Sample> -> Sample, k: nat)
    requires b >= 1 && k < CeilDiv(|y|, b)
    ensures ChunkStart(k, b) < ChunkEnd(k, b, |y|)
    ensures BinMedians(y, b, median)[k] == median(y[ChunkStart(k, b)..ChunkEnd(k, b, |y|)])
    decreases k
  {
    var r := BinMedians(y, b, median);
    if k == 0 {
      assert ChunkStart(0, b) == 0 && ChunkEnd(0, b, |y|) == Min(b, |y|);
      assert y[0..Min(b, |y|)] == y[..Min(b, |y|)];
      if b >= |y| {
        assert y[..Min(b, |y|)] == y;
      }
    } else {
      assert b < |y|;
      var t := y[b..];
      CeilDivStep(|y|, b);
      assert r[k] == BinMedians(t, b, median)[k - 1];
      BinMedianAt(t, b, median, k - 1);
      ChunkShift(y, t, b, k - 1, median);
    }
  }

  /** Run j of y[b..] is run j + 1 of y. */
  lemma ChunkShift(y: seq<Sample>, t: seq<Sample>, b: nat, j: nat, median: seq<Sample> -> Sample)
    requires 1 <= b < |y| && t == y[b..]
    requires ChunkStart(j, b) < ChunkEnd(j, b, |t|)
    ensures ChunkStart(j + 1, b) < ChunkEnd(j + 1, b, |y|)
    ensures median(t[ChunkStart(j, b)..ChunkEnd(j, b, |t|)]) == median(y[ChunkStart(j + 1, b)..ChunkEnd(j + 1, b, |y|)])
  {
    assert j * b + b == (j + 1) * b;
    assert t[ChunkStart(j, b)..ChunkEnd(j, b, |t|)] == y[ChunkStart(j + 1, b)..ChunkEnd(j + 1, b, |y|)];
  }

  /** What set_data keeps of one read: a read of more than OverviewBinCount
      samples is reduced to every b-th x-value and the median of each run of
      b y-values; a shorter read is kept whole. */
  function Binned(s: Series, b: nat, median: seq<Sample> -> Sample): Series
    requires b >= 1
  {
    if |s.x| > OverviewBinCount then Series(s.id, Strided(s.x, b), BinMedians(s.y, b, median), s.color)
    else s
  }

  /** Binning with the bin size set_data uses keeps x and y aligned, keeps a
      read of at most OverviewBinCount samples whole, and otherwise leaves
      between OverviewBinCount and 2 * OverviewBinCount - 1 points: the
      overview may hold almost twice as many points as its bin count. */
  lemma {:induction false} BinnedPointCount(s: Series, median: seq<Sample> -> Sample)
    requires |s.x| == |s.y|
    ensures var r := Binned(s, BinSize(|s.x|, OverviewBinCount), median);
      && |r.x| == |r.y|
      && (|s.x| <= OverviewBinCount ==> r == s)
      && (|s.x| > OverviewBinCount ==> OverviewBinCount <= |r.x| < 2 * OverviewBinCount)
  {
    if |s.x| > OverviewBinCount {
      BinnedLengthBounds(|s.x|, OverviewBinCount);
    }
  }

  /** For n > binCount samples, chunking by BinSize(n, binCount) gives at
      least binCount and fewer than 2 * binCount chunks. */
  lemma {:induction false} BinnedLengthBounds(n: nat, binCount: nat)
    requires binCount >= 2 && n > binCount
    ensures binCount <= CeilDiv(n, BinSize(n, binCount)) < 2 * binCount
  {
    var b := BinSize(n, binCount);
    if b == 1 {
      CeilDivUnique(n, 1, n);
    } else {
      CeilDivBounds(n, b);
      ChunkCountBounds(n, binCount, b, CeilDiv(n, b));
    }
  }

  lemma ChunkCountBounds(n: nat, bc: nat, b: nat, r: nat)
    requires bc >= 2 && b >= 2
    requires b * bc <= n < (b + 1) * bc
    requires r * b >= n && (r == 0 || (r - 1) * b < n)
    ensures bc <= r < 2 * bc
  {
    assert bc * b == b * bc;
    MulCancel(r, bc, b);
    ExpandProducts(b, bc);
    MulMonotone(1, b - 1, bc - 1);
    if r >= 2 * bc {
      MulMonotone(2 * bc - 1, r - 1, b);
      assert false;
    }
  }

  lemma ExpandProducts(b: int, c: int)
    ensures (b - 1) * (c - 1) == b * c - b - c + 1
    ensures (2 * c - 1) * b == 2 * (b * c) - b
    ensures (b + 1) * c == b * c + c
  {
  }

  /** A read of 1999 samples is not binned at all (bin size 1), so the
      overview draws 1999 points for it, not OverviewBinCount. */
  lemma OverviewExceedsBinCount()
    ensures BinSize(1999, OverviewBinCount) == 1
    ensures CeilDiv(1999, BinSize(1999, OverviewBinCount)) == 1999
  {
    CeilDivUnique(1999, 1, 1999);
  }

  // ---------------------------------------------------------------- scaling

  /** np.nanmin: the smallest non-NaN sample, None when there is none. */
  function NanMin(s: seq<Sample>): (r: Option<real>)
    ensures r.None? <==> forall i :: 0 <= i < |s| ==> s[i].None?
    ensures r.Some? ==> exists i :: 0 <= i < |s| && s[i] == r
    ensures r.Some? ==> forall i :: 0 <= i < |s| && s[i].Some? ==> r.value <= s[i].value
    decreases |s|
  {
    if |s| == 0 then None
    else
      var rest := NanMin(s[1..]);
      assert forall i :: 1 <= i < |s| ==> s[i] == s[1..][i - 1];
      if s[0].None? then rest
      else if rest.None? || s[0].value <= rest.value then s[0]
      else rest
  }

  /** np.nanmax: the largest non-NaN sample, None when there is none. */
  function NanMax(s: seq<Sample>): (r: Option<real>)
    ensures r.None? <==> forall i :: 0 <= i < |s| ==> s[i].None?
    ensures r.Some? ==> exists i :: 0 <= i < |s| && s[i] == r
    ensures r.Some? ==> forall i :: 0 <= i < |s| && s[i].Some? ==> s[i].value <= r.value
    decreases |s|
  {
    if |s| == 0 then None
    else
      var rest := NanMax(s[1..]);
      assert forall i :: 1 <= i < |s| ==> s[i] == s[1..][i - 1];
      if s[0].None? then rest
      else if rest.None? || s[0].value >= rest.value then s[0]
      else rest
  }

  /** Min-max scaling of one value from [lo, hi] onto [a, b]. */
  function Affine(v: real, lo: real, hi: real, a: int, b: int): real
    requires lo < hi
  {
    a as real + (b - a) as real * Fraction(v, lo, hi)
  }

  /** Where v lies between lo and hi, as a fraction. */
  function Fraction(v: real, lo: real, hi: real): real
    requires lo < hi
  {
    (v - lo) / (hi - lo)
  }

  lemma FractionBounds(v: real, lo: real, hi: real)
    requires lo <= v <= hi && lo < hi
    ensures 0.0 <= Fraction(v, lo, hi) <= 1.0
    ensures v == lo ==> Fraction(v, lo, hi) == 0.0
    ensures v == hi ==> Fraction(v, lo, hi) == 1.0
  {
    var d := hi - lo;
    DivNonneg(v - lo, d);
    DivMonotone(v - lo, d, d);
    DivSelf(d);
  }

  lemma FractionMonotone(v: real, w: real, lo: real, hi: real)
    requires v <= w && lo < hi
    ensures Fraction(v, lo, hi) <= Fraction(w, lo, hi)
  {
    DivMonotone(v - lo, w - lo, hi - lo);
  }

  /** scale_between(data, a, b): empty input and a == b raise ValueError; a
      series whose non-NaN samples are all equal becomes (a + b) / 2
      everywhere, NaN slots included (np.full_like); otherwise each sample is
      mapped affinely so that the minimum lands on a and the maximum on b,
      and NaN stays NaN. A series with no non-NaN sample stays all NaN. */
  function ScaleBetween(data: seq<Sample>, a: int, b: int): (r: Result<seq<Sample>, ScaleError>)
    ensures r == Err(EmptyInput) <==> |data| == 0
    ensures r == Err(EqualBounds) <==> |data| > 0 && a == b
    ensures r.Ok? ==> |r.value| == |data|
  {
    if |data| == 0 then Err(EmptyInput)
    else if a == b then Err(EqualBounds)
    else
      var lo, hi := NanMin(data), NanMax(data);
      if lo.None? || hi.None? then Ok(data)
      else if lo.value == hi.value then Ok(seq(|data|, _ => Some((a + b) as real / 2.0)))
      else Ok(seq(|data|, i requires 0 <= i < |data| =>
        if data[i].None? then None else Some(Affine(data[i].value, lo.value, hi.value, a, b))))
  }

  /** The non-NaN samples of s are not all equal. */
  predicate Varies(s: seq<Sample>)
  {
    exists i, j :: 0 <= i < |s| && 0 <= j < |s| && s[i].Some? && s[j].Some? && s[i].value != s[j].value
  }

  lemma VariesBounds(s: seq<Sample>)
    requires Varies(s)
    ensures NanMin(s).Some? && NanMax(s).Some? && NanMin(s).value < NanMax(s).value
  {
    var i, j :| 0 <= i < |s| && 0 <= j < |s| && s[i].Some? && s[j].Some? && s[i].value != s[j].value;
  }

  /** Scaling onto [a, b] with a < b keeps every sample inside [a, b]. */
  lemma {:induction false} ScaleBetweenInRange(data: seq<Sample>, a: int, b: int, i: nat)
    requires a < b && i < |data|
    requires ScaleBetween(data, a, b).Ok?
    requires ScaleBetween(data, a, b).value[i].Some?
    ensures a as real <= ScaleBetween(data, a, b).value[i].value <= b as real
  {
    var lo, hi := NanMin(data), NanMax(data);
    if lo.Some? && hi.Some? && lo.value != hi.value {
      var v := data[i].value;
      AffineInRange(v, lo.value, hi.value, a, b);
    }
  }

  lemma AffineInRange(v: real, lo: real, hi: real, a: int, b: int)
    requires lo <= v <= hi && lo < hi && a < b
    ensures a as real <= Affine(v, lo, hi, a, b) <= b as real
  {
    FractionBounds(v, lo, hi);
    var d := (b - a) as real;
    MulMonotoneReal(d, 0.0, Fraction(v, lo, hi));
    MulMonotoneReal(d, Fraction(v, lo, hi), 1.0);
  }

  /** When the samples vary, the smallest one lands on a and the largest on
      b. */
  lemma {:induction false} ScaleBetweenEndpoints(data: seq<Sample>, a: int, b: int, i: nat)
    requires a != b && i < |data| && Varies(data)
    ensures ScaleBetween(data, a, b).Ok?
    ensures data[i] == NanMin(data) ==> ScaleBetween(data, a, b).value[i] == Some(a as real)
    ensures data[i] == NanMax(data) ==> ScaleBetween(data, a, b).value[i] == Some(b as real)
  {
    VariesBounds(data);
    var lo, hi := NanMin(data).value, NanMax(data).value;
    FractionBounds(lo, lo, hi);
    FractionBounds(hi, lo, hi);
  }

  /** Scaling onto [a, b] with a < b keeps the order of the samples. */
  lemma {:induction false} ScaleBetweenMonotone(data: seq<Sample>, a: int, b: int, i: nat, j: nat)
    requires a < b && i < |data| && j < |data|
    requires data[i].Some? && data[j].Some? && data[i].value <= data[j].value
    ensures ScaleBetween(data, a, b).Ok?
    ensures ScaleBetween(data, a, b).value[i].Some? && ScaleBetween(data, a, b).value[j].Some?
    ensures ScaleBetween(data, a, b).value[i].value <= ScaleBetween(data, a, b).value[j].value
  {
    var lo, hi := NanMin(data), NanMax(data);
    if lo.value != hi.value {
      FractionMonotone(data[i].value, data[j].value, lo.value, hi.value);
      MulMonotoneReal((b - a) as real, Fraction(data[i].value, lo.value, hi.value), Fraction(data[j].value, lo.value, hi.value));
    }
  }

  /** A NaN sample stays NaN and a number stays a number, unless all
      numbers in the series are equal: then every slot, NaN or not, becomes
      the midpoint (a + b) / 2. */
  lemma {:induction false} ScaleBetweenNaN(data: seq<Sample>, a: int, b: int)
    requires |data| > 0 && a != b
    ensures Varies(data) || (forall i :: 0 <= i < |data| ==> data[i].None?) ==>
      (forall i :: 0 <= i < |data| ==> (ScaleBetween(data, a, b).value[i].None? <==> data[i].None?))
    ensures !Varies(data) && (exists i :: 0 <= i < |data| && data[i].Some?) ==>
      (forall i :: 0 <= i < |data| ==> ScaleBetween(data, a, b).value[i] == Some((a + b) as real / 2.0))
  {
    if Varies(data) {
      VariesBounds(data);
    } else if exists i :: 0 <= i < |data| && data[i].Some? {
      var lo, hi := NanMin(data), NanMax(data);
      var i :| 0 <= i < |data| && data[i] == lo;
      var j :| 0 <= j < |data| && data[j] == hi;
      assert lo.value == hi.value;
    }
  }

  /** -(v) + height for every non-NaN v: Qt's y axis points down. */
  function FlipY(s: seq<Sample>, height: nat): (r: seq<Sample>)
    ensures |r| == |s|
    ensures forall i :: 0 <= i < |s| ==> (r[i].None? <==> s[i].None?)
    ensures forall i :: 0 <= i < |s| && s[i].Some? ==> r[i].value + s[i].value == height as real
  {
    seq(|s|, i requires 0 <= i < |s| => if s[i].None? then None else Some(height as real - s[i].value))
  }

  /** One read of scale_to_size: x scaled onto [0, width], y scaled onto
      [0, height] and flipped. */
  function ScaleSeries(s: Series, width: nat, height: nat): Result<ScaledSeries, ScaleError>
  {
    match ScaleBetween(AsSamples(s.x), 0, width)
    case Err(e) => Err(e)
    case Ok(t) =>
      match ScaleBetween(s.y, 0, height)
      case Err(e) => Err(e)
      case Ok(v) => Ok(ScaledSeries(s.id, t, FlipY(v, height), s.color))
  }

  /** A read scales only into a box that is at least one pixel wide and
      high, and only if it has samples; its scaled points then lie inside
      the box, with the largest sample of a varying signal at the top row
      (0) and the smallest at the bottom row (height). */
  lemma {:induction false} ScaleSeriesInBox(s: Series, width: nat, height: nat, i: nat)
    requires i < |s.y|
    ensures ScaleSeries(s, width, height).Ok? <==> |s.x| > 0 && width > 0 && height > 0
    ensures ScaleSeries(s, width, height).Ok? && s.y[i].Some? ==>
      var v := ScaleSeries(s, width, height).value.y[i].value;
      && 0.0 <= v <= height as real
      && (Varies(s.y) && s.y[i] == NanMax(s.y) ==> v == 0.0)
      && (Varies(s.y) && s.y[i] == NanMin(s.y) ==> v == height as real)
  {
    if ScaleSeries(s, width, height).Ok? && s.y[i].Some? {
      ScaleBetweenNaN(s.y, 0, height);
      ScaleBetweenInRange(s.y, 0, height, i);
      if Varies(s.y) {
        ScaleBetweenEndpoints(s.y, 0, height, i);
      }
    }
  }

  /** Pixel i * width / (n - 1): where x-value i lands when the x-values
      0, 1, ..., n-1 are spread evenly over the width. */
  function EvenPixel(i: nat, n: nat, width: nat): real
    requires n >= 2
  {
    i as real * width as real / (n - 1) as real
  }

  /** The x-values 0, 1, ..., n-1 of a read of n >= 2 samples are spread
      evenly over the width: the first lands at pixel 0, the last at the
      width. */
  lemma {:induction false} ScaledArangeSpread(n: nat, width: nat, i: nat)
    requires n >= 2 && width > 0 && i < n
    ensures ScaleBetween(AsSamples(Arange(n)), 0, width).Ok?
    ensures ScaleBetween(AsSamples(Arange(n)), 0, width).value[i] == Some(EvenPixel(i, n, width))
    ensures EvenPixel(0, n, width) == 0.0 && EvenPixel(n - 1, n, width) == width as real
  {
    var x := AsSamples(Arange(n));
    ArangeExtremes(n);
    ScaleBetweenAt(x, 0, width, i);
    AffineFromZero(i, n, width);
    EvenPixelEnds(n, width);
  }

  lemma AffineFromZero(i: nat, n: nat, width: nat)
    requires n >= 2
    ensures Affine(i as real, 0.0, (n - 1) as real, 0, width) == EvenPixel(i, n, width)
  {
    MulDiv(width as real, i as real, (n - 1) as real);
  }

  lemma EvenPixelEnds(n: nat, width: nat)
    requires n >= 2
    ensures EvenPixel(0, n, width) == 0.0 && EvenPixel(n - 1, n, width) == width as real
  {
    DivSelf((n - 1) as real);
    MulDiv(width as real, (n - 1) as real, (n - 1) as real);
  }

  /** Where the samples vary, each number is mapped by Affine. */
  lemma ScaleBetweenAt(data: seq<Sample>, a: int, b: int, i: nat)
    requires a != b && i < |data| && data[i].Some?
    requires NanMin(data).Some? && NanMax(data).Some? && NanMin(data).value < NanMax(data).value
    ensures ScaleBetween(data, a, b).Ok?
    ensures ScaleBetween(data, a, b).value[i] == Some(Affine(data[i].value, NanMin(data).value, NanMax(data).value, a, b))
  {
  }

  /** The smallest of 0, 1, ..., n-1 is 0 and the largest n-1. */
  lemma ArangeExtremes(n: nat)
    requires n >= 1
    ensures NanMin(AsSamples(Arange(n))) == Some(0.0)
    ensures NanMax(AsSamples(Arange(n))) == Some((n - 1) as real)
  {
    var x := AsSamples(Arange(n));
    assert forall i :: 0 <= i < n ==> x[i] == Some(i as real);
    CountingExtremes(x);
  }

  lemma CountingExtremes(x: seq<Sample>)
    requires |x| >= 1 && forall i :: 0 <= i < |x| ==> x[i] == Some(i as real)
    ensures NanMin(x) == Some(0.0) && NanMax(x) == Some((|x| - 1) as real)
  {
    var lo, hi := NanMin(x), NanMax(x);
    var p :| 0 <= p < |x| && x[p] == lo;
    var q :| 0 <= q < |x| && x[q] == hi;
    assert lo.value <= x[0].value;
    assert x[|x| - 1].value <= hi.value;
  }

  /** scale_to_size: every read scaled; the first read that cannot be scaled
      aborts with its error. */
  function ScaleToSize(series: seq<Series>, width: nat, height: nat): (r: Result<seq<ScaledSeries>, ScaleError>)
    ensures r.Ok? ==> |r.value| == |series|
    ensures r.Ok? ==> forall i :: 0 <= i < |series| ==> ScaleSeries(series[i], width, height) == Ok(r.value[i])
    ensures r.Err? <==> exists i :: 0 <= i < |series| && ScaleSeries(series[i], width, height).Err?
    ensures r.Err? ==> exists i :: 0 <= i < |series| && ScaleSeries(series[i], width, height) == Err(r.error)
    decreases |series|
  {
    if |series| == 0 then Ok([])
    else
      assert forall i :: 1 <= i < |series| ==> series[i] == series[1..][i - 1];
      match ScaleSeries(series[0], width, height)
      case Err(e) => Err(e)
      case Ok(first) =>
        match ScaleToSize(series[1..], width, height)
        case Err(e) => Err(e)
        case Ok(rest) => Ok([first] + rest)
  }

  // ---------------------------------------------------------------- painting

  /** paint_signals: the segments i -> i+1 that get drawn, in order. A
      segment is drawn exactly when neither of its two y-values is NaN. */
  method DrawnSegments(ys: seq<Sample>) returns (drawn: seq<nat>)
    ensures forall k :: 0 <= k < |drawn| ==> drawn[k] + 1 < |ys|
    ensures forall i :: 0 <= i < |ys| - 1 ==> (i in drawn <==> ys[i].Some? && ys[i + 1].Some?)
    ensures forall k, l :: 0 <= k < l < |drawn| ==> drawn[k] < drawn[l]
  {
    drawn := [];
    var i := 0;
    while i + 1 < |ys|
      invariant 0 <= i && (i == 0 || i < |ys|)
      invariant forall k :: 0 <= k < |drawn| ==> drawn[k] < i
      invariant forall j :: 0 <= j < i ==> (j in drawn <==> ys[j].Some? && ys[j + 1].Some?)
      invariant forall k, l :: 0 <= k < l < |drawn| ==> drawn[k] < drawn[l]
    {
      ghost var before := drawn;
      if ys[i].Some? && ys[i + 1].Some? {
        drawn := drawn + [i];
      }
      forall j | 0 <= j < i + 1
        ensures j in drawn <==> ys[j].Some? && ys[j + 1].Some?
      {
        if j < i {
          assert j in drawn <==> j in before;
        }
      }
      i := i + 1;
    }
  }

  // ---------------------------------------------------------------- zooming

  /** The span a finished drag from p to q selects before clamping: the two
      ends in order; a click (p == q) widened to two pixels around it; a drag
      shorter than ten pixels replaced by the two pixels around
      int((end - start) / 2), which is half the drag's length, not its
      midpoint. */
  function AdjustSpan(p: int, q: int): (r: (int, int))
    ensures r.0 < r.1
  {
    var s, e := Min(p, q), Max(p, q);
    if e == s then (s - 1, e + 1)
    else if e - s < 10 then ((e - s) / 2 - 1, (e - s) / 2 + 1)
    else (s, e)
  }

  /** A drag of at least ten pixels selects exactly the dragged pixels, in
      either direction; a click selects the two pixels around it. */
  lemma AdjustSpanLongDrag(p: int, q: int)
    ensures q - p >= 10 || p - q >= 10 ==> AdjustSpan(p, q) == (Min(p, q), Max(p, q)) && AdjustSpan(q, p) == AdjustSpan(p, q)
    ensures AdjustSpan(p, p) == (p - 1, p + 1)
  {
  }

  /** A short drag selects the same span wherever it is made: only its
      length counts. */
  lemma ShortDragIgnoresPosition(p: int, d: int)
    requires 0 < d < 10
    ensures AdjustSpan(p, p + d) == AdjustSpan(0, d) == (d / 2 - 1, d / 2 + 1)
  {
  }

  /** mouseReleaseEvent's span: AdjustSpan clamped to the x-limits (0, n),
      which are in data units although the span is in pixels. The result
      always lies within [0, n]; it is a proper interval exactly when the
      adjusted span overlaps (0, n). */
  function ReleaseSpan(p: int, q: int, n: nat): (r: (int, int))
    ensures 0 <= r.0 && r.1 <= n
    ensures r.0 < r.1 <==> AdjustSpan(p, q).0 < n && 0 < AdjustSpan(p, q).1 && 0 < n
    ensures 0 <= AdjustSpan(p, q).0 && AdjustSpan(p, q).1 <= n ==> r == AdjustSpan(p, q)
  {
    var a := AdjustSpan(p, q);
    (Max(0, a.0), Min(n, a.1))
  }

  /** Clamping pixels to data units: with a read of 500 samples in a widget
      800 pixels wide, dragging from pixel 600 to 700 yields the reversed
      span (600, 500). */
  lemma ReleaseSpanReversed()
    ensures ReleaseSpan(600, 700, 500) == (600, 500)
  {
  }

  /** The ratios mouseReleaseEvent emits: the clamped span divided by the
      widget width. They are never negative and never exceed n / width. */
  function ReleaseRatios(p: int, q: int, n: nat, width: nat): (r: (real, real))
    requires width > 0
    ensures 0.0 <= r.0 && r.1 <= n as real / width as real
  {
    var s := ReleaseSpan(p, q, n);
    DivNonneg(s.0 as real, width as real);
    DivMonotone(s.1 as real, n as real, width as real);
    (s.0 as real / width as real, s.1 as real / width as real)
  }

  /** A drag of at least ten pixels that stays within [0, n] emits its two
      ends, in order, divided by the width. */
  lemma ReleaseRatiosLongDrag(p: int, q: int, n: nat, width: nat)
    requires width > 0
    requires 0 <= p <= n && 0 <= q <= n && (q - p >= 10 || p - q >= 10)
    ensures ReleaseRatios(p, q, n, width) == (Min(p, q) as real / width as real, Max(p, q) as real / width as real)
  {
    AdjustSpanLongDrag(p, q);
  }

  /** set_zoom's interval in data units: x1 := min(x1, x2), then
      x2 := max(x1, x2), which is always the old x2, then both clamped to
      [0, n]. An ordered pair inside [0, n] is kept; a reversed pair
      collapses onto x2. */
  function ZoomBounds(x1: int, x2: int, n: nat): (r: (int, int))
    ensures x1 <= x2 ==> r == (Max(0, x1), Min(n, x2))
    ensures x1 > x2 ==> r == (Max(0, x2), Min(n, x2))
  {
    var lo := Min(x1, x2);
    var hi := Max(lo, x2);
    (Max(0, lo), Min(n, hi))
  }

  /** set_zoom's ratios: ZoomBounds divided by the data length n. Limits
      inside the data give ordered ratios in [0, 1]. */
  function ZoomRatios(x1: int, x2: int, n: nat): (r: (real, real))
    requires n > 0
    ensures 0 <= x1 <= x2 <= n ==> 0.0 <= r.0 <= r.1 <= 1.0
  {
    var z := ZoomBounds(x1, x2, n);
    if 0 <= x1 <= x2 <= n then
      DivNonneg(z.0 as real, n as real);
      DivMonotone(z.0 as real, z.1 as real, n as real);
      DivMonotone(z.1 as real, n as real, n as real);
      DivSelf(n as real);
      (z.0 as real / n as real, z.1 as real / n as real)
    else (z.0 as real / n as real, z.1 as real / n as real)
  }

  /** int(ratio * width): a ratio in [0, 1] lands on a pixel of the
      widget. */
  function Pixel(ratio: real, width: nat): (p: int)
    ensures 0.0 <= ratio <= 1.0 ==> 0 <= p <= width
  {
    var x := ratio * width as real;
    if 0.0 <= ratio <= 1.0 then
      MulMonotoneReal(width as real, 0.0, ratio);
      MulMonotoneReal(width as real, ratio, 1.0);
      TruncAtMost(x, width);
      Trunc(x)
    else Trunc(x)
  }

  /** Larger ratios never land on an earlier pixel. */
  lemma PixelMonotone(a: real, b: real, width: nat)
    requires 0.0 <= a <= b
    ensures Pixel(a, width) <= Pixel(b, width)
  {
    var x, y := a * width as real, b * width as real;
    assert 0.0 <= x <= y by {
      MulMonotoneReal(width as real, 0.0, a);
      MulMonotoneReal(width as real, a, b);
    }
    TruncMonotone(x, y);
    assert Pixel(a, width) == Trunc(x) && Pixel(b, width) == Trunc(y);
  }

  /** set_zoom's pixels: int(ratio * width) for both ratios. Limits inside
      the data give ordered pixels inside the widget. */
  function ZoomPixels(x1: int, x2: int, n: nat, width: nat): (p: (int, int))
    requires n > 0
    ensures 0 <= x1 <= x2 <= n ==> 0 <= p.0 <= p.1 <= width
  {
    var r := ZoomRatios(x1, x2, n);
    if 0 <= x1 <= x2 <= n then
      PixelMonotone(r.0, r.1, width);
      (Pixel(r.0, width), Pixel(r.1, width))
    else (Pixel(r.0, width), Pixel(r.1, width))
  }

  lemma TruncMonotone(x: real, y: real)
    requires 0.0 <= x <= y
    ensures 0 <= Trunc(x) <= Trunc(y)
  {
  }

  lemma TruncAtMost(x: real, n: int)
    requires 0.0 <= x <= n as real
    ensures Trunc(x) <= n
  {
  }

  /** Typed limits inside the data are used as given, in either order...
      except that a reversed pair selects nothing but x2. */
  lemma ZoomBoundsInside(x1: int, x2: int, n: nat)
    requires 0 <= x1 <= n && 0 <= x2 <= n
    ensures x1 <= x2 ==> ZoomBounds(x1, x2, n) == (x1, x2)
    ensures x1 > x2 ==> ZoomBounds(x1, x2, n) == (x2, x2)
  {
  }

  /** The loop of set_data: every read must have a non-NaN sample (the
      first that has none raises), and every read is binned by b. */
  method BinReads(data: seq<Series>, b: nat, median: seq<Sample> -> Sample) returns (r: Option<seq<Series>>)
    requires b >= 1
    ensures r.None? <==> exists i :: 0 <= i < |data| && NanMax(data[i].y).None?
    ensures r.Some? ==> |r.value| == |data| && forall i :: 0 <= i < |data| ==> r.value[i] == Binned(data[i], b, median)
  {
    var subset: seq<Series> := [];
    var i := 0;
    while i < |data|
      invariant 0 <= i <= |data|
      invariant forall j :: 0 <= j < i ==> NanMax(data[j].y).Some?
      invariant |subset| == i
      invariant forall j :: 0 <= j < i ==> subset[j] == Binned(data[j], b, median)
    {
      if NanMax(data[i].y).None? {
        assert 0 <= i < |data| && NanMax(data[i].y).None?;
        return None;
      }
      var bin := Binned(data[i], b, median);
      subset := subset + [bin];
      i := i + 1;
    }
    assert forall j :: 0 <= j < |data| ==> NanMax(data[j].y).Some?;
    return Some(subset);
  }

  /** The widget. The x-limits are (0, xMax); the lower limit is always 0.
      y_lims is computed by set_data but never read, so it is not kept. */
  class OverviewWidget {
    var xVals: seq<real>
    var xMax: nat
    var series: seq<Series>
    var scaled: seq<ScaledSeries>
    var zoomStart: Option<int>
    var zoomEnd: Option<int>
    var currentStart: Option<int>
    var currentEnd: Option<int>

    /** A widget without data and without a selection. */
    constructor ()
      ensures xVals == [] && xMax == 0 && series == [] && scaled == []
      ensures zoomStart == None && zoomEnd == None && currentStart == None && currentEnd == None
    {
      xVals, xMax, series, scaled := [], 0, [], [];
      zoomStart, zoomEnd, currentStart, currentEnd := None, None, None, None;
    }

    /** x_vals, the x-limit and the binned reads as set_data leaves them for
      data: the first read's x-values, its length, and every read binned by
      BinSize of that length. */
    ghost predicate HoldsBinned(data: seq<Series>, median: seq<Sample> -> Sample)
      reads this
    {
      && |data| > 0 && xVals == data[0].x && xMax == |data[0].x|
      && |series| == |data|
      && forall i :: 0 <= i < |data| ==> series[i] == Binned(data[i], BinSize(|data[0].x|, OverviewBinCount), median)
    }

    /** What set_data(data) leaves behind, outcome by outcome: it fails on an
      empty dict; otherwise it sets x_vals, and it fails exactly when some
      read has no number; otherwise the reads are binned and then scaled,
      or the scaling error is the outcome. */
    ghost predicate SetDataResult(outcome: SetDataOutcome, data: seq<Series>, median: seq<Sample> -> Sample,
                                  width: nat, height: nat)
      reads this
    {
      && (outcome == NoSeries <==> |data| == 0)
      && (|data| > 0 ==> xVals == data[0].x)
      && (|data| > 0 ==>
            (outcome == SeriesWithoutValues <==> exists i :: 0 <= i < |data| && NanMax(data[i].y).None?))
      && (outcome.Loaded? || outcome.ScaleFailed? ==> HoldsBinned(data, median))
      && (outcome.Loaded? ==> ScaleToSize(series, width, height) == Ok(scaled))
      && (outcome.ScaleFailed? ==> ScaleToSize(series, width, height) == Err(outcome.error))
    }

    /** The fields set_data keeps when it fails: all of them on an empty
      dict, all but x_vals when a read has no number, and the scaled reads
      when scaling raises. */
    twostate predicate KeptOnFailure(outcome: SetDataOutcome)
      reads this
    {
      && (outcome == NoSeries ==> unchanged(this))
      && (outcome == SeriesWithoutValues ==> xMax == old(xMax) && series == old(series) && scaled == old(scaled))
      && (outcome.ScaleFailed? ==> scaled == old(scaled))
    }

    /** set_data: takes the first read's x-values as the x-axis, checks that
      every read has a number (raising on the first that has none), bins
      every read by BinSize(len(x), OverviewBinCount) and scales the result
      to the widget. */
    method SetData(data: seq<Series>, median: seq<Sample> -> Sample, width: nat, height: nat)
      returns (outcome: SetDataOutcome)
      modifies this`xVals, this`xMax, this`series, this`scaled
      ensures SetDataResult(outcome, data, median, width, height)
      ensures KeptOnFailure(outcome)
    {
      if |data| == 0 {
        return NoSeries;
      }
      xVals := data[0].x;
      var n := |xVals|;
      var binned := BinReads(data, BinSize(n, OverviewBinCount), median);
      if binned.None? {
        return SeriesWithoutValues;
      }
      var subset := binned.value;
      xMax := n;
      series := subset;
      var r := ScaleToSize(series, width, height);
      if r.Ok? {
        scaled := r.value;
        outcome := Loaded;
      } else {
        outcome := ScaleFailed(r.error);
      }
    }

    /** resizeEvent: the stored reads are scaled to the new size; when that
      raises, the old scaled reads stay. */
    method Resize(width: nat, height: nat)
      modifies this`scaled
      ensures ScaleToSize(series, width, height).Ok? ==> scaled == ScaleToSize(series, width, height).value
      ensures ScaleToSize(series, width, height).Err? ==> scaled == old(scaled)
    {
      var r := ScaleToSize(series, width, height);
      if r.Ok? {
        scaled := r.value;
      }
    }

    /** mousePressEvent: a left click starts a selection at x. */
    method Press(x: int, leftButton: bool)
      modifies this`zoomStart
      ensures zoomStart == if leftButton then Some(x) else old(zoomStart)
    {
      if leftButton {
        zoomStart := Some(x);
      }
    }

    /** The index mouseMoveEvent looks up for the hover label,
      min(int(x / width * xMax), len(x_vals) - 1), or None when computing or
      using it raises: a zero width divides by zero, and an index below
      -len(x_vals) is out of range. */
    function HoverIndex(x: int, width: nat): Option<int>
      reads this
    {
      if width == 0 then None
      else
        var idx := Min(Trunc(x as real / width as real * xMax as real), |xVals| - 1);
        if -|xVals| <= idx then Some(idx) else None
    }

    /** With data loaded, hovering anywhere inside the widget finds a
      sample; dragging further left than one widget width raises before the
      selection is updated. */
    lemma HoverIndexInside(x: int, width: nat)
      requires |xVals| == xMax >= 1 && width > 0
      ensures 0 <= x < width ==> HoverIndex(x, width).Some? && 0 <= HoverIndex(x, width).value < xMax
      ensures x <= -2 * width ==> HoverIndex(x, width).None?
    {
      var w, n := width as real, xMax as real;
      if 0 <= x < width {
        DivNonneg(x as real, w);
        MulMonotoneReal(n, 0.0, x as real / w);
      }
      if x <= -2 * width {
        DivBelow(x as real, -2.0, w);
        MulMonotoneReal(n, x as real / w, -2.0);
      }
    }

    /** mouseMoveEvent: after the hover lookup succeeds, an ongoing selection
      (a truthy start) follows the mouse. */
    method Move(x: int, width: nat)
      modifies this`zoomEnd
      ensures HoverIndex(x, width).Some? && Truthy(zoomStart) ==> zoomEnd == Some(x)
      ensures !(HoverIndex(x, width).Some? && Truthy(zoomStart)) ==> zoomEnd == old(zoomEnd)
    {
      if HoverIndex(x, width).Some? && Truthy(zoomStart) {
        zoomEnd := Some(x);
      }
    }

    /** mouseReleaseEvent: a left release with a truthy selection start
      stores ReleaseSpan as the current zoom, ends the selection and emits
      the span divided by the width; a zero width raises before anything
      changes. Any other release changes nothing. */
    method Release(x: int, leftButton: bool, width: nat) returns (emitted: Option<(real, real)>)
      modifies this`zoomStart, this`zoomEnd, this`currentStart, this`currentEnd
      ensures Truthy(old(zoomStart)) && leftButton && width > 0 ==>
        var s := ReleaseSpan(old(zoomStart).value, x, xMax);
        && emitted == Some(ReleaseRatios(old(zoomStart).value, x, xMax, width))
        && currentStart == Some(s.0) && currentEnd == Some(s.1)
        && zoomStart == None && zoomEnd == None
      ensures !(Truthy(old(zoomStart)) && leftButton && width > 0) ==>
        emitted == None && unchanged(this)
    {
      if Truthy(zoomStart) && leftButton && width > 0 {
        var s := ReleaseSpan(zoomStart.value, x, xMax);
        emitted := Some(ReleaseRatios(zoomStart.value, x, xMax, width));
        currentStart, currentEnd := Some(s.0), Some(s.1);
        zoomStart, zoomEnd := None, None;
      } else {
        emitted := None;
      }
    }

    /** reset_zoom: forget the current zoom. */
    method ResetZoom()
      modifies this`currentStart, this`currentEnd
      ensures currentStart == None && currentEnd == None
    {
      currentStart, currentEnd := None, None;
    }

    /** set_zoom: emits ZoomRatios(x1, x2) and stores ZoomPixels(x1, x2) as
      the current zoom; with no data (xMax == 0) the ratio divides by zero
      and nothing changes. */
    method SetZoom(x1: int, x2: int, width: nat) returns (emitted: Option<(real, real)>)
      modifies this`currentStart, this`currentEnd
      ensures xMax == 0 ==> emitted == None && unchanged(this)
      ensures xMax > 0 ==>
        && emitted == Some(ZoomRatios(x1, x2, xMax))
        && currentStart == Some(ZoomPixels(x1, x2, xMax, width).0)
        && currentEnd == Some(ZoomPixels(x1, x2, xMax, width).1)
    {
      if xMax == 0 {
        return None;
      }
      emitted := Some(ZoomRatios(x1, x2, xMax));
      var px := ZoomPixels(x1, x2, xMax, width);
      currentStart, currentEnd := Some(px.0), Some(px.1);
    }

    /** paintEvent greys out the parts outside the current zoom only when
      both stored pixels are truthy. */
    predicate ShowsZoomShading()
      reads this
    {
      Truthy(currentStart) && Truthy(currentEnd)
    }
  }

  /** A zoom whose span starts at pixel 0 (for instance a drag that began
      left of the data) leaves the area outside it unshaded. */
  lemma ZoomFromLeftEdgeUnshaded(w: OverviewWidget)
    requires w.currentStart == Some(0)
    ensures !w.ShowsZoomShading()
  {
  }
}
