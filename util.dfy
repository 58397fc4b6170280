/** Small building blocks shared by the viewer's modules: an Option type,
    integer helpers with Python's semantics (ceil division, truncating int(),
    slicing with negative and out-of-range bounds) and the chunking of an
    index range into fixed-size runs that the overview bins, the detail
    subsampling and both table pagers all use. */
module Util {

  datatype Option<T> = None | Some(value: T)

  /** A value, or the error a Python call would raise instead. */
  datatype Result<T, E> = Ok(value: T) | Err(error: E)

  /** One signal sample of a numpy float array; None stands for NaN. */
  type Sample = Option<real>

  function Min(a: int, b: int): int { if a <= b then a else b }

  function Max(a: int, b: int): int { if a >= b then a else b }

  /** math.ceil(n / d) for a non-negative n and a positive d: the number
      of runs of d items that n items fill. Its bounds are stated by
      CeilDivBounds. */
  function CeilDiv(n: nat, d: nat): (r: nat)
    requires d > 0
    ensures r == 0 <==> n == 0
    decreases n
  {
    if n == 0 then 0 else if n <= d then 1 else CeilDiv(n - d, d) + 1
  }

  /** CeilDiv(n, d) is the least r with r * d >= n. */
  lemma {:induction false} CeilDivBounds(n: nat, d: nat)
    requires d > 0
    ensures CeilDiv(n, d) * d >= n
    ensures CeilDiv(n, d) == 0 || (CeilDiv(n, d) - 1) * d < n
    decreases n
  {
    if n > d {
      CeilDivBounds(n - d, d);
      var c := CeilDiv(n - d, d);
      assert (c + 1) * d == c * d + d;
      assert c * d == (c - 1) * d + d;
    }
  }

  /** The ceiling is unique: any r with (r-1)*d < n <= r*d is CeilDiv(n, d). */
  lemma CeilDivUnique(n: nat, d: nat, r: nat)
    requires d > 0
    requires r * d >= n
    requires r == 0 || (r - 1) * d < n
    ensures r == CeilDiv(n, d)
  {
    var c := CeilDiv(n, d);
    CeilDivBounds(n, d);
    if r < c {
      assert c - 1 >= r;
      MulMonotone(r, c - 1, d);
      assert false;
    } else if r > c {
      assert r - 1 >= c;
      MulMonotone(c, r - 1, d);
      assert false;
    }
  }

  lemma MulMonotone(a: nat, b: nat, d: nat)
    requires a <= b
    ensures a * d <= b * d
  {
  }

  lemma MulCancel(r: nat, c: nat, b: nat)
    requires b > 0 && r * b >= c * b
    ensures r >= c
  {
    if r < c {
      MulMonotone(r + 1, c, b);
      assert false;
    }
  }

  // Steps of real arithmetic the solver does not take on its own inside
  // larger proofs.

  lemma DivNonneg(u: real, d: real)
    requires 0.0 <= u && 0.0 < d
    ensures 0.0 <= u / d
  {
  }

  lemma DivMonotone(u: real, w: real, d: real)
    requires u <= w && 0.0 < d
    ensures u / d <= w / d
  {
  }

  lemma DivSelf(d: real)
    requires 0.0 < d
    ensures d / d == 1.0
  {
  }

  lemma MulMonotoneReal(c: real, t: real, u: real)
    requires 0.0 <= c && t <= u
    ensures c * t <= c * u
  {
  }

  lemma DivBelow(u: real, c: real, d: real)
    requires d > 0.0 && u <= c * d
    ensures u / d <= c
  {
  }

  lemma DivTimes(u: real, d: real)
    requires d > 0.0
    ensures (u / d) * d == u
  {
  }

  lemma MulDiv(c: real, u: real, d: real)
    requires d > 0.0
    ensures c * (u / d) == u * c / d
  {
  }

  /** Python's int() of a float: truncation toward zero. */
  function Trunc(x: real): (r: int)
    ensures 0.0 <= x ==> 0 <= r && r as real <= x < r as real + 1.0
    ensures x < 0.0 ==> r <= 0 && r as real - 1.0 < x <= r as real
  {
    if x >= 0.0 then x.Floor else -((-x).Floor)
  }

  /** math.floor */
  function Floor(x: real): (r: int)
    ensures r as real <= x < r as real + 1.0
  {
    x.Floor
  }

  /** math.ceil */
  function Ceil(x: real): (r: int)
    ensures r as real - 1.0 < x <= r as real
  {
    -((-x).Floor)
  }

  /** How Python turns one bound of s[i:j] into an index: a negative bound
      counts from the end, and the result is clamped to [0, len]. */
  function SliceBound(i: int, len: nat): (r: nat)
    ensures r <= len
    ensures 0 <= i <= len ==> r == i
    ensures i > len ==> r == len
    ensures i < 0 && len + i >= 0 ==> r == len + i
    ensures len + i < 0 ==> r == 0
  {
    if i < 0 then (if len + i < 0 then 0 else len + i)
    else if i > len then len
    else i
  }

  /** Python's s[i:j] on a list or a one-dimensional array. */
  function PySlice<T>(s: seq<T>, i: int, j: int): (r: seq<T>)
    ensures 0 <= i <= j <= |s| ==> r == s[i..j]
    ensures |r| <= |s|
  {
    var a, b := SliceBound(i, |s|), SliceBound(j, |s|);
    if a <= b then s[a..b] else []
  }

  /** A Python slice is never longer than the distance between its bounds,
      whatever their signs. */
  lemma PySliceLength<T>(s: seq<T>, i: int, j: int)
    ensures i <= j ==> |PySlice(s, i, j)| <= j - i
    ensures j <= 0 && i <= j ==> (|s| + j <= 0 ==> PySlice(s, i, j) == [])
  {
  }

  /** x[::b]: every b-th element, starting with the first. */
  function Strided<T>(s: seq<T>, b: nat): (r: seq<T>)
    requires b >= 1
    ensures |r| == CeilDiv(|s|, b)
    ensures forall k :: 0 <= k < |r| ==> k * b < |s| && r[k] == s[k * b]
    decreases |s|
  {
    if |s| == 0 then []
    else
      var rest := Strided(s[Min(b, |s|)..], b);
      StridedStep(s, b, rest);
      [s[0]] + rest
  }

  lemma StridedStep<T>(s: seq<T>, b: nat, rest: seq<T>)
    requires b >= 1 && |s| > 0
    requires |rest| == CeilDiv(|s| - Min(b, |s|), b)
    requires forall k :: 0 <= k < |rest| ==> k * b < |s| - Min(b, |s|) && rest[k] == s[Min(b, |s|)..][k * b]
    ensures |[s[0]] + rest| == CeilDiv(|s|, b)
    ensures forall k :: 0 <= k < |rest| + 1 ==> k * b < |s| && ([s[0]] + rest)[k] == s[k * b]
  {
    if b < |s| {
      CeilDivStep(|s|, b);
      forall k | 1 <= k < |rest| + 1
        ensures k * b < |s| && ([s[0]] + rest)[k] == s[k * b]
      {
        assert (k - 1) * b + b == k * b;
      }
    } else {
      CeilDivUnique(|s|, b, 1);
    }
  }

  /** Chunking n items into runs of b: one run fewer once the first is taken. */
  lemma CeilDivStep(n: nat, b: nat)
    requires b >= 1 && b < n
    ensures CeilDiv(n, b) == CeilDiv(n - b, b) + 1
  {
  }

  /** The k-th run of size b over [0, n) is [ChunkStart(k, b), ChunkEnd(k, b, n)). */
  function ChunkStart(k: nat, b: nat): nat { k * b }

  function ChunkEnd(k: nat, b: nat, n: nat): nat { Min(k * b + b, n) }

  /** Index i lies in the k-th run of size b over [0, n). */
  predicate InChunk(i: int, k: nat, b: nat, n: nat)
  {
    ChunkStart(k, b) <= i < ChunkEnd(k, b, n)
  }

  /** The runs 0 .. CeilDiv(n, b)-1 partition [0, n): each is non-empty,
      each starts where the previous one ended, the last ends at n, and every
      index i lies in run i / b and in no other. */
  lemma ChunksPartition(n: nat, b: nat)
    requires b >= 1
    ensures ChunkStart(0, b) == 0
    ensures forall k :: 0 <= k < CeilDiv(n, b) ==> ChunkStart(k, b) < ChunkEnd(k, b, n)
    ensures forall k :: 0 <= k && k + 1 < CeilDiv(n, b) ==> ChunkEnd(k, b, n) == ChunkStart(k + 1, b)
    ensures n > 0 ==> ChunkEnd(CeilDiv(n, b) - 1, b, n) == n
    ensures forall i, k :: 0 <= i < n && 0 <= k ==> (InChunk(i, k, b, n) <==> k == i / b)
    ensures forall i :: 0 <= i < n ==> i / b < CeilDiv(n, b)
  {
    var c := CeilDiv(n, b);
    forall k | 0 <= k < c
      ensures ChunkStart(k, b) < ChunkEnd(k, b, n)
    {
      ChunkNonEmpty(n, b, k);
    }
    forall k | 0 <= k && k + 1 < c
      ensures ChunkEnd(k, b, n) == ChunkStart(k + 1, b)
    {
      ChunkContiguous(n, b, k);
    }
    if n > 0 {
      LastChunkEnd(n, b);
    }
    forall i, k | 0 <= i < n && 0 <= k
      ensures InChunk(i, k, b, n) <==> k == i / b
    {
      ChunkOf(n, b, i, k);
    }
    forall i | 0 <= i < n
      ensures i / b < c
    {
      ChunkIndexBound(n, b, i);
    }
  }

  lemma LastChunkEnd(n: nat, b: nat)
    requires b >= 1 && n > 0
    ensures ChunkEnd(CeilDiv(n, b) - 1, b, n) == n
  {
    CeilDivBounds(n, b);
    var c := CeilDiv(n, b);
    assert (c - 1) * b + b == c * b;
  }

  lemma ChunkIndexBound(n: nat, b: nat, i: nat)
    requires b >= 1 && i < n
    ensures i / b < CeilDiv(n, b)
  {
    CeilDivBounds(n, b);
    var c, q := CeilDiv(n, b), i / b;
    assert q * b <= i;
    if q >= c {
      MulMonotone(c, q, b);
      assert false;
    }
  }

  lemma ChunkNonEmpty(n: nat, b: nat, k: nat)
    requires b >= 1 && k < CeilDiv(n, b)
    ensures ChunkStart(k, b) < ChunkEnd(k, b, n)
  {
    CeilDivBounds(n, b);
    if k > 0 { assert k * b == (k - 1) * b + b; }
  }

  lemma ChunkContiguous(n: nat, b: nat, k: nat)
    requires b >= 1 && k + 1 < CeilDiv(n, b)
    ensures ChunkEnd(k, b, n) == ChunkStart(k + 1, b)
  {
    var c := CeilDiv(n, b);
    CeilDivBounds(n, b);
    assert k * b + b == (k + 1) * b;
    MulMonotone(k + 1, c - 1, b);
  }

  lemma ChunkOf(n: nat, b: nat, i: nat, k: nat)
    requires b >= 1 && i < n
    ensures InChunk(i, k, b, n) <==> k == i / b
  {
    var q := i / b;
    assert q * b <= i < q * b + b;
    assert q * b + b == (q + 1) * b;
    assert k * b + b == (k + 1) * b;
    if k < q {
      MulMonotone(k + 1, q, b);
    } else if k > q {
      MulMonotone(q + 1, k, b);
    }
  }

  /** np.arange(n) as floats: 0, 1, ..., n-1. */
  function Arange(n: nat): (r: seq<real>)
    ensures |r| == n
    ensures forall i :: 0 <= i < n ==> r[i] == i as real
  {
    seq(n, i requires 0 <= i < n => i as real)
  }

  /** A float array as samples: no value is NaN. */
  function AsSamples(x: seq<real>): (r: seq<Sample>)
    ensures |r| == |x| && forall i :: 0 <= i < |x| ==> r[i] == Some(x[i])
  {
    seq(|x|, i requires 0 <= i < |x| => Some(x[i]))
  }

  /** [f(a) for a in s if keep(a)]. */
  function FilterMap<A, B>(s: seq<A>, keep: A -> bool, f: A -> B): seq<B>
  {
    if |s| == 0 then []
    else FilterMap(s[..|s| - 1], keep, f) + (if keep(s[|s| - 1]) then [f(s[|s| - 1])] else [])
  }

  /** x is the image of a kept element of s. */
  ghost predicate ImageOfKept<A, B>(s: seq<A>, keep: A -> bool, f: A -> B, x: B)
  {
    exists i :: 0 <= i < |s| && keep(s[i]) && x == f(s[i])
  }

  /** Every element of FilterMap comes from a kept element of s, and every
      kept element of s contributes its image. */
  lemma FilterMapMembers<A, B>(s: seq<A>, keep: A -> bool, f: A -> B)
    ensures forall x :: x in FilterMap(s, keep, f) ==> ImageOfKept(s, keep, f, x)
    ensures forall i :: 0 <= i < |s| && keep(s[i]) ==> f(s[i]) in FilterMap(s, keep, f)
  {
    forall x | x in FilterMap(s, keep, f)
      ensures ImageOfKept(s, keep, f, x)
    {
      var j :| 0 <= j < |FilterMap(s, keep, f)| && FilterMap(s, keep, f)[j] == x;
      var i := FilterMapSource(s, keep, f, j);
    }
    forall i | 0 <= i < |s| && keep(s[i])
      ensures f(s[i]) in FilterMap(s, keep, f)
    {
      var j := FilterMapTarget(s, keep, f, i);
    }
  }

  /** The index in s of the j-th element of FilterMap. */
  lemma {:induction false} FilterMapSource<A, B>(s: seq<A>, keep: A -> bool, f: A -> B, j: nat) returns (i: nat)
    requires j < |FilterMap(s, keep, f)|
    ensures i < |s| && keep(s[i]) && FilterMap(s, keep, f)[j] == f(s[i])
  {
    var init := s[..|s| - 1];
    var prev := FilterMap(init, keep, f);
    assert FilterMap(s, keep, f) == prev + (if keep(s[|s| - 1]) then [f(s[|s| - 1])] else []);
    if j < |prev| {
      i := FilterMapSource(init, keep, f, j);
      assert s[i] == init[i];
    } else {
      i := |s| - 1;
    }
  }

  /** The index in FilterMap of the image of a kept s[i]. */
  lemma {:induction false} FilterMapTarget<A, B>(s: seq<A>, keep: A -> bool, f: A -> B, i: nat) returns (j: nat)
    requires i < |s| && keep(s[i])
    ensures j < |FilterMap(s, keep, f)| && FilterMap(s, keep, f)[j] == f(s[i])
  {
    var init := s[..|s| - 1];
    var prev := FilterMap(init, keep, f);
    assert FilterMap(s, keep, f) == prev + (if keep(s[|s| - 1]) then [f(s[|s| - 1])] else []);
    if i < |init| {
      assert s[i] == init[i];
      j := FilterMapTarget(init, keep, f, i);
    } else {
      j := |prev|;
    }
  }

  /** a + b + c, joined with a separator: Python's sep.join(parts). */
  function Join(parts: seq<string>, sep: string): string
  {
    if |parts| == 0 then ""
    else if |parts| == 1 then parts[0]
    else parts[0] + sep + Join(parts[1..], sep)
  }

  /** Python's str ordering: lexicographic by code point, a proper prefix first. */
  predicate StrLess(a: string, b: string)
  {
    if |a| == 0 then |b| > 0
    else if |b| == 0 then false
    else a[0] < b[0] || (a[0] == b[0] && StrLess(a[1..], b[1..]))
  }

  lemma {:induction false} StrLessIrreflexive(a: string)
    ensures !StrLess(a, a)
  {
    if |a| > 0 { StrLessIrreflexive(a[1..]); }
  }

  lemma {:induction false} StrLessTransitive(a: string, b: string, c: string)
    requires StrLess(a, b) && StrLess(b, c)
    ensures StrLess(a, c)
  {
    if |a| > 0 && |b| > 0 && |c| > 0 && a[0] == b[0] && b[0] == c[0] {
      StrLessTransitive(a[1..], b[1..], c[1..]);
    }
  }

  /** Two different strings are always ordered one way or the other. */
  lemma {:induction false} StrLessTotal(a: string, b: string)
    requires a != b
    ensures StrLess(a, b) || StrLess(b, a)
  {
    if |a| > 0 && |b| > 0 && a[0] == b[0] {
      assert a == [a[0]] + a[1..] && b == [b[0]] + b[1..];
      StrLessTotal(a[1..], b[1..]);
    }
  }
}
