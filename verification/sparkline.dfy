/** The mini chart of the Portfolio Summary cards: which samples are drawn,
    how they are scaled into the 120 × 30 box, and the stroke colour. The
    SVG text and the random fallback series are not modelled. */
module Sparkline {
  import opened Common

  const Width: real := 120.0
  const Height: real := 30.0
  const MaxSamples: nat := 12
  /** Stroke of a series that ended at or above where it started. */
  const Rising: string := "#8b5cf6"
  /** Stroke of a series that ended below where it started. */
  const Falling: string := "#ef4444"

  /** `s.slice(-12)`: the last twelve samples, or all of them when fewer. */
  function LastSamples(s: seq<real>): (r: seq<real>)
    ensures |r| == if |s| < MaxSamples then |s| else MaxSamples
    ensures r == s[|s| - |r|..]
  {
    if |s| <= MaxSamples then s else s[|s| - MaxSamples..]
  }

  /** The `data` the component draws. `stored` is the stored 7-day price
      series of the coin, `small` the `smallData` prop. None means the
      component falls back to its random series. A stored series, even an
      empty one, is used in preference to `smallData` (an empty array is
      truthy). */
  function Series(stored: Option<seq<real>>, small: Option<seq<real>>): (r: Option<seq<real>>)
    ensures r.Some? ==> 1 <= |r.value| <= MaxSamples
    ensures stored.Some? ==> (r.Some? <==> stored.value != []) && (r.Some? ==> r.value == LastSamples(stored.value))
    ensures stored.None? && small.Some? ==> (r.Some? <==> small.value != []) && (r.Some? ==> r.value == LastSamples(small.value))
    ensures stored.None? && small.None? ==> r.None?
  {
    var data :=
      if stored.Some? then Some(LastSamples(stored.value))
      else if small.Some? then Some(LastSamples(small.value))
      else None;
    if data.Some? && |data.value| > 0 then data else None
  }

  /** `Math.min(...data)` */
  function SeqMin(s: seq<real>): (m: real)
    requires |s| > 0
    ensures m in s && forall i :: 0 <= i < |s| ==> m <= s[i]
  {
    if |s| == 1 then s[0]
    else
      var r := SeqMin(s[1..]);
      assert forall i :: 1 <= i < |s| ==> s[i] == s[1..][i - 1];
      if s[0] <= r then s[0] else r
  }

  /** `Math.max(...data)` */
  function SeqMax(s: seq<real>): (m: real)
    requires |s| > 0
    ensures m in s && forall i :: 0 <= i < |s| ==> s[i] <= m
  {
    if |s| == 1 then s[0]
    else
      var r := SeqMax(s[1..]);
      assert forall i :: 1 <= i < |s| ==> s[i] == s[1..][i - 1];
      if s[0] >= r then s[0] else r
  }

  /** `max - min || 1`: the spread, or 1 for a constant series. */
  function Range(data: seq<real>): (r: real)
    requires |data| > 0
    ensures r > 0.0
    ensures SeqMax(data) > SeqMin(data) ==> r == SeqMax(data) - SeqMin(data)
    ensures SeqMax(data) == SeqMin(data) ==> r == 1.0
    ensures forall i :: 0 <= i < |data| ==> data[i] - SeqMin(data) <= r
  {
    var d := SeqMax(data) - SeqMin(data);
    if d == 0.0 then 1.0 else d
  }

  /** A coordinate: a real number, or NaN (`0 / 0`). */
  datatype Coord = Num(v: real) | NaN

  datatype Point = Point(x: Coord, y: real)

  /** `(i / (data.length - 1)) * width`: NaN for a one-sample series. */
  function XAt(i: nat, n: nat): Coord
    requires i < n
  {
    if n == 1 then NaN else Num((i as real / (n - 1) as real) * Width)
  }

  /** `height - ((v - min) / range) * height` */
  function YAt(v: real, min: real, range: real): real
    requires range > 0.0
  {
    Height - ((v - min) / range) * Height
  }

  /** The polyline's points, one per sample, left to right: sample i at i
      equal steps across the width, and every point inside the box. */
  function Points(data: seq<real>): (ps: seq<Point>)
    requires |data| > 0
    ensures |ps| == |data|
    ensures |data| == 1 ==> ps[0].x == NaN
    ensures |data| >= 2 ==> forall i :: 0 <= i < |ps| ==> ps[i].x == Num(i as real * Step(|data|))
    ensures forall i :: 0 <= i < |ps| ==> 0.0 <= ps[i].y <= Height
  {
    var lo, range := SeqMin(data), Range(data);
    var ps := seq(|data|, i requires 0 <= i < |data| => Point(XAt(i, |data|), YAt(data[i], lo, range)));
    assert forall i :: 0 <= i < |ps| ==> PointPlaced(ps[i], i, |data|) by {
      forall i | 0 <= i < |ps| ensures PointPlaced(ps[i], i, |data|) {
        PlacePoint(i, |data|, data[i], lo, range);
      }
    }
    ps
  }

  /** Point `p` of sample `i` of `n` sits at i equal steps across the width
      and inside the box. */
  predicate PointPlaced(p: Point, i: nat, n: nat) {
    0.0 <= p.y <= Height && (n >= 2 ==> p.x == Num(i as real * Step(n)))
  }

  lemma PlacePoint(i: nat, n: nat, v: real, lo: real, range: real)
    requires i < n && range > 0.0 && lo <= v && v - lo <= range
    ensures PointPlaced(Point(XAt(i, n), YAt(v, lo, range)), i, n)
  {
    ScaledWithinBox(v, lo, range);
    if n >= 2 {
      XAtIsMultipleOfStep(i, n);
    }
  }

  /** The y of each point: the sample's distance above the minimum, as a
      share of the range, measured down from the top. */
  lemma PointY(data: seq<real>, i: nat)
    requires 0 <= i < |data|
    ensures Points(data)[i].y == YAt(data[i], SeqMin(data), Range(data))
  {
  }

  /** The lowest sample is drawn on the bottom edge of the box. */
  lemma LowestSampleOnBottom(data: seq<real>, i: nat)
    requires 0 <= i < |data| && data[i] == SeqMin(data)
    ensures Points(data)[i].y == Height
  {
    PointY(data, i);
  }

  /** Unless the series is constant, the highest sample is drawn on the top
      edge of the box: the series spans the whole height. */
  lemma HighestSampleOnTop(data: seq<real>, i: nat)
    requires 0 <= i < |data| && data[i] == SeqMax(data) && SeqMax(data) > SeqMin(data)
    ensures Points(data)[i].y == 0.0
  {
    PointY(data, i);
    TopSampleAtTop(data[i], SeqMin(data), Range(data));
  }

  /** A higher sample is never drawn lower than a smaller one. */
  lemma HigherSampleDrawnHigher(data: seq<real>, i: nat, j: nat)
    requires 0 <= i < |data| && 0 <= j < |data| && data[i] <= data[j]
    ensures Points(data)[j].y <= Points(data)[i].y
  {
    PointY(data, i);
    PointY(data, j);
    YAtMonotone(data[i], data[j], SeqMin(data), Range(data));
  }

  lemma ScaledWithinBox(v: real, lo: real, range: real)
    requires range > 0.0 && lo <= v && v - lo <= range
    ensures 0.0 <= YAt(v, lo, range) <= Height
  {
    var t := (v - lo) / range;
    assert t * range == v - lo;
    assert 0.0 <= t <= 1.0;
  }

  /** A sample one whole range above the minimum is drawn on the top edge. */
  lemma TopSampleAtTop(v: real, lo: real, range: real)
    requires range > 0.0 && v - lo == range
    ensures YAt(v, lo, range) == 0.0
  {
    assert (v - lo) / range == 1.0;
  }

  /** The scaling turns a higher sample into a smaller y, that is a point
      higher up in the box. */
  lemma YAtMonotone(v: real, w: real, lo: real, range: real)
    requires range > 0.0 && v <= w
    ensures YAt(w, lo, range) <= YAt(v, lo, range)
  {
    var a, b := (v - lo) / range, (w - lo) / range;
    assert a * range == v - lo && b * range == w - lo;
    assert a <= b;
  }

  /** With two or more samples the x coordinates (Points puts sample i at
      XAt(i, n)) run from 0 to the width in equal steps of
      width / (n − 1). */
  lemma XRunsAcrossWidth(n: nat)
    requires n >= 2
    ensures forall i :: 0 <= i < n ==> XAt(i, n) == Num(i as real * Step(n))
    ensures XAt(0, n) == Num(0.0)
    ensures XAt(n - 1, n) == Num(Width)
  {
    forall i | 0 <= i < n
      ensures XAt(i, n) == Num(i as real * Step(n))
    {
      XAtIsMultipleOfStep(i, n);
    }
    XAtIsMultipleOfStep(n - 1, n);
  }

  /** The x distance between consecutive points. */
  function Step(n: nat): real
    requires n >= 2
  {
    Width / (n - 1) as real
  }

  lemma XAtIsMultipleOfStep(i: nat, n: nat)
    requires 2 <= n && i < n
    ensures XAt(i, n) == Num(i as real * Step(n))
    ensures i == n - 1 ==> XAt(i, n) == Num(Width)
  {
    var d := (n - 1) as real;
    assert (i as real / d) * Width == i as real * (Width / d);
    if i == n - 1 {
      assert i as real / d == 1.0;
    }
  }

  /** A constant series does not divide by zero: its range is 1 and every
      point sits at y = height, a flat line. */
  lemma FlatSeriesIsFlatLine(data: seq<real>)
    requires |data| > 0
    requires forall i :: 0 <= i < |data| ==> data[i] == data[0]
    ensures Range(data) == 1.0
    ensures forall i :: 0 <= i < |data| ==> Points(data)[i].y == Height
  {
    var lo, hi := SeqMin(data), SeqMax(data);
    assert lo == data[0] && hi == data[0];
  }

  /** `data[data.length - 1] >= data[0] ? "#8b5cf6" : "#ef4444"` */
  function StrokeColor(data: seq<real>): (c: string)
    requires |data| > 0
    ensures c == Rising <==> data[|data| - 1] >= data[0]
    ensures c == Falling <==> data[|data| - 1] < data[0]
  {
    if data[|data| - 1] >= data[0] then Rising else Falling
  }

  /** The colour is a coarse trend: only the first and the last sample
      matter, whatever lies between them. */
  lemma ColorDependsOnEndsOnly(a: seq<real>, b: seq<real>)
    requires |a| > 0 && |b| > 0
    requires a[0] == b[0] && a[|a| - 1] == b[|b| - 1]
    ensures StrokeColor(a) == StrokeColor(b)
  {
  }
}
