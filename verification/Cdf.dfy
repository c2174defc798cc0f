/** Piecewise linear cumulative distribution functions and their inverses, over exact reals. */
module Cdf {
  import opened Outcomes

  datatype Option<T> = None | Some(value: T)

  datatype Point = Point(value: real, prob: real)

  const FULL: real := 100.0

  // ---------------------------------------------------------------- straight lines

  function Times(a: real, b: real): real {
    a * b
  }

  function Slope(x0: real, y0: real, x1: real, y1: real): real
    requires x0 < x1
  {
    (y1 - y0) / (x1 - x0)
  }

  /** The line through (x0, y0) and (x1, y1), at x. */
  function Line(x0: real, y0: real, x1: real, y1: real, x: real): real
    requires x0 < x1
  {
    y0 + Times(x - x0, Slope(x0, y0, x1, y1))
  }

  /** The two ways in which the program writes it. */
  lemma LineForms(x0: real, y0: real, x1: real, y1: real, x: real)
    requires x0 < x1
    ensures Line(x0, y0, x1, y1, x) == y0 + (x - x0) * ((y1 - y0) / (x1 - x0))
    ensures Line(x0, y0, x1, y1, x) == y0 + (y1 - y0) / (x1 - x0) * (x - x0)
  {
  }

  lemma SlopePositive(x0: real, y0: real, x1: real, y1: real)
    requires x0 < x1 && y0 < y1
    ensures Slope(x0, y0, x1, y1) > 0.0
    ensures Times(x1 - x0, Slope(x0, y0, x1, y1)) == y1 - y0
    ensures Times(Slope(x0, y0, x1, y1), Slope(y0, x0, y1, x1)) == 1.0
  {
    QuotientPositive(y1 - y0, x1 - x0);
  }

  lemma QuotientPositive(a: real, b: real)
    requires a > 0.0 && b > 0.0
    ensures a / b > 0.0 && b * (a / b) == a && (a / b) * (b / a) == 1.0
  {
    var q, r := a / b, b / a;
    assert q * b == a && r * a == b;
    assert (q * r) * a == q * (r * a);
    assert (q * r - 1.0) * a == 0.0;
  }

  lemma LineEnds(x0: real, y0: real, x1: real, y1: real)
    requires x0 < x1 && y0 < y1
    ensures Line(x0, y0, x1, y1, x0) == y0 && Line(x0, y0, x1, y1, x1) == y1
  {
    SlopePositive(x0, y0, x1, y1);
    assert Times(0.0, Slope(x0, y0, x1, y1)) == 0.0;
  }

  lemma TimesRises(a: real, b: real, k: real)
    requires a < b && k > 0.0
    ensures Times(a, k) < Times(b, k)
  {
    assert (b - a) * k > 0.0;
  }

  lemma LineRises(x0: real, y0: real, x1: real, y1: real, x: real, z: real)
    requires x0 < x1 && y0 < y1 && x < z
    ensures Line(x0, y0, x1, y1, x) < Line(x0, y0, x1, y1, z)
  {
    SlopePositive(x0, y0, x1, y1);
    TimesRises(x - x0, z - x0, Slope(x0, y0, x1, y1));
  }

  lemma TimesInverse(a: real, k: real, m: real)
    requires Times(k, m) == 1.0
    ensures Times(Times(a, k), m) == a
  {
    assert (a * k) * m == a * (k * m);
  }

  lemma LineInverts(x0: real, y0: real, x1: real, y1: real, x: real)
    requires x0 < x1 && y0 < y1
    ensures Line(y0, x0, y1, x1, Line(x0, y0, x1, y1, x)) == x
  {
    SlopePositive(x0, y0, x1, y1);
    TimesInverse(x - x0, Slope(x0, y0, x1, y1), Slope(y0, x0, y1, x1));
  }

  // ---------------------------------------------------------------- interpolation in a table

  predicate Increasing(xs: seq<real>) {
    forall i: nat, j: nat :: i < j < |xs| ==> xs[i] < xs[j]
  }

  predicate Table(xs: seq<real>, ys: seq<real>) {
    |xs| == |ys| >= 2 && Increasing(xs) && Increasing(ys)
  }

  /** Interpolates in the first segment, from the `i`-th on, that ends at or after x. */
  function At(xs: seq<real>, ys: seq<real>, x: real, i: nat): Option<real>
    requires Table(xs, ys) && i > 0
    decreases |xs| - i
  {
    if i >= |xs| then None
    else if x <= xs[i] then Some(Line(xs[i - 1], ys[i - 1], xs[i], ys[i], x))
    else At(xs, ys, x, i + 1)
  }

  /** x lies in the segment that ends at `i`; the first one has no left end. */
  predicate InSegment(xs: seq<real>, x: real, i: nat) {
    0 < i < |xs| && x <= xs[i] && (i == 1 || xs[i - 1] < x)
  }

  lemma {:induction false} AtSegment(xs: seq<real>, ys: seq<real>, x: real, i: nat, from: nat)
    requires Table(xs, ys) && InSegment(xs, x, i) && 0 < from <= i
    ensures At(xs, ys, x, from) == Some(Line(xs[i - 1], ys[i - 1], xs[i], ys[i], x))
    decreases i - from
  {
    if from < i {
      assert xs[from] <= xs[i - 1];
      AtSegment(xs, ys, x, i, from + 1);
    }
  }

  lemma {:induction false} FindSegment(xs: seq<real>, x: real, from: nat) returns (i: nat)
    requires Increasing(xs) && 0 < from < |xs| && x <= xs[|xs| - 1] && (from == 1 || xs[from - 1] < x)
    ensures InSegment(xs, x, i)
    decreases |xs| - from
  {
    if x <= xs[from] {
      i := from;
    } else {
      i := FindSegment(xs, x, from + 1);
    }
  }

  lemma {:induction false} NoSegment(xs: seq<real>, ys: seq<real>, x: real, from: nat)
    requires Table(xs, ys) && from > 0 && x > xs[|xs| - 1]
    ensures At(xs, ys, x, from) == None
    decreases |xs| - from
  {
    if from < |xs| {
      assert xs[from] <= xs[|xs| - 1];
      NoSegment(xs, ys, x, from + 1);
    }
  }

  /** Within a segment the interpolated value lies in the same segment of the images. */
  lemma SegmentImage(xs: seq<real>, ys: seq<real>, x: real, i: nat)
    requires Table(xs, ys) && InSegment(xs, x, i)
    ensures At(xs, ys, x, 1).Some? && InSegment(ys, At(xs, ys, x, 1).value, i)
    ensures xs[0] <= x <==> ys[0] <= At(xs, ys, x, 1).value
  {
    AtSegment(xs, ys, x, i, 1);
    LineEnds(xs[i - 1], ys[i - 1], xs[i], ys[i]);
    if x < xs[i] {
      LineRises(xs[i - 1], ys[i - 1], xs[i], ys[i], x, xs[i]);
    }
    if x < xs[i - 1] {
      LineRises(xs[i - 1], ys[i - 1], xs[i], ys[i], x, xs[i - 1]);
    } else if xs[i - 1] < x {
      LineRises(xs[i - 1], ys[i - 1], xs[i], ys[i], xs[i - 1], x);
    }
  }

  lemma AtNoneIff(xs: seq<real>, ys: seq<real>, x: real)
    requires Table(xs, ys)
    ensures At(xs, ys, x, 1).None? <==> x > xs[|xs| - 1]
  {
    if x > xs[|xs| - 1] {
      NoSegment(xs, ys, x, 1);
    } else {
      var i := FindSegment(xs, x, 1);
      AtSegment(xs, ys, x, i, 1);
    }
  }

  lemma AtRises(xs: seq<real>, ys: seq<real>, x: real, z: real)
    requires Table(xs, ys) && x < z <= xs[|xs| - 1]
    ensures At(xs, ys, x, 1).Some? && At(xs, ys, z, 1).Some? && At(xs, ys, x, 1).value < At(xs, ys, z, 1).value
  {
    var i := FindSegment(xs, x, 1);
    var j := FindSegment(xs, z, 1);
    AtSegment(xs, ys, x, i, 1);
    AtSegment(xs, ys, z, j, 1);
    if i == j {
      LineRises(xs[i - 1], ys[i - 1], xs[i], ys[i], x, z);
    } else {
      SegmentImage(xs, ys, x, i);
      SegmentImage(xs, ys, z, j);
      assert ys[i] <= ys[j - 1];
    }
  }

  /** Interpolating back gives the argument again. */
  lemma AtInverts(xs: seq<real>, ys: seq<real>, x: real)
    requires Table(xs, ys) && x <= xs[|xs| - 1]
    ensures At(xs, ys, x, 1).Some? && At(ys, xs, At(xs, ys, x, 1).value, 1) == Some(x)
  {
    var i := FindSegment(xs, x, 1);
    SegmentImage(xs, ys, x, i);
    AtSegment(xs, ys, x, i, 1);
    AtSegment(ys, xs, At(xs, ys, x, 1).value, i, 1);
    LineInverts(xs[i - 1], ys[i - 1], xs[i], ys[i], x);
  }

  // ---------------------------------------------------------------- the distribution function

  function Values(c: seq<Point>): (s: seq<real>)
    ensures |s| == |c| && forall i: nat :: i < |c| ==> s[i] == c[i].value
  {
    seq(|c|, i requires 0 <= i < |c| => c[i].value)
  }

  function Probs(c: seq<Point>): (s: seq<real>)
    ensures |s| == |c| && forall i: nat :: i < |c| ==> s[i] == c[i].prob
  {
    seq(|c|, i requires 0 <= i < |c| => c[i].prob)
  }

  /** Neighbouring points rise, from the `i`-th point on. */
  predicate Rises(c: seq<Point>, i: nat)
    decreases |c| - i
  {
    if i >= |c| then true
    else i > 0 && c[i - 1].prob < c[i].prob && c[i - 1].value < c[i].value && Rises(c, i + 1)
  }

  predicate Valid(c: seq<Point>) {
    c != [] && c[0].prob == 0.0 && c[|c| - 1].prob == FULL && Rises(c, 1)
  }

  /** The program's check looks at the first point before it looks whether there is one. */
  function IsValidCdf(c: seq<Point>): Outcome<bool> {
    if c == [] then Aborted else Ok(Valid(c))
  }

  lemma {:induction false} RisesOrders(c: seq<Point>, i: nat, k: nat)
    requires Rises(c, i) && i > 0 && i <= k < |c|
    ensures c[k - 1].prob < c[k].prob && c[k - 1].value < c[k].value
    decreases k - i
  {
    if i < k {
      RisesOrders(c, i + 1, k);
    }
  }

  lemma {:induction false} RisesBetween(c: seq<Point>, j: nat, k: nat)
    requires Rises(c, 1) && j < k < |c|
    ensures c[j].prob < c[k].prob && c[j].value < c[k].value
    decreases k - j
  {
    RisesOrders(c, 1, k);
    if j + 1 < k {
      RisesBetween(c, j, k - 1);
    }
  }

  lemma {:induction false} OrderedRises(c: seq<Point>, i: nat)
    requires i > 0 && Increasing(Values(c)) && Increasing(Probs(c))
    ensures Rises(c, i)
    decreases |c| - i
  {
    if i < |c| {
      assert Values(c)[i - 1] < Values(c)[i] && Probs(c)[i - 1] < Probs(c)[i];
      OrderedRises(c, i + 1);
    }
  }

  /** Accepted: from 0 to 100 percent, with values and percentages both strictly increasing throughout. Only the empty
      list fails. */
  lemma ValidIff(c: seq<Point>)
    ensures Valid(c) <==>
            |c| >= 2 && c[0].prob == 0.0 && c[|c| - 1].prob == FULL && Increasing(Values(c)) && Increasing(Probs(c))
    ensures IsValidCdf(c).Aborted? <==> c == []
    ensures IsValidCdf(c).Ok? ==>
              (IsValidCdf(c).value <==>
                 |c| >= 2 && c[0].prob == 0.0 && c[|c| - 1].prob == FULL
                 && Increasing(Values(c)) && Increasing(Probs(c)))
  {
    if Valid(c) {
      forall j: nat, k: nat | j < k < |c| ensures Values(c)[j] < Values(c)[k] && Probs(c)[j] < Probs(c)[k] {
        RisesBetween(c, j, k);
      }
    } else if |c| >= 2 && Increasing(Values(c)) && Increasing(Probs(c)) {
      OrderedRises(c, 1);
    }
  }

  function ValueFromPercentile(c: seq<Point>, x: real): Option<real>
    requires Valid(c)
  {
    ValidIff(c);
    At(Probs(c), Values(c), x, 1)
  }

  function PercentileFromValue(c: seq<Point>, v: real): Option<real>
    requires Valid(c)
  {
    ValidIff(c);
    if v < 0.0 || v > c[|c| - 1].value then Some(-1.0) else At(Values(c), Probs(c), v, 1)
  }

  /** Percentages above 100 have no value; the program promises the same below 0, but extrapolates there. */
  lemma ValueIsNoneIff(c: seq<Point>, x: real)
    requires Valid(c)
    ensures ValueFromPercentile(c, x).None? <==> x > FULL
    ensures x <= FULL ==> (0.0 <= x <==> c[0].value <= ValueFromPercentile(c, x).value)
  {
    ValidIff(c);
    AtNoneIff(Probs(c), Values(c), x);
    if x <= FULL {
      var i := FindSegment(Probs(c), x, 1);
      SegmentImage(Probs(c), Values(c), x, i);
    }
  }

  /** A value gets a percentage between 0 and 100 exactly if it lies inside the distribution and is not
      negative. */
  lemma PercentileInRangeIff(c: seq<Point>, v: real)
    requires Valid(c)
    ensures var p := PercentileFromValue(c, v);
            p.Some? && (0.0 <= p.value <= FULL <==> 0.0 <= v && c[0].value <= v <= c[|c| - 1].value)
  {
    ValidIff(c);
    AtNoneIff(Values(c), Probs(c), v);
    if 0.0 <= v <= c[|c| - 1].value {
      var i := FindSegment(Values(c), v, 1);
      SegmentImage(Values(c), Probs(c), v, i);
      assert Probs(c)[i] <= Probs(c)[|c| - 1];
    }
  }

  /** Every value outside the distribution gets the promised -1 exactly if the distribution starts at or
      below zero: the program compares with 0 where it should compare with the first value. */
  lemma OutOfRangeIff(c: seq<Point>)
    requires Valid(c)
    ensures (forall v: real :: v < c[0].value || v > c[|c| - 1].value ==> PercentileFromValue(c, v) == Some(-1.0))
            <==> c[0].value <= 0.0
  {
    ValidIff(c);
    if c[0].value > 0.0 {
      ExtrapolatesBelowFirst(c);
    }
  }

  /** Just below a first value above zero there is a value whose percentage is not -1. */
  lemma ExtrapolatesBelowFirst(c: seq<Point>)
    requires Valid(c) && c[0].value > 0.0
    ensures exists v: real :: 0.0 <= v < c[0].value && PercentileFromValue(c, v) != Some(-1.0)
  {
    ValidIff(c);
    var v, z := 0.0, c[0].value / 2.0;
    assert Values(c)[0] < Values(c)[1];
    AtRises(Values(c), Probs(c), v, z);
    assert PercentileFromValue(c, v) != Some(-1.0) || PercentileFromValue(c, z) != Some(-1.0);
  }

  /** Every value inside the distribution gets a percentage between 0 and 100 exactly if the distribution
      has no negative values: those are answered with -1. */
  lemma InRangeIff(c: seq<Point>)
    requires Valid(c)
    ensures (forall v: real :: c[0].value <= v <= c[|c| - 1].value ==>
               PercentileFromValue(c, v).Some? && 0.0 <= PercentileFromValue(c, v).value <= FULL)
            <==> c[0].value >= 0.0
  {
    ValidIff(c);
    forall v: real | c[0].value <= v <= c[|c| - 1].value && v >= 0.0
      ensures PercentileFromValue(c, v).Some? && 0.0 <= PercentileFromValue(c, v).value <= FULL
    {
      PercentileInRangeIff(c, v);
    }
    if c[0].value < 0.0 {
      assert Values(c)[0] < Values(c)[|c| - 1];
      assert PercentileFromValue(c, c[0].value) == Some(-1.0);
    }
  }

  /** The two directions undo each other, for every percentage and for every value of the distribution. */
  lemma MutualInverses(c: seq<Point>)
    requires Valid(c) && c[0].value >= 0.0
    ensures forall x: real :: 0.0 <= x <= FULL ==>
              var v := ValueFromPercentile(c, x);
              v.Some? && c[0].value <= v.value <= c[|c| - 1].value && PercentileFromValue(c, v.value) == Some(x)
    ensures forall v: real :: c[0].value <= v <= c[|c| - 1].value ==>
              var p := PercentileFromValue(c, v);
              p.Some? && 0.0 <= p.value <= FULL && ValueFromPercentile(c, p.value) == Some(v)
  {
    ValidIff(c);
    forall x: real | 0.0 <= x <= FULL
      ensures var v := ValueFromPercentile(c, x);
              v.Some? && c[0].value <= v.value <= c[|c| - 1].value && PercentileFromValue(c, v.value) == Some(x)
    {
      AtInverts(Probs(c), Values(c), x);
      var i := FindSegment(Probs(c), x, 1);
      SegmentImage(Probs(c), Values(c), x, i);
      assert Values(c)[i] <= Values(c)[|c| - 1];
    }
    forall v: real | c[0].value <= v <= c[|c| - 1].value
      ensures var p := PercentileFromValue(c, v);
              p.Some? && 0.0 <= p.value <= FULL && ValueFromPercentile(c, p.value) == Some(v)
    {
      AtInverts(Values(c), Probs(c), v);
      PercentileInRangeIff(c, v);
    }
  }

  /** Both directions are strictly increasing. */
  lemma BothRise(c: seq<Point>, x: real, z: real)
    requires Valid(c) && x < z
    ensures z <= FULL ==>
              && ValueFromPercentile(c, x).Some? && ValueFromPercentile(c, z).Some?
              && ValueFromPercentile(c, x).value < ValueFromPercentile(c, z).value
    ensures 0.0 <= x && z <= c[|c| - 1].value ==>
              && PercentileFromValue(c, x).Some? && PercentileFromValue(c, z).Some?
              && PercentileFromValue(c, x).value < PercentileFromValue(c, z).value
  {
    ValidIff(c);
    if z <= FULL {
      AtRises(Probs(c), Values(c), x, z);
    }
    if z <= c[|c| - 1].value {
      AtRises(Values(c), Probs(c), x, z);
    }
  }

  // ---------------------------------------------------------------- the mean

  function Trapezoid(p: Point, q: Point): real {
    (q.value + p.value) / 2.0 * (q.prob - p.prob)
  }

  function Area(c: seq<Point>): real {
    if |c| < 2 then 0.0 else Area(c[..|c| - 1]) + Trapezoid(c[|c| - 2], c[|c| - 1])
  }

  function Mean(c: seq<Point>): real {
    Area(c) / 100.0
  }

  /** An area up to point p lies between rectangles as high as the first value and the last one. */
  ghost predicate Bounded(first: Point, p: Point, area: real) {
    first.value * (p.prob - first.prob) <= area <= p.value * (p.prob - first.prob)
  }

  lemma {:induction false} AreaBounds(c: seq<Point>)
    requires c != [] && Increasing(Values(c)) && Increasing(Probs(c))
    ensures Bounded(c[0], c[|c| - 1], Area(c))
    decreases |c|
  {
    if |c| >= 2 {
      var d, p, q := c[..|c| - 1], c[|c| - 2], c[|c| - 1];
      AreaBounds(d) by {
        assert Values(d) == Values(c)[..|d|] && Probs(d) == Probs(c)[..|d|];
      }
      OrderedPoints(c, |c| - 2, |c| - 1);
      OrderedPoints(c, 0, |c| - 2);
      TrapezoidBounds(c[0], p, q, Area(d));
    }
  }

  lemma OrderedPoints(c: seq<Point>, i: nat, j: nat)
    requires Increasing(Values(c)) && Increasing(Probs(c)) && i <= j < |c|
    ensures c[i].value <= c[j].value && c[i].prob <= c[j].prob
  {
    assert Values(c)[i] <= Values(c)[j] && Probs(c)[i] <= Probs(c)[j];
  }

  lemma TrapezoidBounds(first: Point, p: Point, q: Point, area: real)
    requires first.value <= p.value <= q.value && first.prob <= p.prob <= q.prob && Bounded(first, p, area)
    ensures Bounded(first, q, area + Trapezoid(p, q))
  {
    var w, d, m := p.prob - first.prob, q.prob - p.prob, (q.value + p.value) / 2.0;
    assert Trapezoid(p, q) == m * d;
    ScaleBounds(first.value, m, q.value, d);
    ScaleBounds(p.value, p.value, q.value, w);
    assert first.value * (w + d) == first.value * w + first.value * d;
    assert q.value * (w + d) == q.value * w + q.value * d;
  }

  lemma ScaleBounds(a: real, b: real, c: real, d: real)
    requires a <= b <= c && d >= 0.0
    ensures a * d <= b * d <= c * d
  {
  }

  /** The mean lies between the smallest and the largest value. */
  lemma MeanInRange(c: seq<Point>)
    requires Valid(c)
    ensures c[0].value <= Mean(c) <= c[|c| - 1].value
  {
    ValidIff(c);
    AreaBounds(c);
  }

  /** Areas add up where two tables share a point. */
  lemma {:induction false} AreaJoin(a: seq<Point>, p: Point, b: seq<Point>)
    ensures Area(a + [p] + b) == Area(a + [p]) + Area([p] + b)
    decreases |b|
  {
    if b == [] {
      assert a + [p] + b == a + [p];
    } else {
      var d := b[..|b| - 1];
      AreaJoin(a, p, d);
      AreaSnoc(a + [p] + d, b[|b| - 1]);
      AreaSnoc([p] + d, b[|b| - 1]);
      assert a + [p] + d + [b[|b| - 1]] == a + [p] + b && [p] + d + [b[|b| - 1]] == [p] + b;
    }
  }

  lemma AreaSnoc(c: seq<Point>, q: Point)
    requires c != []
    ensures Area(c + [q]) == Area(c) + Trapezoid(c[|c| - 1], q)
  {
    assert (c + [q])[..|c|] == c;
  }

  /** A refined table: an interpolated point before the `i`-th one. */
  function Refine(c: seq<Point>, x: real, i: nat): seq<Point>
    requires Valid(c) && 0 < i < |c|
    requires ValueFromPercentile(c, x).Some?
  {
    c[..i] + [Point(ValueFromPercentile(c, x).value, x)] + c[i..]
  }

  lemma TrapezoidSplits(p: Point, q: Point, x: real)
    requires p.prob < x < q.prob && p.value < q.value
    ensures var m := Point(Line(p.prob, p.value, q.prob, q.value, x), x);
            Trapezoid(p, m) + Trapezoid(m, q) == Trapezoid(p, q)
  {
    var k := Slope(p.prob, p.value, q.prob, q.value);
    SlopePositive(p.prob, p.value, q.prob, q.value);
    TrapezoidsAdd(p.value, x - p.prob, q.prob - p.prob, k);
  }

  /** Trapezoids under a line of slope k that starts at height v. */
  lemma TrapezoidsAdd(v: real, a: real, b: real, k: real)
    ensures ((v + Times(a, k)) + v) / 2.0 * a + ((v + Times(b, k)) + (v + Times(a, k))) / 2.0 * (b - a)
            == ((v + Times(b, k)) + v) / 2.0 * b
  {
  }

  lemma AreaFrom(a: seq<Point>, p: Point, q: Point, b: seq<Point>)
    ensures Area(a + [p] + ([q] + b)) == Area(a + [p]) + Trapezoid(p, q) + Area([q] + b)
  {
    AreaJoin(a, p, [q] + b);
    AreaJoin([p], q, b);
    AreaSnoc([p], q);
    assert [p] + [q] + b == [p] + ([q] + b);
  }

  lemma AreaInsert(a: seq<Point>, p: Point, m: Point, q: Point, b: seq<Point>)
    ensures Area(a + [p] + ([m] + ([q] + b))) - Area(a + [p] + ([q] + b))
            == Trapezoid(p, m) + Trapezoid(m, q) - Trapezoid(p, q)
  {
    AreaFrom(a, p, q, b);
    AreaFrom(a, p, m, [q] + b);
    AreaJoin([m], q, b);
    AreaSnoc([m], q);
    assert [m] + [q] + b == [m] + ([q] + b);
  }

  lemma AroundPoint(c: seq<Point>, i: nat) returns (a: seq<Point>, b: seq<Point>)
    requires 0 < i < |c|
    ensures c == a + [c[i - 1]] + ([c[i]] + b) && c[..i] == a + [c[i - 1]] && c[i..] == [c[i]] + b
  {
    a, b := c[..i - 1], c[i + 1..];
  }

  /** Inserting an interpolated point does not change the mean. */
  lemma RefineKeepsMean(c: seq<Point>, x: real, i: nat)
    requires Valid(c) && 0 < i < |c| && c[i - 1].prob < x < c[i].prob
    ensures ValueFromPercentile(c, x).Some? && Mean(Refine(c, x, i)) == Mean(c)
  {
    ValidIff(c);
    AtSegment(Probs(c), Values(c), x, i, 1);
    TrapezoidSplits(c[i - 1], c[i], x);
    var a, b := AroundPoint(c, i);
    var m := Point(ValueFromPercentile(c, x).value, x);
    AreaInsert(a, c[i - 1], m, c[i], b);
    assert Refine(c, x, i) == a + [c[i - 1]] + ([m] + ([c[i]] + b));
  }

  /** A line through two points is the line through any two of its points. */
  lemma LineThroughMiddle(x0: real, y0: real, x1: real, y1: real, m: real, x: real)
    requires x0 < m < x1 && y0 < y1
    ensures var ym := Line(x0, y0, x1, y1, m);
            Line(x0, y0, m, ym, x) == Line(x0, y0, x1, y1, x) && Line(m, ym, x1, y1, x) == Line(x0, y0, x1, y1, x)
  {
    var k := Slope(x0, y0, x1, y1);
    var ym := y0 + Times(m - x0, k);
    SlopePositive(x0, y0, x1, y1);
    TimesAdds(m - x0, x1 - m, k);
    TimesAdds(m - x0, x - m, k);
    SameSlope(m - x0, k);
    SameSlope(x1 - m, k);
    assert Slope(x0, y0, m, ym) == k && Slope(m, ym, x1, y1) == k;
  }

  lemma TimesAdds(a: real, b: real, k: real)
    ensures Times(a + b, k) == Times(a, k) + Times(b, k)
  {
  }

  lemma SameSlope(d: real, k: real)
    requires d > 0.0
    ensures Times(d, k) / d == k
  {
  }

  lemma RefineIsValid(c: seq<Point>, x: real, i: nat)
    requires Valid(c) && 0 < i < |c| && c[i - 1].prob < x < c[i].prob
    ensures ValueFromPercentile(c, x) == Some(Line(c[i - 1].prob, c[i - 1].value, c[i].prob, c[i].value, x))
    ensures Valid(Refine(c, x, i))
  {
    ValidIff(c);
    AtSegment(Probs(c), Values(c), x, i, 1);
    RisesBetween(c, i - 1, i);
    MiddleRises(c[i - 1], c[i], x);
    InsertedRises(c, Point(ValueFromPercentile(c, x).value, x), i);
  }

  lemma InsertedRises(c: seq<Point>, m: Point, i: nat)
    requires Rises(c, 1) && 0 < i < |c|
    requires c[i - 1].prob < m.prob < c[i].prob && c[i - 1].value < m.value < c[i].value
    ensures Rises(c[..i] + [m] + c[i..], 1)
  {
    var r := c[..i] + [m] + c[i..];
    forall k: nat | 0 < k < |r| ensures r[k - 1].prob < r[k].prob && r[k - 1].value < r[k].value {
      if k < i {
        RisesBetween(c, k - 1, k);
      } else if k > i + 1 {
        RisesBetween(c, k - 2, k - 1);
      }
    }
    NeighboursRise(r, 1);
  }

  lemma MiddleRises(p: Point, q: Point, x: real)
    requires p.prob < x < q.prob && p.value < q.value
    ensures p.value < Line(p.prob, p.value, q.prob, q.value, x) < q.value
  {
    LineEnds(p.prob, p.value, q.prob, q.value);
    LineRises(p.prob, p.value, q.prob, q.value, p.prob, x);
    LineRises(p.prob, p.value, q.prob, q.value, x, q.prob);
  }

  lemma {:induction false} NeighboursRise(c: seq<Point>, i: nat)
    requires i > 0 && forall k: nat :: 0 < k < |c| ==> c[k - 1].prob < c[k].prob && c[k - 1].value < c[k].value
    ensures Rises(c, i)
    decreases |c| - i
  {
    if i < |c| {
      NeighboursRise(c, i + 1);
    }
  }

  /** A lookup that falls into the refined segment, or into another one. */
  lemma RefinedLookup(c: seq<Point>, x: real, i: nat, y: real, j: nat)
    requires Valid(c) && 0 < i < |c| && c[i - 1].prob < x < c[i].prob && InSegment(Probs(c), y, j)
    ensures ValueFromPercentile(c, x).Some? && Valid(Refine(c, x, i))
    ensures ValueFromPercentile(Refine(c, x, i), y)
            == Some(Line(c[j - 1].prob, c[j - 1].value, c[j].prob, c[j].value, y))
  {
    RefineIsValid(c, x, i);
    var r, p, q := Refine(c, x, i), c[i - 1], c[i];
    ValidIff(c);
    ValidIff(r);
    if j == i {
      LineThroughMiddle(p.prob, p.value, q.prob, q.value, x, y);
    }
    var k := if j < i || (j == i && y <= x) then j else j + 1;
    AtSegment(Probs(r), Values(r), y, k, 1);
  }

  /** Inserting an interpolated point changes no lookup either. */
  lemma RefineKeepsLookups(c: seq<Point>, x: real, i: nat, y: real)
    requires Valid(c) && 0 < i < |c| && c[i - 1].prob < x < c[i].prob
    ensures ValueFromPercentile(c, x).Some? && Valid(Refine(c, x, i))
    ensures ValueFromPercentile(Refine(c, x, i), y) == ValueFromPercentile(c, y)
  {
    RefineIsValid(c, x, i);
    var r := Refine(c, x, i);
    ValidIff(c);
    ValidIff(r);
    if y > FULL {
      AtNoneIff(Probs(c), Values(c), y);
      AtNoneIff(Probs(r), Values(r), y);
    } else {
      var j := FindSegment(Probs(c), y, 1);
      AtSegment(Probs(c), Values(c), y, j, 1);
      RefinedLookup(c, x, i, y, j);
    }
  }
}
