/** app/lib/telemetry-math.ts, downsample: largest-triangle-three-buckets, with the bucket size as
    an exact fraction. */
module Downsampling {
  import opened Telemetry

  function Floor(a: int, b: int): int
    requires b > 0
  {
    a / b
  }

  /** The first index of bucket b when the n - 2 inner points are shared among k - 2 buckets. */
  function Bound(n: int, k: int, b: int): int
    requires k > 2
  {
    Floor(b * (n - 2), k - 2) + 1
  }

  function Min(a: int, b: int): int {
    if a < b then a else b
  }

  // ----- the bucket bounds -----

  lemma Scaled(x: int, b: int)
    requires b > 0
    ensures x >= 1 ==> x * b >= b
    ensures x <= -1 ==> x * b <= -b
    ensures x <= 0 ==> x * b <= 0
  {
    if x >= 1 {
      assert (x - 1) * b >= 0;
    }
    if x <= -1 {
      assert (-1 - x) * b >= 0;
    }
    if x <= 0 {
      assert -x * b >= 0;
    }
  }

  lemma FloorMeaning(a: int, b: int)
    requires b > 0
    ensures Floor(a, b) * b <= a < Floor(a, b) * b + b
  {
  }

  lemma FloorUnique(a: int, b: int, q: int)
    requires b > 0 && q * b <= a < q * b + b
    ensures Floor(a, b) == q
  {
    var f := Floor(a, b);
    FloorMeaning(a, b);
    assert (f - q) * b == f * b - q * b;
    Scaled(f - q, b);
  }

  lemma FloorStep(a: int, m: int, b: int)
    requires b > 0 && m >= b
    ensures Floor(a + m, b) >= Floor(a, b) + 1
  {
    var f, g := Floor(a, b), Floor(a + m, b);
    FloorMeaning(a, b);
    FloorMeaning(a + m, b);
    assert (g - f) * b == g * b - f * b;
    Scaled(g - f, b);
  }

  lemma BoundsIncrease(n: int, k: int, b: int)
    requires n > k >= 3 && b >= 0
    ensures Bound(n, k, b) < Bound(n, k, b + 1)
  {
    assert (b + 1) * (n - 2) == b * (n - 2) + (n - 2);
    FloorStep(b * (n - 2), n - 2, k - 2);
  }

  lemma {:induction false} BoundsIncreaseTo(n: int, k: int, b: int, c: int)
    requires n > k >= 3 && 0 <= b <= c
    ensures Bound(n, k, b) + (c - b) <= Bound(n, k, c)
    decreases c
  {
    if b == c {
    } else {
      BoundsIncreaseTo(n, k, b, c - 1);
      BoundsIncrease(n, k, c - 1);
    }
  }

  lemma OuterBounds(n: int, k: int)
    requires n > k >= 3
    ensures Bound(n, k, 0) == 1 && Bound(n, k, k - 2) == n - 1
  {
    FloorUnique(0, k - 2, 0);
    assert 0 * (n - 2) == 0;
    assert (k - 2) * (n - 2) == (n - 2) * (k - 2);
    FloorUnique((k - 2) * (n - 2), k - 2, n - 2);
  }

  lemma FloorSum(a: int, m: int, b: int)
    requires b > 0
    ensures Floor(a, b) + Floor(m, b) <= Floor(a + m, b) <= Floor(a, b) + Floor(m, b) + 1
  {
    var f, g, h := Floor(a, b), Floor(m, b), Floor(a + m, b);
    FloorMeaning(a, b);
    FloorMeaning(m, b);
    FloorMeaning(a + m, b);
    assert (h - f - g) * b == h * b - f * b - g * b;
    Scaled(h - f - g, b);
    assert (h - f - g - 1) * b == (h - f - g) * b - b;
    Scaled(h - f - g - 1, b);
  }

  /** The buckets are even: no two of them differ by more than one point. */
  lemma BucketsAreEven(n: int, k: int, b: int)
    requires n > k >= 3 && b >= 0
    ensures
      var even := Floor(n - 2, k - 2);
      even <= Bound(n, k, b + 1) - Bound(n, k, b) <= even + 1
  {
    assert (b + 1) * (n - 2) == b * (n - 2) + (n - 2);
    FloorSum(b * (n - 2), n - 2, k - 2);
  }

  /** Index i is a candidate of bucket b. */
  predicate Candidate(n: int, k: int, b: int, i: int)
    requires k > 2
  {
    Bound(n, k, b) <= i < Bound(n, k, b + 1)
  }

  /** Every candidate range is a non-empty interval of inner indices. */
  lemma RangeIsProper(n: int, k: int, b: int)
    requires n > k >= 3 && 0 <= b < k - 2
    ensures 1 <= Bound(n, k, b) < Bound(n, k, b + 1) <= n - 1
  {
    OuterBounds(n, k);
    BoundsIncreaseTo(n, k, 0, b);
    BoundsIncrease(n, k, b);
    BoundsIncreaseTo(n, k, b + 1, k - 2);
  }

  /** The ranges partition the inner indices: each is a candidate of exactly one bucket. */
  lemma RangesPartition(n: int, k: int, i: int) returns (b: int)
    requires n > k >= 3 && 1 <= i <= n - 2
    ensures 0 <= b < k - 2 && Candidate(n, k, b, i)
    ensures forall c | 0 <= c < k - 2 && Candidate(n, k, c, i) :: c == b
  {
    OuterBounds(n, k);
    b := RangeOf(n, k, i, k - 2);
    forall c | 0 <= c < k - 2 && Candidate(n, k, c, i)
      ensures c == b
    {
      BoundsOrdered(n, k, b + 1, c);
      BoundsOrdered(n, k, c + 1, b);
    }
  }

  lemma BoundsOrdered(n: int, k: int, b: int, c: int)
    requires n > k >= 3 && b >= 0
    ensures b <= c ==> Bound(n, k, b) <= Bound(n, k, c)
  {
    if b <= c {
      BoundsIncreaseTo(n, k, b, c);
    }
  }

  lemma {:induction false} RangeOf(n: int, k: int, i: int, c: int) returns (b: int)
    requires n > k >= 3 && 0 <= c <= k - 2 && 1 <= i < Bound(n, k, c)
    ensures 0 <= b < c && Candidate(n, k, b, i)
    decreases c
  {
    OuterBounds(n, k);
    if Bound(n, k, c - 1) <= i {
      b := c - 1;
    } else {
      b := RangeOf(n, k, i, c - 1);
    }
  }

  /** The end of the range the next bucket's average is taken over. */
  function AverageEnd(n: int, k: int, b: int): int
    requires k > 2
  {
    Min(Bound(n, k, b + 2), n)
  }

  /** Every average is over a non-empty range of existing points: the next bucket's candidates, or
      the last point alone. */
  lemma AveragesAreInBounds(n: int, k: int, b: int)
    requires n > k >= 3 && 0 <= b < k - 2
    ensures 1 <= Bound(n, k, b + 1) < AverageEnd(n, k, b) <= n
    ensures AverageEnd(n, k, b) == if b == k - 3 then n else Bound(n, k, b + 2)
  {
    RangeIsProper(n, k, b);
    OuterBounds(n, k);
    BoundsIncrease(n, k, b + 1);
    if b < k - 3 {
      RangeIsProper(n, k, b + 1);
    }
  }

  // ----- one bucket -----

  function SumT(points: seq<Point>, from: nat, to: nat): real
    requires from <= to <= |points|
  {
    if from == to then 0.0 else SumT(points, from, to - 1) + points[to - 1].t
  }

  function SumV(points: seq<Point>, from: nat, to: nat): real
    requires from <= to <= |points|
  {
    if from == to then 0.0 else SumV(points, from, to - 1) + points[to - 1].v
  }

  function Average(points: seq<Point>, from: nat, to: nat): Point
    requires from < to <= |points|
  {
    var count := (to - from) as real;
    Point(SumT(points, from, to) / count, SumV(points, from, to) / count)
  }

  function Abs(x: real): real {
    if x < 0.0 then -x else x
  }

  /** Twice the area of the triangle. */
  function Area(anchor: Point, p: Point, target: Point): real {
    Abs((anchor.t - target.t) * (p.v - anchor.v) - (anchor.t - p.t) * (target.v - anchor.v))
  }

  /** The same by the shoelace formula, in which the three corners play like parts. */
  lemma AreaIsShoelace(a: Point, b: Point, c: Point)
    ensures Area(a, b, c) == Abs(a.t * (b.v - c.v) + b.t * (c.v - a.v) + c.t * (a.v - b.v))
  {
  }

  /** Twice the area of a right triangle is the product of its legs. */
  lemma AreaOfLegs(corner: Point, width: real, height: real)
    requires width >= 0.0 && height >= 0.0
    ensures Area(corner, Point(corner.t + width, corner.v), Point(corner.t, corner.v + height)) == width * height
  {
    assert width * height >= 0.0;
  }

  /** The point lies on the straight line through the anchor and the target. */
  predicate OnLine(anchor: Point, p: Point, target: Point) {
    (p.v - anchor.v) * (target.t - anchor.t) == (target.v - anchor.v) * (p.t - anchor.t)
  }

  lemma NoAreaIffOnLine(anchor: Point, p: Point, target: Point)
    ensures Area(anchor, p, target) >= 0.0
    ensures Area(anchor, p, target) == 0.0 <==> OnLine(anchor, p, target)
  {
  }

  /** An extreme is kept: if one candidate alone is off the line, it is the one picked. */
  lemma OutlierIsPicked(points: seq<Point>, anchor: Point, target: Point, from: nat, to: nat, i: nat, j: nat)
    requires to <= |points| && FirstLargest(points, anchor, target, from, to, i)
    requires from <= j < to && !OnLine(anchor, points[j], target)
    requires forall k | from <= k < to && k != j :: OnLine(anchor, points[k], target)
    ensures i == j
  {
    NoAreaIffOnLine(anchor, points[i], target);
    NoAreaIffOnLine(anchor, points[j], target);
  }

  lemma {:induction false} SumsJoin(points: seq<Point>, from: nat, mid: nat, to: nat)
    requires from <= mid <= to <= |points|
    ensures SumT(points, from, to) == SumT(points, from, mid) + SumT(points, mid, to)
    ensures SumV(points, from, to) == SumV(points, from, mid) + SumV(points, mid, to)
  {
    if mid == to {
    } else {
      SumsJoin(points, from, mid, to - 1);
    }
  }

  lemma TimesCount(sum: real, count: real)
    requires count > 0.0
    ensures count * (sum / count) == sum
  {
  }

  /** The average of one point is the point. */
  lemma AverageOfOne(points: seq<Point>, i: nat)
    requires i < |points|
    ensures Average(points, i, i + 1) == points[i]
  {
    assert (i + 1 - i) as real == 1.0;
    assert SumT(points, i, i + 1) == SumT(points, i, i) + points[i].t;
    assert SumV(points, i, i + 1) == SumV(points, i, i) + points[i].v;
  }

  /** The average over a range is the averages over its two parts, each weighted by its number of points. */
  lemma AveragesJoin(points: seq<Point>, from: nat, mid: nat, to: nat)
    requires from < mid < to <= |points|
    ensures
      var whole, first, second := Average(points, from, to), Average(points, from, mid), Average(points, mid, to);
      && (to - from) as real * whole.t == (mid - from) as real * first.t + (to - mid) as real * second.t
      && (to - from) as real * whole.v == (mid - from) as real * first.v + (to - mid) as real * second.v
  {
    SumsJoin(points, from, mid, to);
    TimesCount(SumT(points, from, to), (to - from) as real);
    TimesCount(SumT(points, from, mid), (mid - from) as real);
    TimesCount(SumT(points, mid, to), (to - mid) as real);
    TimesCount(SumV(points, from, to), (to - from) as real);
    TimesCount(SumV(points, from, mid), (mid - from) as real);
    TimesCount(SumV(points, mid, to), (to - mid) as real);
  }

  /** Index i of the range has the largest area there, and is the first that does. */
  ghost predicate FirstLargest(points: seq<Point>, anchor: Point, target: Point, from: nat, to: nat, i: nat)
    requires to <= |points|
  {
    && from <= i < to
    && (forall j | from <= j < to :: Area(anchor, points[j], target) <= Area(anchor, points[i], target))
    && (forall j | from <= j < i :: Area(anchor, points[j], target) < Area(anchor, points[i], target))
  }

  // ----- the whole selection -----

  /** The first b + 1 picked indices: the first point, then one from each bucket. */
  ghost predicate Picked(points: seq<Point>, k: int, picks: seq<int>, b: nat)
    requires |points| > k >= 3 && b <= k - 2
  {
    && |picks| == b + 1 && picks[0] == 0
    && forall c | 0 <= c < b :: PickHolds(points, k, picks, c)
  }

  ghost predicate PickHolds(points: seq<Point>, k: int, picks: seq<int>, c: nat)
    requires |points| > k >= 3 && c < k - 2 && c + 1 < |picks|
  {
    var n := |points|;
    && 0 <= picks[c] < n
    && 0 <= Bound(n, k, c) < Bound(n, k, c + 1) < AverageEnd(n, k, c) <= n
    && picks[c + 1] >= 0
    && FirstLargest(points, points[picks[c]], Average(points, Bound(n, k, c + 1), AverageEnd(n, k, c)),
                    Bound(n, k, c), Bound(n, k, c + 1), picks[c + 1])
  }

  ghost predicate Increasing(picks: seq<int>) {
    forall i, j | 0 <= i < j < |picks| :: picks[i] < picks[j]
  }

  /** The picks lie in their buckets, so they strictly increase. */
  lemma {:induction false} PicksIncrease(points: seq<Point>, k: int, picks: seq<int>, b: nat)
    requires |points| > k >= 3 && b <= k - 2 && Picked(points, k, picks, b)
    ensures Increasing(picks) && 0 <= picks[b] < Bound(|points|, k, b)
  {
    if b == 0 {
      OuterBounds(|points|, k);
    } else {
      var before := picks[..b];
      assert forall c | 0 <= c < b - 1 :: PickHolds(points, k, picks, c) ==> PickHolds(points, k, before, c);
      PicksIncrease(points, k, before, b - 1);
      assert PickHolds(points, k, picks, b - 1);
      assert forall i | 0 <= i < b :: picks[i] == before[i];
    }
  }

  /** What downsampling selects, as indices. */
  ghost predicate Selection(points: seq<Point>, k: int, picks: seq<int>) {
    |points| > k >= 3 && |picks| == k && Picked(points, k, picks[..k - 1], k - 2) && picks[k - 1] == |points| - 1
  }

  /** A selection keeps both end points, has one pick from every bucket, each the first of largest
      area against the pick before it and the average after it, and is in order. */
  lemma SelectionIsWellFormed(points: seq<Point>, k: int, picks: seq<int>)
    requires Selection(points, k, picks)
    ensures |picks| == k && picks[0] == 0 && picks[k - 1] == |points| - 1
    ensures Increasing(picks)
    ensures forall i | 0 <= i < k :: 0 <= picks[i] < |points|
    ensures forall b | 0 <= b < k - 2 :: PickHolds(points, k, picks, b) && Candidate(|points|, k, b, picks[b + 1])
  {
    var inner := picks[..k - 1];
    PicksIncrease(points, k, inner, k - 2);
    OuterBounds(|points|, k);
    assert forall i | 0 <= i < k - 1 :: picks[i] == inner[i];
    forall b | 0 <= b < k - 2
      ensures PickHolds(points, k, picks, b) && Candidate(|points|, k, b, picks[b + 1])
    {
      assert PickHolds(points, k, inner, b);
    }
  }

  /** The selection is determined: there is at most one. */
  lemma {:induction false} PicksAreUnique(points: seq<Point>, k: int, p: seq<int>, q: seq<int>, b: nat)
    requires |points| > k >= 3 && b < |p| <= k - 1 && |q| == |p|
    requires p[0] == 0 && q[0] == 0
    requires forall c | 0 <= c < |p| - 1 :: PickHolds(points, k, p, c) && PickHolds(points, k, q, c)
    ensures p[b] == q[b]
  {
    if b == 0 {
    } else {
      PicksAreUnique(points, k, p, q, b - 1);
      assert PickHolds(points, k, p, b - 1) && PickHolds(points, k, q, b - 1);
      var n := |points|;
      var target := Average(points, Bound(n, k, b), AverageEnd(n, k, b - 1));
      FirstLargestIsUnique(points, points[p[b - 1]], target, Bound(n, k, b - 1), Bound(n, k, b), p[b], q[b]);
    }
  }

  lemma FirstLargestIsUnique(points: seq<Point>, anchor: Point, target: Point, from: nat, to: nat, i: nat, j: nat)
    requires to <= |points|
    requires FirstLargest(points, anchor, target, from, to, i) && FirstLargest(points, anchor, target, from, to, j)
    ensures i == j
  {
    assert Area(anchor, points[i], target) == Area(anchor, points[j], target);
  }

  lemma SelectionIsUnique(points: seq<Point>, k: int, p: seq<int>, q: seq<int>)
    requires Selection(points, k, p) && Selection(points, k, q)
    ensures p == q
  {
    var p', q' := p[..k - 1], q[..k - 1];
    forall b | 0 <= b < k - 1
      ensures p[b] == q[b]
    {
      PicksAreUnique(points, k, p', q', b);
      assert p[b] == p'[b] && q[b] == q'[b];
    }
  }

  method Downsample(points: seq<Point>, threshold: int) returns (sampled: seq<Point>, ghost picks: seq<int>)
    ensures threshold < 3 || |points| <= threshold ==> sampled == points
    ensures threshold >= 3 && |points| > threshold ==>
              && Selection(points, threshold, picks)
              && |sampled| == threshold
              && forall i | 0 <= i < threshold :: 0 <= picks[i] < |points| && sampled[i] == points[picks[i]]
  {
    picks := [];
    if threshold < 3 || |points| <= threshold {
      return points, picks;
    }
    var n := |points|;
    sampled := [points[0]];
    picks := [0];
    var anchorIndex := 0;
    for bucket := 0 to threshold - 2
      invariant Picked(points, threshold, picks, bucket) && |sampled| == bucket + 1
      invariant forall i | 0 <= i <= bucket :: 0 <= picks[i] < n && sampled[i] == points[picks[i]]
      invariant anchorIndex == picks[bucket] && 0 <= anchorIndex < n
    {
      RangeIsProper(n, threshold, bucket);
      AveragesAreInBounds(n, threshold, bucket);
      var avgStart := Bound(n, threshold, bucket + 1);
      var avgEnd := Min(Bound(n, threshold, bucket + 2), n);
      var target := TakeAverage(points, avgStart, avgEnd);
      var rangeStart := Bound(n, threshold, bucket);
      var rangeEnd := Min(Bound(n, threshold, bucket + 1), n - 1);
      var bestIndex := PickLargest(points, points[anchorIndex], target, rangeStart, rangeEnd);
      ghost var before := picks;
      picks := picks + [bestIndex];
      PickAdded(points, threshold, before, bestIndex, bucket);
      sampled := sampled + [points[bestIndex]];
      anchorIndex := bestIndex;
    }
    sampled := sampled + [points[n - 1]];
    assert (picks + [n - 1])[..threshold - 1] == picks;
    picks := picks + [n - 1];
  }

  lemma PickAdded(points: seq<Point>, k: int, before: seq<int>, best: int, b: nat)
    requires |points| > k >= 3 && b < k - 2 && Picked(points, k, before, b)
    requires PickHolds(points, k, before + [best], b)
    ensures Picked(points, k, before + [best], b + 1)
  {
    var picks := before + [best];
    forall c | 0 <= c < b
      ensures PickHolds(points, k, picks, c)
    {
      assert PickHolds(points, k, before, c);
    }
  }

  method TakeAverage(points: seq<Point>, from: nat, to: nat) returns (target: Point)
    requires from < to <= |points|
    ensures target == Average(points, from, to)
  {
    var avgT, avgV := 0.0, 0.0;
    for index := from to to
      invariant avgT == SumT(points, from, index) && avgV == SumV(points, from, index)
    {
      avgT := avgT + points[index].t;
      avgV := avgV + points[index].v;
    }
    var avgCount := (to - from) as real;
    target := Point(avgT / avgCount, avgV / avgCount);
  }

  method PickLargest(points: seq<Point>, anchor: Point, target: Point, from: nat, to: nat) returns (bestIndex: nat)
    requires from < to <= |points|
    ensures FirstLargest(points, anchor, target, from, to, bestIndex)
  {
    var bestArea := -1.0;
    bestIndex := from;
    for index := from to to
      invariant index == from ==> bestArea == -1.0
      invariant index > from ==> FirstLargest(points, anchor, target, from, index, bestIndex) && bestArea == Area(anchor, points[bestIndex], target)
    {
      var area := Area(anchor, points[index], target);
      if area > bestArea {
        bestArea := area;
        bestIndex := index;
      }
    }
  }

  /** Downsampling a second time changes nothing. */
  method DownsampleTwice(points: seq<Point>, threshold: int) returns (once: seq<Point>, twice: seq<Point>)
    ensures twice == once
  {
    ghost var picks;
    once, picks := Downsample(points, threshold);
    twice, picks := Downsample(once, threshold);
  }
}
