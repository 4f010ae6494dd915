/** app/lib/telemetry-math.ts: energy of a series, and its grouping into hour or day buckets. */
module Energy {
  import opened Results
  import opened Sequences
  import opened Telemetry
  import Text

  datatype Unit = Power(factor: real) | Counter(factor: real) | Other

  function ParseUnit(unit: string): Unit {
    LookUpUnit(Text.ToLower(Text.TrimSpace(unit)))
  }

  function LookUpUnit(name: string): Unit {
    if name == "w" then Power(0.001)
    else if name == "kw" then Power(1.0)
    else if name == "mw" then Power(1000.0)
    else if name == "wh" then Counter(0.001)
    else if name == "kwh" then Counter(1.0)
    else if name == "mwh" then Counter(1000.0)
    else if name == "gwh" then Counter(1_000_000.0)
    else Other
  }

  const MS_PER_HOUR := 3_600_000.0

  /** Trapezoid for power; only growth for a counter. */
  function SegmentKWh(u: Unit, previous: Point, current: Point): real {
    match u
    case Power(factor) => (current.v + previous.v) / 2.0 * factor * ((current.t - previous.t) / MS_PER_HOUR)
    case Counter(factor) =>
      var delta := current.v - previous.v;
      if delta > 0.0 then delta * factor else 0.0
    case Other => 0.0
  }

  /** The energy of the first n segments. */
  function EnergyTo(u: Unit, points: seq<Point>, n: nat): real
    requires n < |points| || n == 0
  {
    if n == 0 then 0.0 else EnergyTo(u, points, n - 1) + SegmentKWh(u, points[n - 1], points[n])
  }

  function Segments(points: seq<Point>): nat {
    if points == [] then 0 else |points| - 1
  }

  /** The energy of a series in kWh. */
  function SeriesEnergy(u: Unit, points: seq<Point>): real {
    EnergyTo(u, points, Segments(points))
  }

  method TotalEnergyKWh(points: seq<Point>, unit: string) returns (total: Option<real>)
    ensures total == if ParseUnit(unit) == Other then None else Some(SeriesEnergy(ParseUnit(unit), points))
  {
    var u := ParseUnit(unit);
    if u == Other {
      return None;
    }
    var sum := 0.0;
    var index := 1;
    while index < |points|
      invariant 1 <= index && (points == [] || index <= |points|)
      invariant sum == if points == [] then 0.0 else EnergyTo(u, points, index - 1)
    {
      sum := sum + SegmentKWh(u, points[index - 1], points[index]);
      index := index + 1;
    }
    return Some(sum);
  }

  // ----- what the total means -----

  /** A counter that never falls. */
  ghost predicate NeverFalls(points: seq<Point>) {
    forall i | 0 < i < |points| :: points[i - 1].v <= points[i].v
  }

  lemma {:induction false} CounterTelescopes(factor: real, points: seq<Point>, n: nat)
    requires points != [] && n < |points| && NeverFalls(points)
    ensures EnergyTo(Counter(factor), points, n) == (points[n].v - points[0].v) * factor
  {
    if n == 0 {
    } else {
      CounterTelescopes(factor, points, n - 1);
      var a, b, c := points[0].v, points[n - 1].v, points[n].v;
      assert b <= c;
      assert (b - a) * factor + (c - b) * factor == (c - a) * factor;
    }
  }

  /** For a counter that never falls, the total is the last reading less the first. */
  lemma LifetimeCounter(factor: real, points: seq<Point>)
    requires points != [] && NeverFalls(points)
    ensures SeriesEnergy(Counter(factor), points) == (points[|points| - 1].v - points[0].v) * factor
  {
    CounterTelescopes(factor, points, |points| - 1);
  }

  /** Power that changes at a steady rate. */
  ghost predicate Linear(points: seq<Point>, slope: real, base: real) {
    forall i | 0 <= i < |points| :: points[i].v == slope * points[i].t + base
  }

  /** What such power adds up to since time 0, in kWh. */
  function LinearSince0(factor: real, slope: real, base: real, t: real): real {
    (slope * t * t / 2.0 + base * t) * factor / MS_PER_HOUR
  }

  lemma MeanTimesSpan(slope: real, base: real, p: real, c: real)
    ensures ((slope * c + base) + (slope * p + base)) / 2.0 * (c - p) == (slope * c * c / 2.0 + base * c) - (slope * p * p / 2.0 + base * p)
  {
    assert (slope * c + slope * p) * (c - p) == slope * c * c - slope * p * p;
  }

  lemma Regrouped(mean: real, factor: real, dt: real, before: real, after: real)
    requires mean * dt == after - before
    ensures mean * factor * (dt / MS_PER_HOUR) == after * factor / MS_PER_HOUR - before * factor / MS_PER_HOUR
  {
    assert mean * factor * dt == (after - before) * factor;
  }

  lemma LinearSegment(factor: real, slope: real, base: real, p: Point, c: Point)
    requires p.v == slope * p.t + base && c.v == slope * c.t + base
    ensures SegmentKWh(Power(factor), p, c) == LinearSince0(factor, slope, base, c.t) - LinearSince0(factor, slope, base, p.t)
  {
    MeanTimesSpan(slope, base, p.t, c.t);
    Regrouped((c.v + p.v) / 2.0, factor, c.t - p.t, slope * p.t * p.t / 2.0 + base * p.t, slope * c.t * c.t / 2.0 + base * c.t);
  }

  function LinearMeasures(factor: real, slope: real, base: real, points: seq<Point>): (measures: seq<real>)
    ensures |measures| == |points|
    ensures forall i | 0 <= i < |points| :: measures[i] == LinearSince0(factor, slope, base, points[i].t)
  {
    seq(|points|, i requires 0 <= i < |points| => LinearSince0(factor, slope, base, points[i].t))
  }

  /** Segment i is what the measure gains over it. */
  predicate Gains(u: Unit, points: seq<Point>, measures: seq<real>, i: nat)
    requires i + 1 < |points| == |measures|
  {
    SegmentKWh(u, points[i], points[i + 1]) == measures[i + 1] - measures[i]
  }

  /** If each segment is what a measure gains over it, so is the whole. */
  lemma {:induction false} EnergyTelescopes(u: Unit, points: seq<Point>, measures: seq<real>, n: nat)
    requires n < |points| == |measures| && forall i | 0 <= i < |points| - 1 :: Gains(u, points, measures, i)
    ensures EnergyTo(u, points, n) == measures[n] - measures[0]
  {
    if n == 0 {
    } else {
      EnergyTelescopes(u, points, measures, n - 1);
      assert Gains(u, points, measures, n - 1);
    }
  }

  lemma LinearGains(factor: real, slope: real, base: real, points: seq<Point>, i: nat)
    requires i + 1 < |points| && Linear(points, slope, base)
    ensures Gains(Power(factor), points, LinearMeasures(factor, slope, base, points), i)
  {
    LinearSegment(factor, slope, base, points[i], points[i + 1]);
  }

  /** Power that changes at a steady rate adds up to its exact integral over time, however it is sampled. */
  lemma LinearPower(factor: real, slope: real, base: real, points: seq<Point>)
    requires points != [] && Linear(points, slope, base)
    ensures SeriesEnergy(Power(factor), points) ==
            LinearSince0(factor, slope, base, points[|points| - 1].t) - LinearSince0(factor, slope, base, points[0].t)
  {
    var measures := LinearMeasures(factor, slope, base, points);
    forall i | 0 <= i < |points| - 1
      ensures Gains(Power(factor), points, measures, i)
    {
      LinearGains(factor, slope, base, points, i);
    }
    EnergyTelescopes(Power(factor), points, measures, |points| - 1);
  }

  /** So constant power is power times time: a kilowatt for an hour is a kilowatt-hour. */
  lemma ConstantPower(points: seq<Point>, kilowatts: real, hours: real)
    requires points != [] && Linear(points, 0.0, kilowatts)
    requires points[|points| - 1].t - points[0].t == hours * 3_600_000.0
    ensures SeriesEnergy(ParseUnit("kW"), points) == kilowatts * hours
  {
    UnitsAsWritten("kW");
    LinearPower(1.0, 0.0, kilowatts, points);
    ConstantSince0(kilowatts, hours, points[0].t, points[|points| - 1].t);
  }

  lemma ConstantSince0(kilowatts: real, hours: real, from: real, to: real)
    requires to - from == hours * MS_PER_HOUR
    ensures LinearSince0(1.0, 0.0, kilowatts, to) - LinearSince0(1.0, 0.0, kilowatts, from) == kilowatts * hours
  {
    assert kilowatts * to - kilowatts * from == kilowatts * (hours * MS_PER_HOUR) == kilowatts * hours * MS_PER_HOUR;
  }

  lemma {:induction false} EnergyOfPrefix(u: Unit, points: seq<Point>, longer: seq<Point>, n: nat)
    requires n < |points| <= |longer| && forall i | 0 <= i < |points| :: longer[i] == points[i]
    ensures EnergyTo(u, longer, n) == EnergyTo(u, points, n)
  {
    if n == 0 {
    } else {
      EnergyOfPrefix(u, points, longer, n - 1);
    }
  }

  lemma {:induction false} EnergyFrom(u: Unit, points: seq<Point>, tail: seq<Point>, m: nat, n: nat)
    requires tail != [] && |points| == m + |tail| && n < |tail|
    requires forall i | m <= i < |points| :: points[i] == tail[i - m]
    ensures EnergyTo(u, points, m + n) == EnergyTo(u, points, m) + EnergyTo(u, tail, n)
  {
    if n == 0 {
    } else {
      EnergyFrom(u, points, tail, m, n - 1);
      assert points[m + n] == tail[n] && points[m + n - 1] == tail[n - 1];
    }
  }

  /** Totals add up when a series is split at a sample both parts keep. */
  lemma SplitAtSharedSample(u: Unit, points: seq<Point>, k: nat)
    requires k < |points|
    ensures SeriesEnergy(u, points) == SeriesEnergy(u, points[..k + 1]) + SeriesEnergy(u, points[k..])
  {
    EnergyOfPrefix(u, points[..k + 1], points, k);
    EnergyFrom(u, points, points[k..], k, |points| - 1 - k);
  }

  /** A counter that falls back once, as at midnight, counts what it rose before and after; the fall itself
      counts as nothing. */
  lemma ResetCountsAsNothing(factor: real, points: seq<Point>, k: nat)
    requires 0 < k < |points| && points[k].v < points[k - 1].v
    requires NeverFalls(points[..k]) && NeverFalls(points[k..])
    ensures SeriesEnergy(Counter(factor), points) ==
            (points[k - 1].v - points[0].v) * factor + (points[|points| - 1].v - points[k].v) * factor
  {
    SplitAtSharedSample(Counter(factor), points, k);
    assert points[..k + 1][..k] == points[..k];
    RiseThenFall(factor, points[..k + 1]);
    LifetimeCounter(factor, points[k..]);
  }

  lemma RiseThenFall(factor: real, points: seq<Point>)
    requires |points| >= 2 && NeverFalls(points[..|points| - 1]) && points[|points| - 1].v < points[|points| - 2].v
    ensures SeriesEnergy(Counter(factor), points) == (points[|points| - 2].v - points[0].v) * factor
  {
    var n := |points| - 1;
    LifetimeCounter(factor, points[..n]);
    EnergyOfPrefix(Counter(factor), points[..n], points, n - 1);
  }

  function Scaled(points: seq<Point>, k: real): (scaled: seq<Point>)
    ensures |scaled| == |points| && forall i | 0 <= i < |points| :: scaled[i] == ScaledPoint(points[i], k)
  {
    seq(|points|, i requires 0 <= i < |points| => ScaledPoint(points[i], k))
  }

  function ScaledPoint(p: Point, k: real): Point {
    Point(p.t, p.v * k)
  }

  /** Segments of values k times as large are segments in the other unit. */
  ghost predicate ScalesTo(u: Unit, k: real, larger: Unit) {
    forall p: Point, c: Point :: SameSegment(u, k, larger, p, c)
  }

  predicate SameSegment(u: Unit, k: real, larger: Unit, p: Point, c: Point) {
    SegmentKWh(u, ScaledPoint(p, k), ScaledPoint(c, k)) == SegmentKWh(larger, p, c)
  }

  lemma PowerScales(f: real, k: real, larger: real)
    requires larger == f * k
    ensures ScalesTo(Power(f), k, Power(larger))
  {
    forall p: Point, c: Point
      ensures SameSegment(Power(f), k, Power(larger), p, c)
    {
      var mean := (c.v + p.v) / 2.0;
      assert (c.v * k + p.v * k) / 2.0 == mean * k;
      assert mean * k * f == mean * larger;
    }
  }

  lemma CounterScales(f: real, k: real, larger: real)
    requires larger == f * k && k > 0.0
    ensures ScalesTo(Counter(f), k, Counter(larger))
  {
    forall p: Point, c: Point
      ensures SameSegment(Counter(f), k, Counter(larger), p, c)
    {
      var delta := c.v - p.v;
      assert c.v * k - p.v * k == delta * k;
      assert delta > 0.0 <==> delta * k > 0.0;
      assert delta * k * f == delta * larger;
    }
  }

  lemma {:induction false} EnergyScales(u: Unit, k: real, larger: Unit, points: seq<Point>, n: nat)
    requires ScalesTo(u, k, larger) && (n < |points| || n == 0)
    ensures EnergyTo(u, Scaled(points, k), n) == EnergyTo(larger, points, n)
  {
    if n == 0 {
    } else {
      EnergyScales(u, k, larger, points, n - 1);
      assert SameSegment(u, k, larger, points[n - 1], points[n]);
    }
  }

  predicate Thousandth(smaller: Unit, larger: Unit, points: seq<Point>) {
    SeriesEnergy(smaller, Scaled(points, 1000.0)) == SeriesEnergy(larger, points)
  }

  lemma UnitTable()
    ensures LookUpUnit("w") == Power(0.001) && LookUpUnit("kw") == Power(1.0) && LookUpUnit("mw") == Power(1000.0)
    ensures LookUpUnit("wh") == Counter(0.001) && LookUpUnit("kwh") == Counter(1.0)
    ensures LookUpUnit("mwh") == Counter(1000.0) && LookUpUnit("gwh") == Counter(1_000_000.0)
  {
  }

  /** Units are named in any case, with any space around them. */
  lemma UnitsAsWritten(unit: string)
    ensures ParseUnit("kW") == Power(1.0) && ParseUnit("MWh") == Counter(1000.0)
    ensures ParseUnit(unit) == LookUpUnit(Text.ToLower(Text.TrimSpace(unit)))
    ensures ParseUnit(unit) == Other <==>
            Text.ToLower(Text.TrimSpace(unit)) !in {"w", "kw", "mw", "wh", "kwh", "mwh", "gwh"}
  {
    assert Text.ToLower("kW") == "kw" && Text.ToLower("MWh") == "mwh";
    assert Text.Trimmed("kW") && Text.Trimmed("MWh");
  }

  /** The unit table is consistent: a series in W, kW and MW, or in Wh to GWh, has one energy. */
  lemma UnitsAgree(points: seq<Point>)
    ensures Thousandth(LookUpUnit("w"), LookUpUnit("kw"), points) && Thousandth(LookUpUnit("kw"), LookUpUnit("mw"), points)
    ensures Thousandth(LookUpUnit("wh"), LookUpUnit("kwh"), points) && Thousandth(LookUpUnit("kwh"), LookUpUnit("mwh"), points)
    ensures Thousandth(LookUpUnit("mwh"), LookUpUnit("gwh"), points)
  {
    UnitTable();
    PowersAgree(0.001, 1.0, points);
    PowersAgree(1.0, 1000.0, points);
    CountersAgree(0.001, 1.0, points);
    CountersAgree(1.0, 1000.0, points);
    CountersAgree(1000.0, 1_000_000.0, points);
  }

  lemma PowersAgree(f: real, larger: real, points: seq<Point>)
    requires larger == f * 1000.0
    ensures Thousandth(Power(f), Power(larger), points)
  {
    PowerScales(f, 1000.0, larger);
    EnergyScales(Power(f), 1000.0, Power(larger), points, Segments(points));
  }

  lemma CountersAgree(f: real, larger: real, points: seq<Point>)
    requires larger == f * 1000.0
    ensures Thousandth(Counter(f), Counter(larger), points)
  {
    CounterScales(f, 1000.0, larger);
    EnergyScales(Counter(f), 1000.0, Counter(larger), points, Segments(points));
  }

  // ----- buckets -----

  /** The name of an hour or a day. */
  datatype Key = Key(text: string)

  datatype Bucket = Bucket(key: Key, start: real, kwh: real)

  /** The time zone's rules: the name and the beginning of the hour or day a time falls in. */
  datatype Clock = Clock(keyOf: real -> Key, startOf: real -> real)

  ghost predicate DistinctKeys(buckets: seq<Bucket>) {
    forall i, j | 0 <= i < j < |buckets| :: buckets[i].key != buckets[j].key
  }

  ghost predicate ByStart(buckets: seq<Bucket>) {
    forall i, j | 0 <= i < j < |buckets| :: buckets[i].start <= buckets[j].start
  }

  function Amount(): Bucket -> real {
    (b: Bucket) => b.kwh
  }

  function AmountOf(key: Key): Bucket -> real {
    (b: Bucket) => if b.key == key then b.kwh else 0.0
  }

  /** A measure that adds up over the parts of a bucket. */
  ghost predicate Additive(f: Bucket -> real) {
    forall b: Bucket, c: Bucket :: AddsUp(f, b, c)
  }

  predicate AddsUp(f: Bucket -> real, b: Bucket, c: Bucket) {
    b.key == c.key ==> f(b.(kwh := b.kwh + c.kwh)) == f(b) + f(c)
  }

  function Find(buckets: seq<Bucket>, key: Key, n: nat): (i: Option<nat>)
    requires n <= |buckets|
    ensures i.Some? ==> i.value < n && buckets[i.value].key == key
    ensures i.None? ==> forall j | 0 <= j < n :: buckets[j].key != key
  {
    if n == 0 then None
    else if buckets[n - 1].key == key then Some(n - 1)
    else Find(buckets, key, n - 1)
  }

  /** The Map of totals, in the order its keys were first seen. */
  function Added(totals: seq<Bucket>, part: Bucket): seq<Bucket> {
    match Find(totals, part.key, |totals|)
    case Some(i) => totals[i := totals[i].(kwh := totals[i].kwh + part.kwh)]
    case None => totals + [part]
  }

  function AddedTo(parts: seq<Bucket>, n: nat): seq<Bucket>
    requires n <= |parts|
  {
    if n == 0 then [] else Added(AddedTo(parts, n - 1), parts[n - 1])
  }

  /** A list of buckets is the totals of some parts, by start. */
  ghost predicate Groups(buckets: seq<Bucket>, parts: seq<Bucket>) {
    ByStart(buckets) && multiset(buckets) == multiset(AddedTo(parts, |parts|))
  }

  lemma AddedMeasures(f: Bucket -> real, totals: seq<Bucket>, part: Bucket)
    requires Additive(f)
    ensures Total(f, Added(totals, part)) == Total(f, totals) + f(part)
  {
    match Find(totals, part.key, |totals|)
    case Some(i) =>
      assert AddsUp(f, totals[i], part);
      TotalUpdate(f, totals, i, totals[i].(kwh := totals[i].kwh + part.kwh), |totals|);
    case None => TotalPush(f, totals, part);
  }

  lemma {:induction false} AddedToMeasures(f: Bucket -> real, parts: seq<Bucket>, n: nat)
    requires Additive(f) && n <= |parts|
    ensures Total(f, AddedTo(parts, n)) == TotalTo(f, parts, n)
  {
    if n == 0 {
    } else {
      AddedToMeasures(f, parts, n - 1);
      AddedMeasures(f, AddedTo(parts, n - 1), parts[n - 1]);
    }
  }

  lemma AddedKeepsDistinct(totals: seq<Bucket>, part: Bucket)
    requires DistinctKeys(totals)
    ensures DistinctKeys(Added(totals, part))
  {
  }

  lemma {:induction false} AddedToIsDistinct(parts: seq<Bucket>, n: nat)
    requires n <= |parts|
    ensures DistinctKeys(AddedTo(parts, n))
  {
    if n == 0 {
    } else {
      AddedToIsDistinct(parts, n - 1);
      AddedKeepsDistinct(AddedTo(parts, n - 1), parts[n - 1]);
    }
  }

  // ----- sorting by start -----

  /** Array.sort by start. */
  method SortByStart(buckets: seq<Bucket>) returns (sorted: seq<Bucket>)
    ensures ByStart(sorted) && multiset(sorted) == multiset(buckets)
  {
    sorted := Sort((a: Bucket, b: Bucket) => a.start < b.start, buckets);
  }

  // ----- the two groupings -----

  /** The energy of segment i, put in the bucket of its earlier sample. */
  function Part(u: Unit, clock: Clock, points: seq<Point>, i: nat): Bucket
    requires i + 1 < |points|
  {
    var previous := points[i];
    Bucket(clock.keyOf(previous.t), clock.startOf(previous.t), SegmentKWh(u, previous, points[i + 1]))
  }

  function Parts(u: Unit, clock: Clock, points: seq<Point>, n: nat): (parts: seq<Bucket>)
    requires n < |points| || n == 0
    ensures |parts| == n
  {
    seq(n, i requires 0 <= i < n => Part(u, clock, points, i))
  }

  method BucketEnergy(points: seq<Point>, unit: string, clock: Clock) returns (buckets: seq<Bucket>)
    ensures var u := ParseUnit(unit);
            if u == Other then buckets == [] else Groups(buckets, Parts(u, clock, points, Segments(points)))
  {
    var u := ParseUnit(unit);
    if u == Other {
      return [];
    }
    var totals := AddSegments(points, u, clock);
    buckets := SortByStart(totals);
  }

  lemma AddedOneMore(parts: seq<Bucket>, n: nat, totals: seq<Bucket>, part: Bucket)
    requires n < |parts| && totals == AddedTo(parts, n) && part == parts[n]
    ensures Added(totals, part) == AddedTo(parts, n + 1)
  {
  }

  method AddSegments(points: seq<Point>, u: Unit, clock: Clock) returns (totals: seq<Bucket>)
    ensures totals == AddedTo(Parts(u, clock, points, Segments(points)), Segments(points))
  {
    ghost var parts := Parts(u, clock, points, Segments(points));
    totals := [];
    if points == [] {
      return;
    }
    for index := 1 to |points|
      invariant totals == AddedTo(parts, index - 1)
    {
      var part := Part(u, clock, points, index - 1);
      AddedOneMore(parts, index - 1, totals, part);
      totals := Added(totals, part);
    }
  }

  lemma {:induction false} AddedPrefix(parts: seq<Bucket>, more: seq<Bucket>, n: nat)
    requires n <= |parts|
    ensures AddedTo(parts + more, n) == AddedTo(parts, n)
  {
    if n == 0 {
    } else {
      AddedPrefix(parts, more, n - 1);
      AddedOneMore(parts + more, n - 1, AddedTo(parts, n - 1), parts[n - 1]);
    }
  }

  method SumBuckets(perDevice: seq<seq<Bucket>>) returns (buckets: seq<Bucket>)
    ensures Groups(buckets, Flat(Whole(), perDevice))
  {
    var totals: seq<Bucket> := [];
    for d := 0 to |perDevice|
      invariant totals == AddedTo(FlatTo(Whole(), perDevice, d), |FlatTo(Whole(), perDevice, d)|)
    {
      totals := AddList(totals, FlatTo(Whole(), perDevice, d), perDevice[d]);
    }
    FlatToAll(Whole(), perDevice);
    buckets := SortByStart(totals);
  }

  /** The inner loop: one device's buckets. */
  method AddList(totals: seq<Bucket>, ghost before: seq<Bucket>, list: seq<Bucket>) returns (totals': seq<Bucket>)
    requires totals == AddedTo(before, |before|)
    ensures totals' == AddedTo(before + list, |before + list|)
  {
    totals' := totals;
    AddedPrefix(before, list, |before|);
    ghost var parts := before + list;
    for i := 0 to |list|
      invariant totals' == AddedTo(parts, |before| + i)
    {
      assert parts[|before| + i] == list[i];
      totals' := Added(totals', list[i]);
    }
  }

  function Whole(): seq<Bucket> -> seq<Bucket> {
    (buckets: seq<Bucket>) => buckets
  }

  // ----- conservation -----

  lemma GroupsMeasure(f: Bucket -> real, buckets: seq<Bucket>, parts: seq<Bucket>)
    requires Groups(buckets, parts) && Additive(f)
    ensures Total(f, buckets) == Total(f, parts)
  {
    AddedToMeasures(f, parts, |parts|);
    TotalPermute(f, buckets, AddedTo(parts, |parts|));
  }

  lemma AmountsAddUp(key: Key)
    ensures Additive(Amount()) && Additive(AmountOf(key))
  {
  }

  predicate HasKey(s: seq<Bucket>, key: Key, n: nat)
    requires n <= |s|
  {
    exists i | 0 <= i < n :: s[i].key == key
  }

  function Has(key: Key): Bucket -> real {
    (b: Bucket) => if b.key == key then 1.0 else 0.0
  }

  lemma {:induction false} CountOfDistinct(s: seq<Bucket>, key: Key, n: nat)
    requires DistinctKeys(s) && n <= |s|
    ensures TotalTo(Has(key), s, n) == if HasKey(s, key, n) then 1.0 else 0.0
  {
    if n == 0 {
    } else {
      CountOfDistinct(s, key, n - 1);
    }
  }

  lemma {:induction false} CountOfOne(s: seq<Bucket>, i: nat, n: nat)
    requires n <= |s| && i < |s|
    ensures TotalTo(Has(s[i].key), s, n) >= if i < n then 1.0 else 0.0
    ensures forall j | 0 <= j < i < n && s[j].key == s[i].key :: TotalTo(Has(s[i].key), s, n) >= 2.0
  {
    if n == 0 {
    } else {
      CountOfOne(s, i, n - 1);
      if i == n - 1 {
        forall j | 0 <= j < i && s[j].key == s[i].key
          ensures TotalTo(Has(s[i].key), s, i) >= 1.0
        {
          CountOfOne(s, j, i);
        }
      }
    }
  }

  lemma DistinctPermutes(a: seq<Bucket>, b: seq<Bucket>)
    requires multiset(a) == multiset(b) && DistinctKeys(b)
    ensures DistinctKeys(a)
  {
    forall j, i | 0 <= j < i < |a|
      ensures a[j].key != a[i].key
    {
      TotalPermute(Has(a[i].key), a, b);
      CountOfDistinct(b, a[i].key, |b|);
      CountOfOne(a, i, |a|);
    }
  }

  /** In a list with distinct keys, the amount of a key is that of its bucket. */
  lemma {:induction false} AmountOfDistinct(s: seq<Bucket>, i: nat, n: nat)
    requires DistinctKeys(s) && i < |s| && n <= |s|
    ensures TotalTo(AmountOf(s[i].key), s, n) == if i < n then s[i].kwh else 0.0
  {
    if n == 0 {
    } else {
      AmountOfDistinct(s, i, n - 1);
    }
  }

  /** A bucket starts where the first part of its key starts. */
  ghost predicate FirstStart(parts: seq<Bucket>, b: Bucket, n: nat)
    requires n <= |parts|
  {
    exists i: nat | i < n :: parts[i].key == b.key && parts[i].start == b.start && !HasKey(parts, b.key, i)
  }

  lemma {:induction false} AddedToStarts(parts: seq<Bucket>, n: nat)
    requires n <= |parts|
    ensures forall b | b in AddedTo(parts, n) :: FirstStart(parts, b, n)
  {
    if n == 0 {
    } else {
      AddedToStarts(parts, n - 1);
      var before, part := AddedTo(parts, n - 1), parts[n - 1];
      AddedToKeys(parts, part.key, n - 1);
      forall b | b in Added(before, part)
        ensures FirstStart(parts, b, n)
      {
        match Find(before, part.key, |before|)
        case Some(k) =>
          var whose := if b.key == part.key && b !in before then before[k] else b;
          assert whose in before && FirstStart(parts, whose, n - 1);
        case None =>
          if b in before {
            assert FirstStart(parts, b, n - 1);
          } else {
            assert b == part && !HasKey(parts, b.key, n - 1);
          }
      }
    }
  }

  /** Grouping conserves energy: the buckets have distinct keys and are in order of their start,
      each holds exactly what its key was given, and together they hold everything. */
  lemma GroupingConserves(buckets: seq<Bucket>, parts: seq<Bucket>)
    requires Groups(buckets, parts)
    ensures DistinctKeys(buckets) && ByStart(buckets)
    ensures Total(Amount(), buckets) == Total(Amount(), parts)
    ensures forall i | 0 <= i < |buckets| :: buckets[i].kwh == Total(AmountOf(buckets[i].key), parts)
    ensures forall i | 0 <= i < |buckets| :: FirstStart(parts, buckets[i], |parts|)
    ensures forall key :: HasKey(buckets, key, |buckets|) <==> HasKey(parts, key, |parts|)
  {
    var totals := AddedTo(parts, |parts|);
    AddedToIsDistinct(parts, |parts|);
    AddedToStarts(parts, |parts|);
    SameMembers(buckets, totals);
    forall i | 0 <= i < |buckets|
      ensures FirstStart(parts, buckets[i], |parts|)
    {
      assert buckets[i] in totals;
    }
    DistinctPermutes(buckets, totals);
    AmountsAddUp(Key(""));
    GroupsMeasure(Amount(), buckets, parts);
    forall i | 0 <= i < |buckets|
      ensures buckets[i].kwh == Total(AmountOf(buckets[i].key), parts)
    {
      AmountsAddUp(buckets[i].key);
      GroupsMeasure(AmountOf(buckets[i].key), buckets, parts);
      AmountOfDistinct(buckets, i, |buckets|);
    }
    forall key
      ensures HasKey(buckets, key, |buckets|) <==> HasKey(parts, key, |parts|)
    {
      GroupedKeys(buckets, parts, key);
    }
  }

  lemma {:induction false} AddedToKeys(parts: seq<Bucket>, key: Key, n: nat)
    requires n <= |parts|
    ensures HasKey(AddedTo(parts, n), key, |AddedTo(parts, n)|) <==> HasKey(parts, key, n)
  {
    if n == 0 {
    } else {
      AddedToKeys(parts, key, n - 1);
      AddedKeys(AddedTo(parts, n - 1), parts[n - 1], key);
    }
  }

  lemma AddedKeys(totals: seq<Bucket>, part: Bucket, key: Key)
    ensures HasKey(Added(totals, part), key, |Added(totals, part)|) <==> part.key == key || HasKey(totals, key, |totals|)
  {
    var after := Added(totals, part);
    match Find(totals, part.key, |totals|)
    case Some(k) =>
      assert forall i | 0 <= i < |totals| :: after[i].key == totals[i].key;
    case None =>
      assert after[|totals|] == part;
      assert forall i | 0 <= i < |totals| :: after[i] == totals[i];
  }

  lemma GroupedKeys(buckets: seq<Bucket>, parts: seq<Bucket>, key: Key)
    requires Groups(buckets, parts)
    ensures HasKey(buckets, key, |buckets|) <==> HasKey(parts, key, |parts|)
  {
    var totals := AddedTo(parts, |parts|);
    AddedToKeys(parts, key, |parts|);
    SameMembers(buckets, totals);
    if i :| 0 <= i < |buckets| && buckets[i].key == key {
      assert buckets[i] in totals;
    }
    if i :| 0 <= i < |totals| && totals[i].key == key {
      assert totals[i] in buckets;
    }
  }

  lemma {:induction false} SeriesIsParts(u: Unit, clock: Clock, points: seq<Point>, n: nat, m: nat)
    requires n <= m && (m < |points| || m == 0)
    ensures EnergyTo(u, points, n) == TotalTo(Amount(), Parts(u, clock, points, m), n)
  {
    if n == 0 {
    } else {
      SeriesIsParts(u, clock, points, n - 1, m);
    }
  }

  /** The buckets of a series add up to its total, whatever the time zone. */
  lemma BucketsHoldTheTotal(u: Unit, clock: Clock, points: seq<Point>, buckets: seq<Bucket>)
    requires Groups(buckets, Parts(u, clock, points, Segments(points)))
    ensures Total(Amount(), buckets) == SeriesEnergy(u, points)
  {
    var parts := Parts(u, clock, points, Segments(points));
    GroupingConserves(buckets, parts);
    SeriesIsParts(u, clock, points, Segments(points), Segments(points));
  }

  /** The energy of the segments, among the first n, whose earlier sample falls under the key. */
  function EnergyUnder(u: Unit, clock: Clock, points: seq<Point>, key: Key, n: nat): real
    requires n < |points| || n == 0
  {
    if n == 0 then 0.0
    else EnergyUnder(u, clock, points, key, n - 1)
         + if clock.keyOf(points[n - 1].t) == key then SegmentKWh(u, points[n - 1], points[n]) else 0.0
  }

  lemma {:induction false} PartsUnderKey(u: Unit, clock: Clock, points: seq<Point>, key: Key, n: nat, m: nat)
    requires n <= m && (m < |points| || m == 0)
    ensures TotalTo(AmountOf(key), Parts(u, clock, points, m), n) == EnergyUnder(u, clock, points, key, n)
  {
    if n == 0 {
    } else {
      PartsUnderKey(u, clock, points, key, n - 1, m);
    }
  }

  /** Each bucket of a series holds exactly the energy of its own hour or day: the segments whose earlier
      sample falls in it. */
  lemma BucketHoldsItsOwn(u: Unit, clock: Clock, points: seq<Point>, buckets: seq<Bucket>, i: nat)
    requires Groups(buckets, Parts(u, clock, points, Segments(points))) && i < |buckets|
    ensures buckets[i].kwh == EnergyUnder(u, clock, points, buckets[i].key, Segments(points))
    ensures exists k | 0 <= k < Segments(points) ::
              clock.keyOf(points[k].t) == buckets[i].key && clock.startOf(points[k].t) == buckets[i].start
  {
    var parts := Parts(u, clock, points, Segments(points));
    GroupingConserves(buckets, parts);
    PartsUnderKey(u, clock, points, buckets[i].key, Segments(points), Segments(points));
    assert FirstStart(parts, buckets[i], |parts|);
    var k: nat :| k < |parts| && parts[k].key == buckets[i].key && parts[k].start == buckets[i].start;
    assert parts[k] == Part(u, clock, points, k);
  }

  /** What the lists hold together. */
  function TotalOfLists(lists: seq<seq<Bucket>>, n: nat): real
    requires n <= |lists|
  {
    if n == 0 then 0.0 else TotalOfLists(lists, n - 1) + Total(Amount(), lists[n - 1])
  }

  lemma {:induction false} FlatHoldsAll(lists: seq<seq<Bucket>>, n: nat)
    requires n <= |lists|
    ensures Total(Amount(), FlatTo(Whole(), lists, n)) == TotalOfLists(lists, n)
  {
    if n == 0 {
    } else {
      FlatHoldsAll(lists, n - 1);
      TotalAppend(Amount(), FlatTo(Whole(), lists, n - 1), lists[n - 1], |lists[n - 1]|);
    }
  }

  /** The list at position d groups the series at position d. */
  ghost predicate BucketsOf(u: Unit, clock: Clock, series: seq<seq<Point>>, lists: seq<seq<Bucket>>, d: nat)
    requires d < |series| == |lists|
  {
    Groups(lists[d], Parts(u, clock, series[d], Segments(series[d])))
  }

  /** Summing buckets over devices conserves the energy of the site: with each list the buckets of
      one device's series, the sums add up to the devices' totals. */
  lemma SiteEnergyIsConserved(u: Unit, clock: Clock, series: seq<seq<Point>>, lists: seq<seq<Bucket>>, site: seq<Bucket>)
    requires |lists| == |series| && Groups(site, Flat(Whole(), lists))
    requires forall d | 0 <= d < |series| :: BucketsOf(u, clock, series, lists, d)
    ensures DistinctKeys(site) && ByStart(site)
    ensures Total(Amount(), site) == EnergyOfAll(u, series, |series|)
  {
    FlatToAll(Whole(), lists);
    FlatHoldsAll(lists, |lists|);
    GroupingConserves(site, Flat(Whole(), lists));
    ListsHoldTotals(u, clock, series, lists, |series|);
  }

  function EnergyOfAll(u: Unit, series: seq<seq<Point>>, n: nat): real
    requires n <= |series|
  {
    if n == 0 then 0.0 else EnergyOfAll(u, series, n - 1) + SeriesEnergy(u, series[n - 1])
  }

  lemma {:induction false} ListsHoldTotals(u: Unit, clock: Clock, series: seq<seq<Point>>, lists: seq<seq<Bucket>>, n: nat)
    requires |lists| == |series| && n <= |series|
    requires forall d | 0 <= d < |series| :: BucketsOf(u, clock, series, lists, d)
    ensures TotalOfLists(lists, n) == EnergyOfAll(u, series, n)
  {
    if n == 0 {
    } else {
      ListsHoldTotals(u, clock, series, lists, n - 1);
      assert BucketsOf(u, clock, series, lists, n - 1);
      BucketsHoldTheTotal(u, clock, series[n - 1], lists[n - 1]);
    }
  }
}
