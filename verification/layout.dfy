/** internal/core/dashboard_layout.go: which dashboard layouts are accepted. */
module Layout {
  import opened Results
  import opened Integers

  /** Registered widgets, and any other name a layout may mention. */
  datatype Widget =
    | PlantCount | ActiveDeviceCount | ReportingDeviceCount | AttentionDeviceCount | PlantStatus
    | Timeseries | EnergyProduction
    | Unregistered(name: string)

  const REQUIRED: seq<Widget> := [PlantCount, ActiveDeviceCount, ReportingDeviceCount, AttentionDeviceCount, PlantStatus]
  const REGISTERED := 7

  datatype Breakpoint = Lg | Md | Sm | Unlisted(name: string)

  datatype Item = Item(id: Widget, x: Int64, y: Int64, w: Int64, h: Int64)

  type Layouts = map<Breakpoint, seq<Item>>

  function Columns(b: Breakpoint): int {
    match b
    case Lg => 12
    case Md => 8
    case _ => 4
  }

  // ----- what the validator checks -----

  predicate ItemPasses(item: Item, cols: int) {
    && !item.id.Unregistered?
    && item.x >= 0 && item.y >= 0 && item.w >= 1 && item.h >= 1
    && Plus(item.x, item.w) <= cols && item.y <= 1000 && item.h <= 100
  }

  predicate Collide(a: Item, b: Item) {
    a.x < Plus(b.x, b.w) && Plus(a.x, a.w) > b.x && a.y < Plus(b.y, b.h) && Plus(a.y, a.h) > b.y
  }

  function IdsTo(items: seq<Item>, n: nat): set<Widget>
    requires n <= |items|
  {
    set i | 0 <= i < n :: items[i].id
  }

  function Ids(items: seq<Item>): set<Widget> {
    IdsTo(items, |items|)
  }

  ghost predicate ItemPassesAt(items: seq<Item>, cols: int, i: nat)
    requires i < |items|
  {
    && ItemPasses(items[i], cols) && items[i].id !in IdsTo(items, i)
    && forall j | 0 <= j < i :: !Collide(items[i], items[j])
  }

  ghost predicate ItemsPass(items: seq<Item>, cols: int) {
    && |REQUIRED| <= |items| <= REGISTERED
    && (forall i | 0 <= i < |items| :: ItemPassesAt(items, cols, i))
    && (forall id | id in REQUIRED :: id in Ids(items))
  }

  ghost predicate Passes(layouts: Layouts) {
    && |layouts| == 3 && Lg in layouts && Md in layouts && Sm in layouts
    && ItemsPass(layouts[Lg], 12) && ItemsPass(layouts[Md], 8) && ItemsPass(layouts[Sm], 4)
    && Ids(layouts[Lg]) == Ids(layouts[Md]) == Ids(layouts[Sm])
  }

  method ValidateItems(items: seq<Item>, cols: int) returns (ok: bool, seen: set<Widget>)
    ensures ok <==> ItemsPass(items, cols)
    ensures ok ==> seen == Ids(items)
  {
    seen := {};
    if |items| < |REQUIRED| || |items| > REGISTERED {
      return false, seen;
    }
    for index := 0 to |items|
      invariant seen == IdsTo(items, index)
      invariant forall i | 0 <= i < index :: ItemPassesAt(items, cols, i)
    {
      var item := items[index];
      if item.id.Unregistered? || item.id in seen || item.x < 0 || item.y < 0 || item.w < 1 || item.h < 1
         || Plus(item.x, item.w) > cols || item.y > 1000 || item.h > 100 {
        assert !ItemPassesAt(items, cols, index);
        return false, seen;
      }
      seen := seen + {item.id};
      for j := 0 to index
        invariant forall i | 0 <= i < j :: !Collide(item, items[i])
      {
        if Collide(item, items[j]) {
          assert !ItemPassesAt(items, cols, index);
          return false, seen;
        }
      }
      assert ItemPassesAt(items, cols, index);
    }
    for i := 0 to |REQUIRED|
      invariant forall k | 0 <= k < i :: REQUIRED[k] in seen
    {
      if REQUIRED[i] !in seen {
        assert REQUIRED[i] in REQUIRED;
        return false, seen;
      }
    }
    assert forall id | id in REQUIRED :: id in seen;
    ok := true;
  }

  method SameSet(expected: set<Widget>, seen: set<Widget>) returns (same: bool)
    ensures same == (expected == seen)
  {
    if |expected| != |seen| {
      return false;
    }
    var left := expected;
    while left != {}
      invariant left <= expected && expected - left <= seen
    {
      var id :| id in left;
      if id !in seen {
        return false;
      }
      left := left - {id};
    }
    SubsetOfSameSize(expected, seen);
    return true;
  }

  lemma SubsetOfSameSize(a: set<Widget>, b: set<Widget>)
    requires a <= b && |a| == |b|
    ensures a == b
  {
    assert |b - a| == 0;
  }

  method ValidateDashboardLayouts(layouts: Layouts) returns (ok: bool)
    ensures ok <==> Passes(layouts)
  {
    if |layouts| != 3 {
      return false;
    }
    var breakpoints := [Lg, Md, Sm];
    var expected: Option<set<Widget>> := None;
    for k := 0 to 3
      invariant forall i | 0 <= i < k :: breakpoints[i] in layouts && ItemsPass(layouts[breakpoints[i]], Columns(breakpoints[i]))
      invariant k == 0 ==> expected == None
      invariant k > 0 ==> expected.Some? && forall i | 0 <= i < k :: Ids(layouts[breakpoints[i]]) == expected.value
    {
      var breakpoint := breakpoints[k];
      if breakpoint !in layouts {
        return false;
      }
      var valid, seen := ValidateItems(layouts[breakpoint], Columns(breakpoint));
      if !valid {
        return false;
      }
      if expected == None {
        expected := Some(seen);
      } else {
        var same := SameSet(expected.value, seen);
        if !same {
          assert breakpoints[0] == Lg && Ids(layouts[breakpoints[0]]) == expected.value;
          return false;
        }
      }
    }
    assert breakpoints[0] == Lg && breakpoints[1] == Md && breakpoints[2] == Sm;
    return true;
  }

  // ----- what a layout should be -----

  predicate Covers(item: Item, cx: int, cy: int) {
    item.x <= cx < item.x + item.w && item.y <= cy < item.y + item.h
  }

  /** A registered widget on a non-empty rectangle inside the grid. */
  predicate InGrid(item: Item, cols: int) {
    && !item.id.Unregistered?
    && 0 <= item.x && 1 <= item.w && item.x + item.w <= cols
    && 0 <= item.y <= 1000 && 1 <= item.h <= 100
  }

  ghost predicate ShareACell(a: Item, b: Item) {
    exists cx, cy :: Covers(a, cx, cy) && Covers(b, cx, cy)
  }

  ghost predicate Distinct(items: seq<Item>) {
    forall i, j | 0 <= i < j < |items| :: items[i].id != items[j].id
  }

  ghost predicate Disjoint(items: seq<Item>) {
    forall i, j | 0 <= i < j < |items| :: !ShareACell(items[j], items[i])
  }

  ghost predicate AcceptableItems(items: seq<Item>, cols: int) {
    && (forall i | 0 <= i < |items| :: InGrid(items[i], cols))
    && Distinct(items) && Disjoint(items)
    && (forall id | id in REQUIRED :: id in Ids(items))
  }

  ghost predicate Acceptable(layouts: Layouts) {
    && layouts.Keys == {Lg, Md, Sm}
    && AcceptableItems(layouts[Lg], 12) && AcceptableItems(layouts[Md], 8) && AcceptableItems(layouts[Sm], 4)
    && Ids(layouts[Lg]) == Ids(layouts[Md]) == Ids(layouts[Sm])
  }

  predicate Fits(item: Item) {
    item.x + item.w <= MAX_INT64
  }

  ghost predicate AllFit(items: seq<Item>) {
    forall i | 0 <= i < |items| :: Fits(items[i])
  }

  /** No item's right edge overflows. */
  ghost predicate NoOverflow(layouts: Layouts) {
    forall b | b in layouts :: AllFit(layouts[b])
  }

  lemma CollideIffShareACell(a: Item, b: Item)
    requires Fits(a) && Fits(b) && ItemPasses(a, a.x + a.w) && ItemPasses(b, b.x + b.w)
    ensures Collide(a, b) <==> ShareACell(a, b)
  {
    if Collide(a, b) {
      var cx, cy := if a.x < b.x then b.x else a.x, if a.y < b.y then b.y else a.y;
      assert Covers(a, cx, cy) && Covers(b, cx, cy);
    }
  }

  lemma PassesIffInGrid(item: Item, cols: int)
    requires 0 <= cols <= MAX_INT64
    ensures InGrid(item, cols) <==> ItemPasses(item, cols) && Fits(item)
  {
  }

  // how many items there can be

  lemma {:induction false} DistinctIdsCount(items: seq<Item>, n: nat)
    requires n <= |items| && Distinct(items)
    ensures |IdsTo(items, n)| == n
  {
    if n == 0 {
    } else {
      DistinctIdsCount(items, n - 1);
      assert IdsTo(items, n) == IdsTo(items, n - 1) + {items[n - 1].id};
      assert items[n - 1].id !in IdsTo(items, n - 1);
    }
  }

  lemma WidgetCounts(ids: set<Widget>)
    requires forall id | id in ids :: !id.Unregistered?
    requires forall id | id in REQUIRED :: id in ids
    ensures |REQUIRED| <= |ids| <= REGISTERED
  {
    var required := {PlantCount, ActiveDeviceCount, ReportingDeviceCount, AttentionDeviceCount, PlantStatus};
    var registered := required + {Timeseries, EnergyProduction};
    assert |required| == 5 && |registered| == 7;
    assert forall id | id in required :: id in REQUIRED;
    SubsetIsSmaller(required, ids);
    SubsetIsSmaller(ids, registered);
  }

  lemma SubsetIsSmaller<T>(a: set<T>, b: set<T>)
    requires a <= b
    ensures |a| <= |b|
  {
    assert b == a + (b - a);
  }

  /** The validator's length test follows from the rest: distinct registered widgets that cover the
      required ones are five to seven. */
  lemma ItemCountFollows(items: seq<Item>, cols: int)
    requires AcceptableItems(items, cols)
    ensures |REQUIRED| <= |items| <= REGISTERED
  {
    DistinctIdsCount(items, |items|);
    forall id | id in Ids(items)
      ensures !id.Unregistered?
    {
      var i :| 0 <= i < |items| && items[i].id == id;
      assert InGrid(items[i], cols);
    }
    WidgetCounts(Ids(items));
  }

  lemma ItemsPassIffAcceptable(items: seq<Item>, cols: int)
    requires 0 <= cols <= MAX_INT64
    ensures AcceptableItems(items, cols) <==> ItemsPass(items, cols) && AllFit(items)
  {
    forall i | 0 <= i < |items|
      ensures InGrid(items[i], cols) <==> ItemPasses(items[i], cols) && Fits(items[i])
    {
      PassesIffInGrid(items[i], cols);
    }
    if forall i | 0 <= i < |items| :: InGrid(items[i], cols) {
      forall i, j | 0 <= i < j < |items|
        ensures Collide(items[j], items[i]) <==> ShareACell(items[j], items[i])
      {
        CollideIffShareACell(items[j], items[i]);
      }
      PairwiseIffEach(items, cols);
      if AcceptableItems(items, cols) {
        ItemCountFollows(items, cols);
      }
    } else {
      assert !AcceptableItems(items, cols);
      if i :| 0 <= i < |items| && !InGrid(items[i], cols) {
        assert ItemPassesAt(items, cols, i) ==> !Fits(items[i]);
      }
    }
  }

  lemma PairwiseIffEach(items: seq<Item>, cols: int)
    requires forall i | 0 <= i < |items| :: ItemPasses(items[i], cols)
    requires forall i, j | 0 <= i < j < |items| :: Collide(items[j], items[i]) <==> ShareACell(items[j], items[i])
    ensures Distinct(items) && Disjoint(items) <==> forall i | 0 <= i < |items| :: ItemPassesAt(items, cols, i)
  {
    if forall i | 0 <= i < |items| :: ItemPassesAt(items, cols, i) {
      forall i, j | 0 <= i < j < |items|
        ensures items[i].id != items[j].id && !ShareACell(items[j], items[i])
      {
        assert ItemPassesAt(items, cols, j);
      }
    }
  }

  lemma ThreeKeys(layouts: Layouts)
    ensures layouts.Keys == {Lg, Md, Sm} <==> |layouts| == 3 && Lg in layouts && Md in layouts && Sm in layouts
  {
    var three := {Lg, Md, Sm};
    assert |three| == 3;
    assert |layouts| == |layouts.Keys|;
    if |layouts| == 3 && three <= layouts.Keys {
      assert |layouts.Keys - three| == 0;
    }
  }

  /** Acceptance is exact but for one thing: a layout passes and no right edge overflows if and only
      if every breakpoint's items lie in its grid, share no cell, are named once, cover the required
      widgets, and are the same widgets throughout. */
  lemma AcceptanceIsExact(layouts: Layouts)
    ensures Acceptable(layouts) <==> Passes(layouts) && NoOverflow(layouts)
  {
    ThreeKeys(layouts);
    if layouts.Keys == {Lg, Md, Sm} {
      ItemsPassIffAcceptable(layouts[Lg], 12);
      ItemsPassIffAcceptable(layouts[Md], 8);
      ItemsPassIffAcceptable(layouts[Sm], 4);
      assert NoOverflow(layouts) <==> AllFit(layouts[Lg]) && AllFit(layouts[Md]) && AllFit(layouts[Sm]);
    }
  }

  // ----- counting cells -----

  datatype Cell = Cell(x: int, y: int)

  function Column(x: int, y: int, h: nat): set<Cell> {
    if h == 0 then {} else Column(x, y, h - 1) + {Cell(x, y + h - 1)}
  }

  function Rectangle(x: int, y: int, w: nat, h: nat): set<Cell> {
    if w == 0 then {} else Rectangle(x, y, w - 1, h) + Column(x + w - 1, y, h)
  }

  lemma {:induction false} ColumnMember(x: int, y: int, h: nat, c: Cell)
    ensures c in Column(x, y, h) <==> c.x == x && y <= c.y < y + h
  {
    if h == 0 {
    } else {
      ColumnMember(x, y, h - 1, c);
    }
  }

  lemma {:induction false} ColumnSize(x: int, y: int, h: nat)
    ensures |Column(x, y, h)| == h
  {
    if h == 0 {
    } else {
      ColumnSize(x, y, h - 1);
      ColumnMember(x, y, h - 1, Cell(x, y + h - 1));
    }
  }

  lemma {:induction false} RectangleMember(x: int, y: int, w: nat, h: nat, c: Cell)
    ensures c in Rectangle(x, y, w, h) <==> x <= c.x < x + w && y <= c.y < y + h
  {
    if w == 0 {
    } else {
      RectangleMember(x, y, w - 1, h, c);
      ColumnMember(x + w - 1, y, h, c);
    }
  }

  lemma RectangleMembers(x: int, y: int, w: nat, h: nat)
    ensures forall c :: c in Rectangle(x, y, w, h) <==> x <= c.x < x + w && y <= c.y < y + h
  {
    forall c {
      RectangleMember(x, y, w, h, c);
    }
  }

  lemma OneMoreColumn(w: int, h: int)
    ensures w * h == (w - 1) * h + h
  {
  }

  lemma ColumnApart(x: int, y: int, w: nat, h: nat)
    ensures Rectangle(x, y, w, h) !! Column(x + w, y, h)
  {
    forall c | c in Rectangle(x, y, w, h)
      ensures c !in Column(x + w, y, h)
    {
      RectangleMember(x, y, w, h, c);
      ColumnMember(x + w, y, h, c);
    }
  }

  lemma {:induction false} RectangleSize(x: int, y: int, w: nat, h: nat)
    ensures |Rectangle(x, y, w, h)| == w * h
  {
    if w == 0 {
    } else {
      RectangleSize(x, y, w - 1, h);
      OneMoreColumn(w, h);
      var rest, column := Rectangle(x, y, w - 1, h), Column(x + w - 1, y, h);
      assert |column| == h by {
        ColumnSize(x + w - 1, y, h);
      }
      assert rest !! column by {
        ColumnApart(x, y, w - 1, h);
      }
      DisjointSizes(rest, column);
    }
  }

  lemma DisjointSizes(a: set<Cell>, b: set<Cell>)
    requires a !! b
    ensures |a + b| == |a| + |b|
  {
  }

  function Area(item: Item): int {
    item.w * item.h
  }

  function AreaTo(items: seq<Item>, n: nat): int
    requires n <= |items|
  {
    if n == 0 then 0 else AreaTo(items, n - 1) + Area(items[n - 1])
  }

  /** The lowest edge of the first n items. */
  function HeightTo(items: seq<Item>, n: nat): (height: nat)
    requires n <= |items|
    ensures forall i | 0 <= i < n :: items[i].y + items[i].h <= height
    ensures height == 0 || exists i | 0 <= i < n :: items[i].y + items[i].h == height
  {
    if n == 0 then 0
    else
      var before := HeightTo(items, n - 1);
      if items[n - 1].y + items[n - 1].h > before then items[n - 1].y + items[n - 1].h else before
  }

  ghost predicate CoveredByOne(items: seq<Item>, n: nat, c: Cell)
    requires n <= |items|
  {
    exists i | 0 <= i < n :: Covers(items[i], c.x, c.y)
  }

  function CellsOf(item: Item): set<Cell> {
    if item.w < 0 || item.h < 0 then {} else Rectangle(item.x, item.y, item.w, item.h)
  }

  lemma CellsOfItem(item: Item, cols: int)
    requires InGrid(item, cols)
    ensures |CellsOf(item)| == Area(item)
    ensures forall c :: c in CellsOf(item) <==> Covers(item, c.x, c.y)
  {
    RectangleSize(item.x, item.y, item.w, item.h);
    RectangleMembers(item.x, item.y, item.w, item.h);
  }

  lemma DisjointFromEarlier(items: seq<Item>, n: nat, before: set<Cell>, own: set<Cell>)
    requires 0 < n <= |items| && Disjoint(items)
    requires forall c :: c in before <==> CoveredByOne(items, n - 1, c)
    requires forall c :: c in own <==> Covers(items[n - 1], c.x, c.y)
    ensures before !! own
    ensures forall c :: c in before + own <==> CoveredByOne(items, n, c)
  {
    forall c | c in own
      ensures c !in before
    {
      forall i | 0 <= i < n - 1
        ensures !Covers(items[i], c.x, c.y)
      {
        assert !ShareACell(items[n - 1], items[i]);
      }
    }
  }

  /** A set of exactly the cells of the first n items, as many as their area. */
  ghost predicate Tiles(items: seq<Item>, n: nat, cells: set<Cell>)
    requires n <= |items|
  {
    |cells| == AreaTo(items, n) && forall c :: c in cells <==> CoveredByOne(items, n, c)
  }

  lemma OneMoreItem(items: seq<Item>, cols: int, n: nat, before: set<Cell>) returns (cells: set<Cell>)
    requires 0 < n <= |items| && Disjoint(items) && InGrid(items[n - 1], cols) && Tiles(items, n - 1, before)
    ensures Tiles(items, n, cells)
  {
    var own := CellsOf(items[n - 1]);
    CellsOfItem(items[n - 1], cols);
    DisjointFromEarlier(items, n, before, own);
    DisjointSizes(before, own);
    cells := before + own;
  }

  lemma {:induction false} CellsOfItems(items: seq<Item>, cols: int, n: nat) returns (cells: set<Cell>)
    requires n <= |items| && Disjoint(items) && forall i | 0 <= i < |items| :: InGrid(items[i], cols)
    ensures Tiles(items, n, cells)
  {
    if n == 0 {
      cells := {};
    } else {
      var before := CellsOfItems(items, cols, n - 1);
      cells := OneMoreItem(items, cols, n, before);
    }
  }

  /** A packing bound on accepted items: their total area is at most the columns times the height
      in use. */
  lemma AreaIsBounded(items: seq<Item>, cols: int)
    requires 0 <= cols <= MAX_INT64 && ItemsPass(items, cols) && AllFit(items)
    ensures AreaTo(items, |items|) <= cols * HeightTo(items, |items|)
  {
    ItemsPassIffAcceptable(items, cols);
    var cells := CellsOfItems(items, cols, |items|);
    var height := HeightTo(items, |items|);
    assert InGrid(items[0], cols);
    var grid := Rectangle(0, 0, cols, height);
    RectangleSize(0, 0, cols, height);
    RectangleMembers(0, 0, cols, height);
    assert cells <= grid;
    SubsetIsSmaller(cells, grid);
  }

  // ----- the layouts the program starts with -----

  const DEFAULTS: Layouts := map[
    Lg := [Item(PlantCount, 0, 0, 3, 2), Item(ActiveDeviceCount, 3, 0, 3, 2), Item(ReportingDeviceCount, 6, 0, 3, 2),
           Item(AttentionDeviceCount, 9, 0, 3, 2), Item(PlantStatus, 0, 2, 12, 6)],
    Md := [Item(PlantCount, 0, 0, 4, 2), Item(ActiveDeviceCount, 4, 0, 4, 2), Item(ReportingDeviceCount, 0, 2, 4, 2),
           Item(AttentionDeviceCount, 4, 2, 4, 2), Item(PlantStatus, 0, 4, 8, 6)],
    Sm := [Item(PlantCount, 0, 0, 4, 2), Item(ActiveDeviceCount, 0, 2, 4, 2), Item(ReportingDeviceCount, 0, 4, 4, 2),
           Item(AttentionDeviceCount, 0, 6, 4, 2), Item(PlantStatus, 0, 8, 4, 8)]]

  predicate FiveRequired(items: seq<Item>) {
    && |items| == 5 && items[0].id == PlantCount && items[1].id == ActiveDeviceCount && items[2].id == ReportingDeviceCount
    && items[3].id == AttentionDeviceCount && items[4].id == PlantStatus
  }

  lemma FiveRequiredIds(items: seq<Item>)
    requires FiveRequired(items)
    ensures Ids(items) == {PlantCount, ActiveDeviceCount, ReportingDeviceCount, AttentionDeviceCount, PlantStatus}
    ensures forall id | id in REQUIRED :: id in Ids(items)
  {
    forall id | id in {PlantCount, ActiveDeviceCount, ReportingDeviceCount, AttentionDeviceCount, PlantStatus}
      ensures id in Ids(items)
    {
      assert items[0].id in Ids(items) && items[1].id in Ids(items) && items[2].id in Ids(items);
      assert items[3].id in Ids(items) && items[4].id in Ids(items);
    }
  }

  /** The ten pairs of five items. */
  predicate FiveApart(items: seq<Item>)
    requires |items| == 5
  {
    && !Collide(items[1], items[0]) && !Collide(items[2], items[0]) && !Collide(items[3], items[0]) && !Collide(items[4], items[0])
    && !Collide(items[2], items[1]) && !Collide(items[3], items[1]) && !Collide(items[4], items[1])
    && !Collide(items[3], items[2]) && !Collide(items[4], items[2]) && !Collide(items[4], items[3])
  }

  predicate FiveIn(items: seq<Item>, cols: int)
    requires |items| == 5
  {
    ItemPasses(items[0], cols) && ItemPasses(items[1], cols) && ItemPasses(items[2], cols)
    && ItemPasses(items[3], cols) && ItemPasses(items[4], cols)
  }

  lemma FivePass(items: seq<Item>, cols: int)
    requires FiveRequired(items) && FiveIn(items, cols) && FiveApart(items)
    ensures ItemsPass(items, cols)
    ensures Ids(items) == {PlantCount, ActiveDeviceCount, ReportingDeviceCount, AttentionDeviceCount, PlantStatus}
  {
    FiveRequiredIds(items);
    forall i | 0 <= i < |items|
      ensures ItemPassesAt(items, cols, i)
    {
      assert i == 0 || i == 1 || i == 2 || i == 3 || i == 4;
    }
  }

  lemma DefaultsPass()
    ensures Passes(DEFAULTS)
  {
    FivePass(DEFAULTS[Lg], 12);
    FivePass(DEFAULTS[Md], 8);
    FivePass(DEFAULTS[Sm], 4);
    ThreeKeys(DEFAULTS);
  }

  lemma DefaultsAreAcceptable()
    ensures Acceptable(DEFAULTS)
  {
    DefaultsPass();
    AcceptanceIsExact(DEFAULTS);
    forall b | b in DEFAULTS
      ensures AllFit(DEFAULTS[b])
    {
      assert b == Lg || b == Md || b == Sm;
    }
  }

  lemma WideItem(items: seq<Item>)
    requires FiveRequired(items) && items[0].w == MAX_INT64 && items[0].h >= 1
    requires forall i | 1 <= i < 5 :: items[i].w >= 0 && items[i].h >= 0
    ensures AreaTo(items, 5) >= MAX_INT64
  {
    assert AreaTo(items, 1) == Area(items[0]) >= MAX_INT64;
    assert Area(items[1]) >= 0 && Area(items[2]) >= 0 && Area(items[3]) >= 0 && Area(items[4]) >= 0;
    assert AreaTo(items, 3) == AreaTo(items, 1) + Area(items[1]) + Area(items[2]);
  }

  /** The default items of the widest layout, the first of them far to the right and as wide as can be. */
  const WIDE: seq<Item> := [
    Item(PlantCount, MAX_INT64, 0, MAX_INT64, 1), Item(ActiveDeviceCount, 3, 0, 3, 2), Item(ReportingDeviceCount, 6, 0, 3, 2),
    Item(AttentionDeviceCount, 9, 0, 3, 2), Item(PlantStatus, 0, 2, 12, 6)]

  lemma WidePasses()
    ensures ItemsPass(WIDE, 12)
    ensures Ids(WIDE) == {PlantCount, ActiveDeviceCount, ReportingDeviceCount, AttentionDeviceCount, PlantStatus}
  {
    FivePass(WIDE, 12);
  }

  lemma WideBreaksBound()
    ensures !InGrid(WIDE[0], 12) && AreaTo(WIDE, 5) > 12 * HeightTo(WIDE, 5)
  {
    WideItem(WIDE);
    assert forall i | 0 <= i < 5 :: WIDE[i].y + WIDE[i].h <= 1100;
    assert HeightTo(WIDE, 5) <= 1100;
  }

  /** The one gap: an item far enough to the right wraps past the check, and is accepted although it
      lies outside the grid; the packing bound fails with it. */
  lemma OverflowIsAccepted() returns (layouts: Layouts)
    ensures Passes(layouts) && !Acceptable(layouts)
    ensures AreaTo(layouts[Lg], |layouts[Lg]|) > 12 * HeightTo(layouts[Lg], |layouts[Lg]|)
  {
    layouts := DEFAULTS[Lg := WIDE];
    DefaultsPass();
    WidePasses();
    WideBreaksBound();
    ThreeKeys(layouts);
    FivePass(DEFAULTS[Lg], 12);
  }
}
