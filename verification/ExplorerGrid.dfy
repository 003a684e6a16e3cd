/**
 * The adaptive clustering grid of the Explorer map: the smallest power-of-two
 * cell scale at which a searched area touches at most `limit` cells, and the SQL
 * bucketing of points on the same grid. Degrees are mathematical reals.
 */
module ExplorerGrid {
  import opened Common

  const AGGREGATION_LIMIT: nat := 100_000
  const CLUSTER_THROUGH_ZOOM: nat := 14

  // ----- Query normalisation -----

  datatype ViewportInput = ViewportInput(
    south: Option<real>, west: Option<real>, north: Option<real>, east: Option<real>)

  datatype Viewport = Viewport(
    south: real, west: real, north: real, east: real, crossesAntimeridian: bool)

  datatype QueryError =
    | IncompleteViewport
    | OutsideBounds
    | SouthNotBelowNorth
    | ZeroWidth
    | SpanTooWide
    | IncompleteRadius
    | CenterOutside
    | BadRadius
    | NotOneSpatialQuery
    | BadZoom
    | BadLimit
    | BadWindowOrCategories

  datatype RadiusInput = RadiusInput(latitude: Option<real>, longitude: Option<real>, meters: Option<real>)

  datatype Radius = Radius(latitude: real, longitude: real, meters: int)

  datatype Spatial = InView(viewport: Viewport) | Around(radius: Radius)

  datatype Query = Query(spatial: Spatial, zoom: nat, limit: nat)

  function LongitudeSpan(west: real, east: real): real {
    if west < east then east - west else 180.0 - west + (east + 180.0)
  }

  function NormalizeViewport(input: ViewportInput): Result<Option<Viewport>, QueryError> {
    if input.south.None? && input.west.None? && input.north.None? && input.east.None? then Ok(None)
    else if input.south.None? || input.west.None? || input.north.None? || input.east.None? then
      Err(IncompleteViewport)
    else
      var south, north := input.south.value, input.north.value;
      var inputWest, inputEast := input.west.value, input.east.value;
      if south < -90.0 || north > 90.0 || inputWest < -180.0 || inputWest > 180.0
         || inputEast < -180.0 || inputEast > 180.0 then Err(OutsideBounds)
      else if south >= north then Err(SouthNotBelowNorth)
      else
        var west := if inputWest == 180.0 then -180.0 else inputWest;
        var east := if inputEast == -180.0 then 180.0 else inputEast;
        if west == east then Err(ZeroWidth)
        else if north - south > 60.0 || LongitudeSpan(west, east) > 120.0 then Err(SpanTooWide)
        else Ok(Some(Viewport(south, west, north, east, west > east)))
  }

  function NormalizeRadius(input: RadiusInput): Result<Option<Radius>, QueryError> {
    if input.latitude.None? && input.longitude.None? && input.meters.None? then Ok(None)
    else if input.latitude.None? || input.longitude.None? || input.meters.None? then Err(IncompleteRadius)
    else
      var latitude, longitude, meters := input.latitude.value, input.longitude.value, input.meters.value;
      if latitude < -90.0 || latitude > 90.0 || longitude < -180.0 || longitude > 180.0 then Err(CenterOutside)
      else if meters.Floor as real != meters || meters < 100.0 || meters > 500_000.0 then Err(BadRadius)
      else Ok(Some(Radius(latitude, longitude, meters.Floor)))
  }

  /** Query normalisation; `restValid` tells whether the time window and the categories pass their checks. */
  function NormalizeQuery(view: ViewportInput, around: RadiusInput, zoom: int, limit: Option<int>, restValid: bool)
    : Result<Query, QueryError>
  {
    match (NormalizeViewport(view), NormalizeRadius(around))
    case (Err(e), _) => Err(e)
    case (_, Err(e)) => Err(e)
    case (Ok(viewport), Ok(radius)) =>
      if viewport.None? <==> radius.None? then Err(NotOneSpatialQuery)
      else if zoom < 1 || zoom > 22 then Err(BadZoom)
      else
        var effective := if limit.Some? then limit.value else 100;
        if effective < 1 || effective > 200 then Err(BadLimit)
        else if !restValid then Err(BadWindowOrCategories)
        else Ok(Query(if viewport.Some? then InView(viewport.value) else Around(radius.value), zoom, effective))
  }

  // ----- Extents and cells -----

  datatype Point = Point(latitude: real, longitude: real)

  /** A latitude band crossed with one or more longitude ranges, all ends included. */
  datatype Extent = Extent(south: real, north: real, longitudeRanges: seq<(real, real)>)
  {
    predicate Valid() {
      && south <= north
      && |longitudeRanges| >= 1
      && forall r :: r in longitudeRanges ==> r.0 <= r.1
    }

    predicate Contains(p: Point) {
      && south <= p.latitude <= north
      && exists r :: r in longitudeRanges && r.0 <= p.longitude <= r.1
    }
  }

  /**
   * The extent of a radius search, given how many degrees the radius spans north
   * to south and east to west; no longitude span means that a pole is inside.
   */
  function RadiusExtent(c: Radius, latitudeDelta: real, longitudeDelta: Option<real>): Extent {
    var south := if c.latitude - latitudeDelta < -90.0 then -90.0 else c.latitude - latitudeDelta;
    var north := if c.latitude + latitudeDelta > 90.0 then 90.0 else c.latitude + latitudeDelta;
    match longitudeDelta
    case None => Extent(south, north, [(-180.0, 180.0)])
    case Some(delta) =>
      var west, east := c.longitude - delta, c.longitude + delta;
      Extent(south, north,
             if west < -180.0 then [(west + 360.0, 180.0), (-180.0, east)]
             else if east > 180.0 then [(west, 180.0), (-180.0, east - 360.0)]
             else [(west, east)])
  }

  function ClusterExtent(v: Viewport): Extent {
    Extent(v.south, v.north,
           if v.crossesAntimeridian then [(v.west, 180.0), (-180.0, v.east)] else [(v.west, v.east)])
  }

  /** The planar rectangle a discoverable event has to lie in. */
  predicate InViewport(v: Viewport, p: Point) {
    && v.south <= p.latitude <= v.north
    && if v.crossesAntimeridian
       then v.west <= p.longitude <= 180.0 || -180.0 <= p.longitude <= v.east
       else v.west <= p.longitude <= v.east
  }

  function Ceil(x: real): int { -((-x).Floor) }

  function CellCount(span: real, cell: real): int
    requires cell > 0.0
  {
    Max(1, Ceil(span / cell))
  }

  function CellIndex(coordinate: real, origin: real, span: real, cell: real): int
    requires cell > 0.0
  {
    Min(CellCount(span, cell) - 1, Max(0, ((coordinate - origin) / cell).Floor))
  }

  function IntervalCellRange(start: real, end: real, origin: real, span: real, cell: real): (int, int)
    requires cell > 0.0
  {
    (CellIndex(start, origin, span, cell), CellIndex(end, origin, span, cell))
  }

  function LatitudeRange(e: Extent, cell: real): (int, int)
    requires cell > 0.0
  {
    IntervalCellRange(e.south, e.north, -90.0, 180.0, cell)
  }

  function LongitudeRange(r: (real, real), cell: real): (int, int)
    requires cell > 0.0
  {
    IntervalCellRange(r.0, r.1, -180.0, 360.0, cell)
  }

  function LongitudeRanges(e: Extent, cell: real): (ranges: seq<(int, int)>)
    requires cell > 0.0
    ensures |ranges| == |e.longitudeRanges|
  {
    seq(|e.longitudeRanges|, i requires 0 <= i < |e.longitudeRanges| => LongitudeRange(e.longitudeRanges[i], cell))
  }

  /** Every index some range covers. */
  function Covered(ranges: seq<(int, int)>): set<int> {
    if ranges == [] then {} else Interval(ranges[0].0, ranges[0].1) + Covered(ranges[1..])
  }

  function Product(xs: set<int>, ys: set<int>): set<(int, int)> {
    set x, y | x in xs && y in ys :: (x, y)
  }

  /** The cells of the grid that the extent meets: what the sweep has to count. */
  function CellsTouched(e: Extent, cell: real): set<(int, int)>
    requires cell > 0.0
  {
    var lat := LatitudeRange(e, cell);
    Product(Covered(LongitudeRanges(e, cell)), Interval(lat.0, lat.1))
  }

  // ----- SQL buckets -----

  function BucketX(longitude: real, cell: real): int
    requires cell > 0.0
  {
    Min(Ceil(360.0 / cell) - 1, Max(0, ((longitude + 180.0) / cell).Floor))
  }

  function BucketY(latitude: real, cell: real): int
    requires cell > 0.0
  {
    Min(Max(0, Ceil(180.0 / cell) - 1), Max(0, ((latitude + 90.0) / cell).Floor))
  }

  function Bucket(p: Point, cell: real): (int, int)
    requires cell > 0.0
  {
    (BucketX(p.longitude, cell), BucketY(p.latitude, cell))
  }

  /** GROUP BY bucket, with the number of events of each group. */
  function Clusters(points: seq<Point>, cell: real): map<(int, int), nat>
    requires cell > 0.0
  {
    if points == [] then map[]
    else
      var rest := Clusters(points[1..], cell);
      var b := Bucket(points[0], cell);
      rest[b := 1 + if b in rest then rest[b] else 0]
  }

  // ----- Set facts -----

  lemma {:induction false} InCovered(ranges: seq<(int, int)>, i: int)
    ensures i in Covered(ranges) <==> exists r :: r in ranges && r.0 <= i <= r.1
  {
    if ranges != [] {
      InCovered(ranges[1..], i);
      assert forall r :: r in ranges <==> r == ranges[0] || r in ranges[1..];
    }
  }

  lemma {:induction false} ProductSize(xs: set<int>, ys: set<int>)
    ensures |Product(xs, ys)| == |xs| * |ys|
  {
    if xs == {} {
      assert Product(xs, ys) == {};
    } else {
      var x := Pick(xs);
      var n := |xs - {x}|;
      ProductSize(xs - {x}, ys);
      assert |xs| == n + 1;
      assert |Product(xs, ys)| == |Product(xs - {x}, ys)| + |ys| by {
        ProductSplits(xs, x, ys);
        RowSize(x, ys);
      }
      OneRowMore(n, |ys|);
    }
  }

  lemma OneRowMore(n: nat, m: nat)
    ensures (n + 1) * m == n * m + m
  {
  }

  lemma {:induction false} ProductSplits(xs: set<int>, x: int, ys: set<int>)
    requires x in xs
    ensures var row := set y | y in ys :: (x, y);
            Product(xs, ys) == Product(xs - {x}, ys) + row && Product(xs - {x}, ys) !! row
  {
    var row := set y | y in ys :: (x, y);
    forall c ensures c in Product(xs, ys) <==> c in Product(xs - {x}, ys) + row {
      InProduct(xs, ys, c);
      InProduct(xs - {x}, ys, c);
    }
    forall c | c in row ensures c !in Product(xs - {x}, ys) {
      InProduct(xs - {x}, ys, c);
    }
  }

  lemma {:induction false} RowSize(x: int, ys: set<int>)
    ensures |set y | y in ys :: (x, y)| == |ys|
  {
    var row := set y | y in ys :: (x, y);
    ImageSize(ys, row, y => (x, y));
    ImageSize(row, ys, (p: (int, int)) => p.1) by {
      forall y | y in ys ensures exists p :: p in row && p.1 == y {
        assert (x, y) in row;
      }
    }
  }

  // ----- The sweep -----

  predicate SortedByStart(ranges: seq<(int, int)>) {
    forall i, j :: 0 <= i < j < |ranges| ==> ranges[i].0 <= ranges[j].0
  }

  function InsertByStart(r: (int, int), ranges: seq<(int, int)>): (out: seq<(int, int)>)
    requires SortedByStart(ranges)
    ensures SortedByStart(out) && |out| == |ranges| + 1
    ensures forall x :: x in out <==> x == r || x in ranges
  {
    if ranges == [] || r.0 < ranges[0].0 then [r] + ranges
    else
      var rest := InsertByStart(r, ranges[1..]);
      assert forall i :: 0 <= i < |rest| ==> rest[i] in rest;
      [ranges[0]] + rest
  }

  function SortByStart(ranges: seq<(int, int)>): (out: seq<(int, int)>)
    ensures SortedByStart(out) && |out| == |ranges|
    ensures forall x :: x in out <==> x in ranges
  {
    if ranges == [] then [] else InsertByStart(ranges[0], SortByStart(ranges[1..]))
  }

  lemma SameCover(a: seq<(int, int)>, b: seq<(int, int)>)
    requires forall x :: x in a <==> x in b
    ensures Covered(a) == Covered(b)
  {
    forall i ensures i in Covered(a) <==> i in Covered(b) {
      InCovered(a, i);
      InCovered(b, i);
    }
  }

  lemma {:induction false} CoveredSnoc(ranges: seq<(int, int)>, r: (int, int))
    ensures Covered(ranges + [r]) == Covered(ranges) + Interval(r.0, r.1)
  {
    forall i ensures i in Covered(ranges + [r]) <==> i in Covered(ranges) + Interval(r.0, r.1) {
      InCovered(ranges + [r], i);
      InCovered(ranges, i);
    }
  }

  lemma IntervalMerge(a: int, b: int, c: int, d: int)
    requires a <= b && a <= c <= d && c <= b + 1
    ensures Interval(a, b) + Interval(c, d) == Interval(a, Max(b, d))
  {
  }

  lemma CloseRange(closed: set<int>, a: int, b: int, next: int)
    requires a <= b < next
    requires forall i :: i in closed ==> i < a
    ensures |closed + Interval(a, b)| == |closed| + (b - a + 1)
    ensures forall i :: i in closed + Interval(a, b) ==> i < next
  {
    IntervalSize(a, b);
    assert closed !! Interval(a, b);
  }

  /** Part-way through the sweep: `closed` is finished and lies below the open range `a..b`. */
  ghost predicate Swept(prefix: seq<(int, int)>, closed: set<int>, cells: int, a: int, b: int) {
    && a <= b
    && cells == |closed|
    && (forall i :: i in closed ==> i < a)
    && Covered(prefix) == closed + Interval(a, b)
  }

  lemma SweepStarts(ranges: seq<(int, int)>)
    requires |ranges| >= 1 && Ordered(ranges)
    ensures Swept(ranges[..1], {}, 0, ranges[0].0, ranges[0].1)
  {
    assert ranges[..1] == [] + [ranges[0]];
    CoveredSnoc([], ranges[0]);
    forall i ensures i !in Covered([]) { InCovered([], i); }
  }

  lemma SweepMerges(ranges: seq<(int, int)>, k: nat, closed: set<int>, cells: int, a: int, b: int)
    requires k < |ranges| && Swept(ranges[..k], closed, cells, a, b)
    requires a <= ranges[k].0 <= ranges[k].1 && ranges[k].0 <= b + 1
    ensures Swept(ranges[..k + 1], closed, cells, a, Max(b, ranges[k].1))
  {
    var r := ranges[k];
    assert ranges[..k + 1] == ranges[..k] + [r];
    CoveredSnoc(ranges[..k], r);
    IntervalMerge(a, b, r.0, r.1);
    assert closed + Interval(a, b) + Interval(r.0, r.1) == closed + (Interval(a, b) + Interval(r.0, r.1));
  }

  lemma SweepCloses(ranges: seq<(int, int)>, k: nat, closed: set<int>, cells: int, a: int, b: int)
    requires k < |ranges| && Swept(ranges[..k], closed, cells, a, b)
    requires b + 1 < ranges[k].0 <= ranges[k].1
    ensures Swept(ranges[..k + 1], closed + Interval(a, b), cells + (b - a + 1), ranges[k].0, ranges[k].1)
  {
    var r := ranges[k];
    assert ranges[..k + 1] == ranges[..k] + [r];
    CoveredSnoc(ranges[..k], r);
    CloseRange(closed, a, b, r.0);
  }

  lemma SweptSize(prefix: seq<(int, int)>, closed: set<int>, cells: int, a: int, b: int)
    requires Swept(prefix, closed, cells, a, b)
    ensures |Covered(prefix)| == cells + (b - a + 1)
  {
    CloseRange(closed, a, b, b + 1);
  }

  predicate Ordered(ranges: seq<(int, int)>) {
    forall i :: 0 <= i < |ranges| ==> ranges[i].0 <= ranges[i].1
  }

  lemma SortKeepsCover(ranges: seq<(int, int)>)
    requires Ordered(ranges)
    ensures Ordered(SortByStart(ranges)) && Covered(SortByStart(ranges)) == Covered(ranges)
  {
    var sorted := SortByStart(ranges);
    SameCover(sorted, ranges);
    forall i | 0 <= i < |sorted| ensures sorted[i].0 <= sorted[i].1 {
      assert sorted[i] in ranges;
    }
  }

  /** Sort-and-merge: the number of indices that at least one range covers. */
  method CountCovered(unsorted: seq<(int, int)>) returns (count: nat)
    requires |unsorted| >= 1 && Ordered(unsorted)
    ensures count == |Covered(unsorted)|
  {
    var ranges := SortByStart(unsorted);
    SortKeepsCover(unsorted);
    count := SweepSorted(ranges);
  }

  method SweepSorted(ranges: seq<(int, int)>) returns (count: nat)
    requires |ranges| >= 1 && Ordered(ranges) && SortedByStart(ranges)
    ensures count == |Covered(ranges)|
  {
    var cells := 0;
    var rangeStart, rangeEnd := ranges[0].0, ranges[0].1;
    ghost var closed: set<int> := {};
    SweepStarts(ranges);
    var k := 1;
    while k < |ranges|
      invariant 1 <= k <= |ranges|
      invariant rangeStart <= ranges[k - 1].0
      invariant Swept(ranges[..k], closed, cells, rangeStart, rangeEnd)
    {
      var start, end := ranges[k].0, ranges[k].1;
      if start <= rangeEnd + 1 {
        SweepMerges(ranges, k, closed, cells, rangeStart, rangeEnd);
        rangeEnd := Max(rangeEnd, end);
      } else {
        SweepCloses(ranges, k, closed, cells, rangeStart, rangeEnd);
        cells := cells + (rangeEnd - rangeStart + 1);
        closed := closed + Interval(rangeStart, rangeEnd);
        rangeStart := start;
        rangeEnd := end;
      }
      k := k + 1;
    }
    assert ranges[..|ranges|] == ranges;
    SweptSize(ranges, closed, cells, rangeStart, rangeEnd);
    count := cells + (rangeEnd - rangeStart + 1);
  }

  lemma RangesAreOrdered(e: Extent, cell: real)
    requires e.Valid() && cell > 0.0
    ensures Ordered(LongitudeRanges(e, cell)) && LatitudeRange(e, cell).0 <= LatitudeRange(e, cell).1
  {
    var ranges := LongitudeRanges(e, cell);
    IndexMonotone(e.south, e.north, -90.0, 180.0, cell);
    forall i | 0 <= i < |ranges| ensures ranges[i].0 <= ranges[i].1 {
      IndexMonotone(e.longitudeRanges[i].0, e.longitudeRanges[i].1, -180.0, 360.0, cell);
    }
  }

  lemma TouchedSize(e: Extent, cell: real)
    requires e.Valid() && cell > 0.0
    ensures var rows := LatitudeRange(e, cell);
            |CellsTouched(e, cell)| == (rows.1 - rows.0 + 1) * |Covered(LongitudeRanges(e, cell))|
  {
    RangesAreOrdered(e, cell);
    GridSize(Covered(LongitudeRanges(e, cell)), LatitudeRange(e, cell).0, LatitudeRange(e, cell).1);
  }

  lemma GridSize(columns: set<int>, low: int, high: int)
    requires low <= high
    ensures |Product(columns, Interval(low, high))| == (high - low + 1) * |columns|
  {
    ProductSize(columns, Interval(low, high));
    IntervalSize(low, high);
  }

  method ExtentCellCount(e: Extent, cell: real) returns (count: nat)
    requires e.Valid() && cell > 0.0
    ensures count == |CellsTouched(e, cell)|
  {
    var latitudeCells := LatitudeRange(e, cell);
    var ranges := LongitudeRanges(e, cell);
    RangesAreOrdered(e, cell);
    var longitudeCells := CountCovered(ranges);
    TouchedSize(e, cell);
    count := (latitudeCells.1 - latitudeCells.0 + 1) * longitudeCells;
  }

  // ----- Arithmetic of one axis -----

  lemma ScaleLess(a: real, b: real, factor: real)
    requires a < b && factor > 0.0
    ensures a * factor < b * factor
  {
  }

  lemma QuotientMonotone(a: real, b: real, cell: real)
    requires a <= b && cell > 0.0
    ensures a / cell <= b / cell
  {
    var qa, qb := a / cell, b / cell;
    assert qa * cell == a && qb * cell == b;
    if qa > qb { ScaleLess(qb, qa, cell); }
  }

  lemma IndexMonotone(a: real, b: real, origin: real, span: real, cell: real)
    requires a <= b && cell > 0.0
    ensures CellIndex(a, origin, span, cell) <= CellIndex(b, origin, span, cell)
  {
    QuotientMonotone(a - origin, b - origin, cell);
  }

  lemma HalfQuotient(a: real, cell: real)
    requires cell > 0.0
    ensures a / (2.0 * cell) == (a / cell) / 2.0
  {
    var q := a / cell;
    assert q * cell == a;
    assert (q / 2.0) * (2.0 * cell) == a;
  }

  lemma FloorIs(x: real, n: int)
    requires n as real <= x < (n + 1) as real
    ensures x.Floor == n
  {
  }

  lemma FloorHalf(x: real)
    ensures (x / 2.0).Floor == x.Floor / 2
  {
    var n := x.Floor;
    var m := n / 2;
    assert n == 2 * m || n == 2 * m + 1;
    assert m as real <= x / 2.0 < m as real + 1.0;
  }

  /** Doubling the cell is an exact coarsening of one axis, clamping included. */
  lemma IndexHalves(coordinate: real, origin: real, span: real, cell: real)
    requires span > 0.0 && cell > 0.0
    ensures CellIndex(coordinate, origin, span, 2.0 * cell) == CellIndex(coordinate, origin, span, cell) / 2
  {
    var f := ((coordinate - origin) / cell).Floor;
    var g := (-(span / cell)).Floor;
    HalfQuotient(coordinate - origin, cell);
    FloorHalf((coordinate - origin) / cell);
    HalfQuotient(span, cell);
    FloorHalf(-(span / cell));
    assert -(span / (2.0 * cell)) == (-(span / cell)) / 2.0;
    assert Ceil(span / (2.0 * cell)) == -(g / 2);
    assert span / cell > 0.0 by { assert (span / cell) * cell == span; }
    assert g <= -1;
  }

  lemma FloorAtLeast(x: real, cell: real, n: int)
    requires cell > 0.0
    ensures n <= (x / cell).Floor <==> n as real * cell <= x
  {
    var q := x / cell;
    assert q * cell == x;
    if q < n as real { ScaleLess(q, n as real, cell); } else { ScaleAtMost(n as real, q, cell); }
  }

  lemma ScaleAtMost(a: real, b: real, factor: real)
    requires a <= b && factor > 0.0
    ensures a * factor <= b * factor
  {
    if a < b { ScaleLess(a, b, factor); }
  }

  /** The cells of an axis cover it: the count times the width reaches its end. */
  lemma CellsReachEnd(span: real, cell: real)
    requires span > 0.0 && cell > 0.0
    ensures span <= CellCount(span, cell) as real * cell
  {
    var q := span / cell;
    assert q * cell == span;
    ScaleAtMost(q, CellCount(span, cell) as real, cell);
  }

  /** The index of a coordinate on the axis is that of the cell it lies in; the end of the axis belongs to the last cell. */
  lemma CellHoldsCoordinate(coordinate: real, origin: real, span: real, cell: real)
    requires span > 0.0 && cell > 0.0 && origin <= coordinate <= origin + span
    ensures var i := CellIndex(coordinate, origin, span, cell);
            && 0 <= i < CellCount(span, cell)
            && origin + i as real * cell <= coordinate
            && coordinate <= origin + (i as real + 1.0) * cell
            && (coordinate == origin + (i as real + 1.0) * cell ==> i == CellCount(span, cell) - 1)
  {
    var i := CellIndex(coordinate, origin, span, cell);
    CellsReachEnd(span, cell);
    FloorAtLeast(coordinate - origin, cell, 0);
    FloorAtLeast(coordinate - origin, cell, i);
    FloorAtLeast(coordinate - origin, cell, i + 1);
    assert (i + 1) as real == i as real + 1.0;
  }

  /** Every index between those of two coordinates is that of a coordinate between them. */
  lemma IndexBetween(start: real, end: real, origin: real, span: real, cell: real, i: int) returns (x: real)
    requires start <= end && cell > 0.0
    requires CellIndex(start, origin, span, cell) <= i <= CellIndex(end, origin, span, cell)
    ensures start <= x <= end && CellIndex(x, origin, span, cell) == i
  {
    if i == CellIndex(start, origin, span, cell) { return start; }
    x := origin + i as real * cell;
    CornerIndex(x - origin, cell, i);
    FloorAtLeast(start - origin, cell, i);
    FloorAtLeast(end - origin, cell, i);
  }

  lemma CornerIndex(x: real, cell: real, i: int)
    requires cell > 0.0 && x == i as real * cell
    ensures (x / cell).Floor == i
  {
    ScaleLess(i as real, (i + 1) as real, cell);
    FloorAtLeast(x, cell, i);
    FloorAtLeast(x, cell, i + 1);
  }

  /** A cell at least as wide as the axis leaves a single index. */
  lemma WideCellIsOne(coordinate: real, origin: real, span: real, cell: real)
    requires 0.0 < span <= cell
    ensures CellIndex(coordinate, origin, span, cell) == 0
  {
    var q := span / cell;
    assert q * cell == span;
    if q > 1.0 { ScaleLess(1.0, q, cell); }
    if q < 0.0 { ScaleLess(q, 0.0, cell); }
    assert 0.0 < q <= 1.0;
    FloorIs(-q, -1);
  }

  // ----- Whole-grid facts -----

  function Halved(c: (int, int)): (int, int) { (c.0 / 2, c.1 / 2) }

  lemma IntervalHalves(a: int, b: int, j: int)
    requires a <= b
    ensures j in Interval(a / 2, b / 2) <==> exists i :: i in Interval(a, b) && i / 2 == j
  {
    if j in Interval(a / 2, b / 2) {
      var i := Max(a, 2 * j);
      assert i in Interval(a, b) && i / 2 == j;
    }
  }

  lemma {:induction false} CoveredHalves(e: Extent, cell: real, j: int)
    requires e.Valid() && cell > 0.0
    ensures j in Covered(LongitudeRanges(e, 2.0 * cell))
        <==> exists i :: i in Covered(LongitudeRanges(e, cell)) && i / 2 == j
  {
    var fine, coarse := LongitudeRanges(e, cell), LongitudeRanges(e, 2.0 * cell);
    forall k | 0 <= k < |fine|
      ensures fine[k].0 <= fine[k].1 && coarse[k] == (fine[k].0 / 2, fine[k].1 / 2)
    {
      var r := e.longitudeRanges[k];
      IndexMonotone(r.0, r.1, -180.0, 360.0, cell);
      IndexHalves(r.0, -180.0, 360.0, cell);
      IndexHalves(r.1, -180.0, 360.0, cell);
    }
    HalvedRangesCover(fine, coarse, j);
  }

  lemma {:induction false} HalvedRangesCover(fine: seq<(int, int)>, coarse: seq<(int, int)>, j: int)
    requires |fine| == |coarse|
    requires forall k :: 0 <= k < |fine| ==> fine[k].0 <= fine[k].1 && coarse[k] == (fine[k].0 / 2, fine[k].1 / 2)
    ensures j in Covered(coarse) <==> exists i :: i in Covered(fine) && i / 2 == j
  {
    InCovered(coarse, j);
    if j in Covered(coarse) {
      var r :| r in coarse && r.0 <= j <= r.1;
      var k :| 0 <= k < |coarse| && coarse[k] == r;
      IntervalHalves(fine[k].0, fine[k].1, j);
      var i :| i in Interval(fine[k].0, fine[k].1) && i / 2 == j;
      InCovered(fine, i);
      assert fine[k] in fine;
    }
    if i :| i in Covered(fine) && i / 2 == j {
      InCovered(fine, i);
      var r :| r in fine && r.0 <= i <= r.1;
      var k :| 0 <= k < |fine| && fine[k] == r;
      assert coarse[k] in coarse;
    }
  }

  lemma InTouched(e: Extent, cell: real, c: (int, int))
    requires cell > 0.0
    ensures c in CellsTouched(e, cell) <==>
      && c.0 in Covered(LongitudeRanges(e, cell))
      && c.1 in Interval(LatitudeRange(e, cell).0, LatitudeRange(e, cell).1)
  {
    var lat := LatitudeRange(e, cell);
    InProduct(Covered(LongitudeRanges(e, cell)), Interval(lat.0, lat.1), c);
  }

  lemma InProduct(xs: set<int>, ys: set<int>, c: (int, int))
    ensures c in Product(xs, ys) <==> c.0 in xs && c.1 in ys
  {
    var x, y := c.0, c.1;
    if x in xs && y in ys {
      assert (x, y) in Product(xs, ys);
    }
  }

  lemma TouchedHalves(e: Extent, cell: real, d: (int, int))
    requires e.Valid() && cell > 0.0
    ensures d in CellsTouched(e, 2.0 * cell) <==> exists c :: c in CellsTouched(e, cell) && Halved(c) == d
  {
    var lat := LatitudeRange(e, cell);
    IndexMonotone(e.south, e.north, -90.0, 180.0, cell);
    IndexHalves(e.south, -90.0, 180.0, cell);
    IndexHalves(e.north, -90.0, 180.0, cell);
    CoveredHalves(e, cell, d.0);
    IntervalHalves(lat.0, lat.1, d.1);
    InTouched(e, 2.0 * cell, d);
    if d in CellsTouched(e, 2.0 * cell) {
      var i :| i in Covered(LongitudeRanges(e, cell)) && i / 2 == d.0;
      var j :| j in Interval(lat.0, lat.1) && j / 2 == d.1;
      InTouched(e, cell, (i, j));
      assert Halved((i, j)) == d;
    }
    if c :| c in CellsTouched(e, cell) && Halved(c) == d {
      InTouched(e, cell, c);
    }
  }

  /** The cells met at twice the cell size are exactly the halved cells. */
  lemma {:induction false} DoublingCoarsens(e: Extent, cell: real)
    requires e.Valid() && cell > 0.0
    ensures CellsTouched(e, 2.0 * cell) == set c | c in CellsTouched(e, cell) :: Halved(c)
  {
    var halves := set c | c in CellsTouched(e, cell) :: Halved(c);
    forall d | d in CellsTouched(e, 2.0 * cell) ensures d in halves {
      TouchedHalves(e, cell, d);
    }
    forall d | d in halves ensures d in CellsTouched(e, 2.0 * cell) {
      TouchedHalves(e, cell, d);
    }
  }

  lemma DoublingNeverAddsCells(e: Extent, cell: real)
    requires e.Valid() && cell > 0.0
    ensures |CellsTouched(e, 2.0 * cell)| <= |CellsTouched(e, cell)|
  {
    DoublingCoarsens(e, cell);
    ImageSize(CellsTouched(e, cell), CellsTouched(e, 2.0 * cell), Halved);
  }

  lemma {:induction false} WorldCellIsOne(e: Extent, cell: real)
    requires e.Valid() && cell >= 360.0
    ensures |CellsTouched(e, cell)| == 1
  {
    WideCellIsOne(e.south, -90.0, 180.0, cell);
    WideCellIsOne(e.north, -90.0, 180.0, cell);
    var ranges := LongitudeRanges(e, cell);
    forall i ensures i in Covered(ranges) <==> i == 0 {
      InCovered(ranges, i);
      forall k | 0 <= k < |ranges| ensures ranges[k] == (0, 0) {
        WideCellIsOne(e.longitudeRanges[k].0, -180.0, 360.0, cell);
        WideCellIsOne(e.longitudeRanges[k].1, -180.0, 360.0, cell);
      }
      assert ranges[0] in ranges;
    }
    assert CellsTouched(e, cell) == {(0, 0)};
  }

  // ----- The scale -----

  function CellDegrees(zoom: nat, scale: nat): real {
    90.0 / (Pow2(zoom) as real) * (scale as real)
  }

  lemma CellDegreesFacts(zoom: nat, scale: nat)
    requires scale >= 1
    ensures CellDegrees(zoom, scale) > 0.0
    ensures CellDegrees(zoom, 2 * scale) == 2.0 * CellDegrees(zoom, scale)
  {
    var p := Pow2(zoom) as real;
    var base := 90.0 / p;
    assert base * p == 90.0;
    if base < 0.0 { ScaleLess(base, 0.0, p); }
    var s := scale as real;
    assert base * s >= base by { assert base * (s - 1.0) >= 0.0; }
    assert (2 * scale) as real == 2.0 * s;
    assert base * (2.0 * s) == 2.0 * (base * s);
  }

  /** A world of 360 degrees is four cells wide at zoom 0, and each zoom level halves the cell. */
  lemma CellSize(zoom: nat, scale: nat)
    ensures CellDegrees(0, 1) == 90.0 && CellDegrees(zoom + 1, 1) * 2.0 == CellDegrees(zoom, 1)
    ensures CellDegrees(zoom, scale) == scale as real * CellDegrees(zoom, 1)
  {
    var p, q := Pow2(zoom) as real, Pow2(zoom + 1) as real;
    assert q == 2.0 * p;
    var base, half := 90.0 / p, 90.0 / q;
    assert base * p == 90.0 && half * q == 90.0;
    assert half * (2.0 * p) == (2.0 * half) * p;
    if 2.0 * half < base { ScaleLess(2.0 * half, base, p); }
    if 2.0 * half > base { ScaleLess(base, 2.0 * half, p); }
  }

  lemma {:induction false} ScaleBound(zoom: nat)
    ensures CellDegrees(zoom, Pow2(zoom + 2)) == 360.0
  {
    var p := Pow2(zoom) as real;
    assert Pow2(zoom + 2) == 4 * Pow2(zoom) by { assert Pow2(zoom + 2) == 2 * Pow2(zoom + 1); }
    assert Pow2(zoom + 2) as real == 4.0 * p;
    var base := 90.0 / p;
    assert base * p == 90.0;
    assert base * (4.0 * p) == 4.0 * (base * p);
  }

  predicate Fits(e: Extent, zoom: nat, k: nat, limit: nat) {
    var cell := CellDegrees(zoom, Pow2(k));
    cell > 0.0 && |CellsTouched(e, cell)| <= limit
  }

  /** Once a power of two fits, every larger power fits as well. */
  lemma {:induction false} FitsUpward(e: Extent, zoom: nat, k: nat, j: nat, limit: nat)
    requires e.Valid() && Fits(e, zoom, k, limit) && k <= j
    ensures Fits(e, zoom, j, limit)
    decreases j
  {
    if k < j {
      FitsUpward(e, zoom, k, j - 1, limit);
      CellDegreesFacts(zoom, Pow2(j - 1));
      DoublingNeverAddsCells(e, CellDegrees(zoom, Pow2(j - 1)));
    }
  }

  lemma LargestScaleFits(e: Extent, zoom: nat, limit: nat)
    requires e.Valid() && limit >= 1
    ensures Fits(e, zoom, zoom + 2, limit)
  {
    ScaleBound(zoom);
    WorldCellIsOne(e, 360.0);
  }

  /** The powers of two that fit are exactly those from the `exponent`-th on. */
  ghost predicate FitsFrom(e: Extent, zoom: nat, limit: nat, exponent: nat) {
    exponent <= zoom + 2 && forall k: nat :: Fits(e, zoom, k, limit) <==> exponent <= k
  }

  /** `scale` is the least power of two whose grid fits, and every larger one fits too. */
  ghost predicate LeastScale(e: Extent, zoom: nat, limit: nat, scale: nat) {
    exists k: nat :: scale == Pow2(k) && FitsFrom(e, zoom, limit, k)
  }

  /** Doubles the scale until the extent, of a viewport or of a radius search, fits. */
  method ExplorerClusterScale(extent: Extent, zoom: nat, limit: nat) returns (scale: nat)
    requires extent.Valid() && limit >= 1
    ensures LeastScale(extent, zoom, limit, scale)
  {
    scale := 1;
    ghost var exponent := 0;
    CellDegreesFacts(zoom, 1);
    var count := ExtentCellCount(extent, CellDegrees(zoom, scale));
    LargestScaleFits(extent, zoom, limit);
    while count > limit
      invariant scale == Pow2(exponent) && exponent <= zoom + 2
      invariant CellDegrees(zoom, scale) > 0.0
      invariant count == |CellsTouched(extent, CellDegrees(zoom, scale))|
      invariant forall k: nat :: k < exponent ==> !Fits(extent, zoom, k, limit)
      decreases zoom + 2 - exponent
    {
      scale := scale * 2;
      exponent := exponent + 1;
      CellDegreesFacts(zoom, scale);
      count := ExtentCellCount(extent, CellDegrees(zoom, scale));
    }
    forall k: nat | exponent <= k ensures Fits(extent, zoom, k, limit) {
      FitsUpward(extent, zoom, exponent, k, limit);
    }
    assert FitsFrom(extent, zoom, limit, exponent);
  }

  // ----- SQL on the same grid -----

  lemma BucketIsCell(p: Point, cell: real)
    requires cell > 0.0
    ensures BucketX(p.longitude, cell) == CellIndex(p.longitude, -180.0, 360.0, cell)
    ensures BucketY(p.latitude, cell) == CellIndex(p.latitude, -90.0, 180.0, cell)
  {
    assert 360.0 / cell > 0.0 by { assert (360.0 / cell) * cell == 360.0; }
    assert Ceil(360.0 / cell) >= 1;
  }

  /** The bucket of a point inside the extent is one of the counted cells. */
  lemma BucketIsTouched(e: Extent, p: Point, cell: real)
    requires e.Valid() && e.Contains(p) && cell > 0.0
    ensures Bucket(p, cell) in CellsTouched(e, cell)
  {
    BucketIsCell(p, cell);
    IndexMonotone(e.south, p.latitude, -90.0, 180.0, cell);
    IndexMonotone(p.latitude, e.north, -90.0, 180.0, cell);
    var r :| r in e.longitudeRanges && r.0 <= p.longitude <= r.1;
    var k :| 0 <= k < |e.longitudeRanges| && e.longitudeRanges[k] == r;
    IndexMonotone(r.0, p.longitude, -180.0, 360.0, cell);
    IndexMonotone(p.longitude, r.1, -180.0, 360.0, cell);
    var ranges := LongitudeRanges(e, cell);
    assert ranges[k] in ranges;
    InCovered(ranges, BucketX(p.longitude, cell));
  }

  /** The counted cells are exactly those that some point of the extent lies in. */
  lemma TouchedCellsHoldPoints(e: Extent, cell: real, c: (int, int))
    requires e.Valid() && cell > 0.0
    ensures c in CellsTouched(e, cell) <==> exists p :: e.Contains(p) && Bucket(p, cell) == c
  {
    if c in CellsTouched(e, cell) {
      InTouched(e, cell, c);
      InCovered(LongitudeRanges(e, cell), c.0);
      var r :| r in LongitudeRanges(e, cell) && r.0 <= c.0 <= r.1;
      var k :| 0 <= k < |e.longitudeRanges| && LongitudeRanges(e, cell)[k] == r;
      var range := e.longitudeRanges[k];
      assert range in e.longitudeRanges;
      var longitude := IndexBetween(range.0, range.1, -180.0, 360.0, cell, c.0);
      var latitude := IndexBetween(e.south, e.north, -90.0, 180.0, cell, c.1);
      var p := Point(latitude, longitude);
      BucketIsCell(p, cell);
      assert e.Contains(p) && Bucket(p, cell) == c;
    }
    if p :| e.Contains(p) && Bucket(p, cell) == c { BucketIsTouched(e, p, cell); }
  }

  /** The sum of the event counts of the clusters named by `keys`. */
  ghost function Total(clusters: map<(int, int), nat>, keys: set<(int, int)>): nat
    requires keys <= clusters.Keys
  {
    if keys == {} then 0
    else
      var k := Pick(keys);
      clusters[k] + Total(clusters, keys - {k})
  }

  lemma {:induction false} TotalRemove(clusters: map<(int, int), nat>, keys: set<(int, int)>, k: (int, int))
    requires keys <= clusters.Keys && k in keys
    ensures Total(clusters, keys) == clusters[k] + Total(clusters, keys - {k})
    decreases |keys|
  {
    var p := Pick(keys);
    if p != k {
      TotalRemove(clusters, keys - {p}, k);
      TotalRemove(clusters, keys - {k}, p);
      assert keys - {p} - {k} == keys - {k} - {p};
    }
  }

  lemma {:induction false} TotalAgrees(a: map<(int, int), nat>, b: map<(int, int), nat>, keys: set<(int, int)>)
    requires keys <= a.Keys && keys <= b.Keys
    requires forall k :: k in keys ==> a[k] == b[k]
    ensures Total(a, keys) == Total(b, keys)
    decreases |keys|
  {
    if keys != {} {
      TotalAgrees(a, b, keys - {Pick(keys)});
    }
  }

  /** Grouping loses and duplicates no event: the cluster counts add up to the number of events. */
  lemma {:induction false} ClustersConserveEvents(points: seq<Point>, cell: real)
    requires cell > 0.0
    ensures Total(Clusters(points, cell), Clusters(points, cell).Keys) == |points|
  {
    if points != [] {
      var rest := Clusters(points[1..], cell);
      var all := Clusters(points, cell);
      var b := Bucket(points[0], cell);
      ClustersConserveEvents(points[1..], cell);
      TotalRemove(all, all.Keys, b);
      assert all.Keys - {b} == rest.Keys - {b};
      TotalAgrees(all, rest, rest.Keys - {b});
      if b in rest {
        TotalRemove(rest, rest.Keys, b);
      } else {
        assert rest.Keys - {b} == rest.Keys;
      }
    }
  }

  lemma {:induction false} ClusterKeys(points: seq<Point>, cell: real, b: (int, int))
    requires cell > 0.0
    ensures b in Clusters(points, cell) <==> exists p :: p in points && Bucket(p, cell) == b
  {
    if points != [] {
      ClusterKeys(points[1..], cell, b);
      assert forall p :: p in points <==> p == points[0] || p in points[1..];
    }
  }

  /** For points inside the extent the SQL groups are at most the counted cells. */
  lemma ClustersFitCells(e: Extent, points: seq<Point>, cell: real)
    requires e.Valid() && cell > 0.0
    requires forall p :: p in points ==> e.Contains(p)
    ensures |Clusters(points, cell)| <= |CellsTouched(e, cell)|
  {
    var keys := Clusters(points, cell).Keys;
    forall b | b in keys ensures b in CellsTouched(e, cell) {
      ClusterKeys(points, cell, b);
      var p :| p in points && Bucket(p, cell) == b;
      BucketIsTouched(e, p, cell);
    }
    SubsetSize(keys, CellsTouched(e, cell));
  }

  /** The events of one bucket, as positions in the result. */
  function PositionsIn(points: seq<Point>, cell: real, b: (int, int)): set<int>
    requires cell > 0.0
  {
    set i | 0 <= i < |points| && Bucket(points[i], cell) == b
  }

  lemma ShiftSize(xs: set<int>, ys: set<int>)
    requires forall i :: i in xs <==> i + 1 in ys
    ensures |xs| == |ys|
  {
    forall i | i in xs ensures exists j :: j in ys && Before(j) == i { assert i + 1 in ys && Before(i + 1) == i; }
    forall j | j in ys ensures exists i :: i in xs && Next(i) == j {
      assert (j - 1) + 1 in ys;
      assert j - 1 in xs && Next(j - 1) == j;
    }
    ImageSize(ys, xs, Before);
    ImageSize(xs, ys, Next);
  }

  function Before(i: int): int { i - 1 }

  function Next(i: int): int { i + 1 }

  lemma PositionsSplit(points: seq<Point>, cell: real, b: (int, int))
    requires cell > 0.0 && points != []
    ensures |PositionsIn(points, cell, b)| == |PositionsIn(points[1..], cell, b)| + (if Bucket(points[0], cell) == b then 1 else 0)
  {
    var all, rest := PositionsIn(points, cell, b), PositionsIn(points[1..], cell, b);
    forall i ensures i in rest <==> i + 1 in all - {0} {
      if 0 <= i < |points| - 1 { assert points[1..][i] == points[i + 1]; }
    }
    ShiftSize(rest, all - {0});
    if Bucket(points[0], cell) == b { assert all == all - {0} + {0}; } else { assert all == all - {0}; }
  }

  /** The count of a cluster is the number of events in its bucket, and every bucket with an event has a cluster. */
  lemma {:induction false} ClusterCounts(points: seq<Point>, cell: real, b: (int, int))
    requires cell > 0.0
    ensures b in Clusters(points, cell) <==> PositionsIn(points, cell, b) != {}
    ensures b in Clusters(points, cell) ==> Clusters(points, cell)[b] == |PositionsIn(points, cell, b)|
  {
    if points == [] {
      assert PositionsIn(points, cell, b) == {};
    } else {
      ClusterCounts(points[1..], cell, b);
      PositionsSplit(points, cell, b);
      assert PositionsIn(points, cell, b) != {} <==> |PositionsIn(points, cell, b)| > 0;
    }
  }

  // ----- The marker query -----

  datatype Discovery =
    | TooBroad
    | Pins(points: seq<Point>)
    | Grouped(eventCount: nat, clusters: map<(int, int), nat>)

  /** The rows that the final LIMIT of the query is applied to. */
  function MarkerRows(d: Discovery): nat {
    match d
    case TooBroad => 0
    case Pins(points) => |points|
    case Grouped(_, clusters) => |clusters|
  }

  /** On the grid of the least scale that fits: a cluster for each bucket with an event, and the exact number of its events. */
  ghost predicate GroupedAt(e: Extent, zoom: nat, limit: nat, points: seq<Point>, clusters: map<(int, int), nat>, scale: nat) {
    var cell := CellDegrees(zoom, scale);
    && LeastScale(e, zoom, limit, scale) && cell > 0.0
    && (forall b :: b in clusters <==> PositionsIn(points, cell, b) != {})
    && (forall b :: b in clusters ==> clusters[b] == |PositionsIn(points, cell, b)|)
  }

  /** Grouping on the chosen scale yields at most `limit` clusters and loses no event. */
  lemma GroupsFit(e: Extent, zoom: nat, limit: nat, points: seq<Point>, scale: nat)
    requires e.Valid() && LeastScale(e, zoom, limit, scale)
    requires forall p :: p in points ==> e.Contains(p)
    ensures CellDegrees(zoom, scale) > 0.0
    ensures var clusters := Clusters(points, CellDegrees(zoom, scale));
            |clusters| <= limit && Total(clusters, clusters.Keys) == |points|
  {
    var k: nat :| scale == Pow2(k) && FitsFrom(e, zoom, limit, k);
    assert Fits(e, zoom, k, limit);
    CellDegreesFacts(zoom, scale);
    var cell := CellDegrees(zoom, scale);
    ClustersFitCells(e, points, cell);
    ClustersConserveEvents(points, cell);
  }

  /**
   * The marker query over the events that pass the discoverable and spatial
   * predicates, all inside the extent of the search: single pins above zoom 14
   * when they all fit, groups otherwise.
   */
  method FindDiscoverableMarkers(extent: Extent, zoom: nat, limit: nat, discoverable: seq<Point>) returns (d: Discovery)
    requires extent.Valid() && limit >= 1
    requires forall p :: p in discoverable ==> extent.Contains(p)
    ensures MarkerRows(d) <= limit
    ensures d.Pins? <==> |discoverable| <= limit && zoom > 14
    ensures d.TooBroad? <==> !d.Pins? && |discoverable| > 100_000
    ensures d.Pins? ==> d.points == discoverable
    ensures d.Grouped? ==>
      && d.eventCount == |discoverable|
      && Total(d.clusters, d.clusters.Keys) == |discoverable|
      && exists scale: nat :: GroupedAt(extent, zoom, limit, discoverable, d.clusters, scale)
  {
    var scale := ExplorerClusterScale(extent, zoom, limit);
    if |discoverable| <= limit && zoom > CLUSTER_THROUGH_ZOOM {
      d := Pins(discoverable);
    } else if |discoverable| > AGGREGATION_LIMIT {
      d := TooBroad;
    } else {
      GroupsFit(extent, zoom, limit, discoverable, scale);
      d := Grouped(|discoverable|, Clusters(discoverable, CellDegrees(zoom, scale)));
      forall b { ClusterCounts(discoverable, CellDegrees(zoom, scale), b); }
      assert GroupedAt(extent, zoom, limit, discoverable, d.clusters, scale);
    }
  }

  /** The split extent covers exactly the planar viewport. */
  lemma ViewportExtent(v: Viewport, p: Point)
    ensures InViewport(v, p) <==> ClusterExtent(v).Contains(p)
  {
    var e := ClusterExtent(v);
    assert e.longitudeRanges[0] in e.longitudeRanges;
    if v.crossesAntimeridian { assert e.longitudeRanges[1] in e.longitudeRanges; }
  }

  /** Nearer than `delta` degrees of longitude, the short way round. */
  predicate NearLongitude(a: real, b: real, delta: real) {
    var gap := if a < b then b - a else a - b;
    gap < delta || gap > 360.0 - delta
  }

  /** The extent of a radius search contains every point within its spans, over the antimeridian and up to the poles. */
  lemma RadiusExtentContains(c: Radius, latitudeDelta: real, longitudeDelta: Option<real>, p: Point)
    requires -90.0 <= c.latitude <= 90.0 && -180.0 <= c.longitude <= 180.0
    requires latitudeDelta >= 0.0 && (longitudeDelta.Some? ==> 0.0 <= longitudeDelta.value <= 90.0)
    requires -90.0 <= p.latitude <= 90.0 && -180.0 <= p.longitude <= 180.0
    requires -latitudeDelta <= p.latitude - c.latitude <= latitudeDelta
    requires longitudeDelta.Some? ==> NearLongitude(c.longitude, p.longitude, longitudeDelta.value)
    ensures RadiusExtent(c, latitudeDelta, longitudeDelta).Valid()
    ensures RadiusExtent(c, latitudeDelta, longitudeDelta).Contains(p)
  {
    var ranges := RadiusExtent(c, latitudeDelta, longitudeDelta).longitudeRanges;
    assert ranges[0] in ranges;
    if |ranges| == 2 { assert ranges[1] in ranges; }
  }

  /** No nearer than `delta` degrees of longitude would do: the extent of a radius search holds only points within its spans. */
  lemma RadiusExtentIsTight(c: Radius, latitudeDelta: real, longitudeDelta: Option<real>, p: Point)
    requires -90.0 <= c.latitude <= 90.0 && -180.0 <= c.longitude <= 180.0
    requires latitudeDelta >= 0.0 && (longitudeDelta.Some? ==> 0.0 <= longitudeDelta.value <= 90.0)
    requires RadiusExtent(c, latitudeDelta, longitudeDelta).Contains(p)
    ensures -90.0 <= p.latitude <= 90.0 && -180.0 <= p.longitude <= 180.0
    ensures -latitudeDelta <= p.latitude - c.latitude <= latitudeDelta
    ensures longitudeDelta.Some? ==>
              var gap := if c.longitude < p.longitude then p.longitude - c.longitude else c.longitude - p.longitude;
              gap <= longitudeDelta.value || gap >= 360.0 - longitudeDelta.value
  {
  }

  /** Degrees eastward from `west` to `east`, a full turn for equal meridians. */
  function Eastward(west: real, east: real): real { if east > west then east - west else east - west + 360.0 }

  /**
   * Exactly which viewports are accepted, and that the accepted one is the given
   * one with its ends named so that neither half of a split is empty.
   */
  lemma AcceptedViewports(view: ViewportInput)
    ensures var r := NormalizeViewport(view);
            && (r == Ok(None) <==> view.south.None? && view.west.None? && view.north.None? && view.east.None?)
            && (r.Ok? && r.value.Some? <==>
                  && view.south.Some? && view.west.Some? && view.north.Some? && view.east.Some?
                  && -90.0 <= view.south.value < view.north.value <= 90.0 && view.north.value - view.south.value <= 60.0
                  && -180.0 <= view.west.value <= 180.0 && -180.0 <= view.east.value <= 180.0
                  && 0.0 < Eastward(view.west.value, view.east.value) <= 120.0)
            && (r.Ok? && r.value.Some? ==>
                  var v := r.value.value;
                  && v.south == view.south.value && v.north == view.north.value
                  && (v.west == view.west.value || (view.west.value == 180.0 && v.west == -180.0))
                  && (v.east == view.east.value || (view.east.value == -180.0 && v.east == 180.0))
                  && v.west < 180.0 && v.east > -180.0 && (v.crossesAntimeridian <==> v.west > v.east))
  {
  }

  lemma AcceptedRadii(around: RadiusInput)
    ensures var r := NormalizeRadius(around);
            && (r == Ok(None) <==> around.latitude.None? && around.longitude.None? && around.meters.None?)
            && (r.Ok? && r.value.Some? <==>
                  && around.latitude.Some? && around.longitude.Some? && around.meters.Some?
                  && -90.0 <= around.latitude.value <= 90.0 && -180.0 <= around.longitude.value <= 180.0
                  && 100.0 <= around.meters.value <= 500_000.0
                  && around.meters.value == around.meters.value.Floor as real)
            && (r.Ok? && r.value.Some? ==>
                  && r.value.value.latitude == around.latitude.value && r.value.value.longitude == around.longitude.value
                  && r.value.value.meters as real == around.meters.value)
  {
  }

  /** A query is accepted exactly with one usable form and not a trace of the other, and with its numbers in range. */
  lemma AcceptedQueries(view: ViewportInput, around: RadiusInput, zoom: int, limit: Option<int>, restValid: bool)
    ensures var r := NormalizeQuery(view, around, zoom, limit, restValid);
            var v, c := NormalizeViewport(view), NormalizeRadius(around);
            && (r.Ok? <==>
                  && v.Ok? && c.Ok? && (v.value.Some? <==> c.value.None?)
                  && 1 <= zoom <= 22 && (limit.Some? ==> 1 <= limit.value <= 200) && restValid)
            && (r.Ok? ==>
                  && r.value.zoom == zoom && r.value.limit == (if limit.Some? then limit.value else 100)
                  && r.value.spatial == (if v.value.Some? then InView(v.value.value) else Around(c.value.value)))
  {
  }

  /** Every accepted query meets what the grid and the scale loop rely on. */
  lemma NormalizedQueriesAreUsable(view: ViewportInput, around: RadiusInput, zoom: int, limit: Option<int>, restValid: bool)
    ensures match NormalizeQuery(view, around, zoom, limit, restValid)
            case Err(_) => true
            case Ok(q) =>
              && 1 <= q.zoom <= 22 && 1 <= q.limit <= 200
              && match q.spatial
                 case InView(v) =>
                   && ClusterExtent(v).Valid() && v.west < 180.0 && v.east > -180.0
                   && LongitudeSpan(v.west, v.east) <= 120.0
                 case Around(r) =>
                   -90.0 <= r.latitude <= 90.0 && -180.0 <= r.longitude <= 180.0 && 100 <= r.meters <= 500_000
  {
  }
}
