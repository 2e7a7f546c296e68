// From a region of interest to a map of QP deltas (ZeCoStream/gen_kvazaar_roi.py), over the reals.
//
// math.sqrt is a parameter: any function that returns the non-negative root of a non-negative number.

/** The delta of one coding tree unit as a function of its distance from the box. */
module RoiDeltas {

  const BACKGROUND: int := 18
  const MAX_DELTA: int := 25

  datatype Box = Box(xmin: real, ymin: real, xmax: real, ymax: real)

  ghost predicate RootAt(root: real -> real, x: real) {
    x >= 0.0 ==> root(x) >= 0.0 && root(x) * root(x) == x
  }

  ghost predicate IsRoot(root: real -> real) { forall x :: RootAt(root, x) }

  function Clamp(v: real, lo: real, hi: real): real {
    var m := if v < hi then v else hi;
    if m > lo then m else lo
  }

  function ClampInt(v: int, lo: int, hi: int): int {
    var m := if v < hi then v else hi;
    if m > lo then m else lo
  }

  /** Python's round: halves go to the even neighbour. */
  function Round(x: real): int {
    var f := x.Floor;
    var part := x - f as real;
    if part < 0.5 then f else if part > 0.5 then f + 1 else if f % 2 == 0 then f else f + 1
  }

  function Power(x: real, n: nat): real {
    if n == 0 then 1.0 else x * Power(x, n - 1)
  }

  /** How far a coordinate lies outside a range. */
  function Outside(p: real, lo: real, hi: real): real {
    if p < lo then lo - p else if p > hi then p - hi else 0.0
  }

  function SquaredDistance(px: real, py: real, b: Box): real {
    var dx, dy := Outside(px, b.xmin, b.xmax), Outside(py, b.ymin, b.ymax);
    dx * dx + dy * dy
  }

  function Response(d: real, far: real): real
    requires far != 0.0
  {
    if d == 0.0 then 1.0 else Clamp(1.0 - d / far, 0.0, 1.0)
  }

  function Delta(d: real, far: real, gamma: nat, baseQp: int): (delta: int)
    requires far != 0.0
    ensures 0 <= delta <= MAX_DELTA
  {
    var qp := Clamp(51.0 * (1.0 - Power(Response(d, far), gamma)), 0.0, 51.0);
    ClampInt(Round(qp) - baseQp, 0, MAX_DELTA)
  }

  // ---- monotony ----

  lemma RoundGrows(x: real, y: real)
    requires x <= y
    ensures Round(x) <= Round(y)
  {
  }

  /** Twice how far a number lies from a whole one. */
  function TwiceFrom(x: real, n: int): real {
    2.0 * (if x < n as real then n as real - x else x - n as real)
  }

  /** Rounding gives the nearest whole number, and the even one of two that are as near. */
  lemma RoundIs(x: real, n: int)
    ensures n == Round(x) <==> TwiceFrom(x, n) < 1.0 || (TwiceFrom(x, n) == 1.0 && n % 2 == 0)
  {
    var f := x.Floor;
    if n < f { assert n + 1 <= f; } else if n > f { assert n >= f + 1; }
  }

  lemma Product(a: real, b: real, c: real, d: real)
    requires 0.0 <= a <= c && 0.0 <= b <= d
    ensures 0.0 <= a * b <= c * d
  {
  }

  lemma {:induction false} PowerGrows(x: real, y: real, n: nat)
    requires 0.0 <= x <= y <= 1.0
    ensures 0.0 <= Power(x, n) <= Power(y, n) <= 1.0
  {
    if n > 0 {
      PowerGrows(x, y, n - 1);
      Product(x, Power(x, n - 1), y, Power(y, n - 1));
      Product(y, Power(y, n - 1), 1.0, 1.0);
    }
  }

  lemma Scales(p: real, q: real, c: real)
    requires p < q && c > 0.0
    ensures p * c < q * c
  {
  }

  lemma SquareGrows(p: real, q: real)
    requires 0.0 <= p < q
    ensures p * p < q * q
  {
    Scales(0.0, q - p, q + p);
    assert (q - p) * (q + p) == q * q - p * p;
  }

  lemma ResponseFalls(d: real, e: real, far: real)
    requires far > 0.0 && 0.0 <= d <= e
    ensures 0.0 <= Response(e, far) <= Response(d, far) <= 1.0
  {
    QuotientGrows(0.0, d, far);
    QuotientGrows(d, e, far);
  }

  lemma QuotientGrows(d: real, e: real, far: real)
    requires far > 0.0 && d <= e
    ensures d / far <= e / far
  {
    var p, q := d / far, e / far;
    assert p * far == d && q * far == e;
    if p > q { Scales(q, p, far); }
  }

  /** A unit no farther from the box never gets a larger delta. */
  lemma DeltaGrows(d: real, e: real, far: real, gamma: nat, baseQp: int)
    requires far > 0.0 && 0.0 <= d <= e
    ensures Delta(d, far, gamma, baseQp) <= Delta(e, far, gamma, baseQp)
  {
    var r, s := Response(d, far), Response(e, far);
    ResponseFalls(d, e, far);
    PowerGrows(s, r, gamma);
    var qd, qe := 51.0 * (1.0 - Power(r, gamma)), 51.0 * (1.0 - Power(s, gamma));
    RoundGrows(Clamp(qd, 0.0, 51.0), Clamp(qe, 0.0, 51.0));
  }

  /** Inside the box the delta is 0 exactly when the base QP is not negative. */
  lemma InsideIsZero(far: real, gamma: nat, baseQp: int)
    requires far != 0.0
    ensures Delta(0.0, far, gamma, baseQp) == 0 <==> baseQp >= 0
  {
    PowerGrows(1.0, 1.0, gamma);
    OnePower(gamma);
  }

  lemma {:induction false} OnePower(n: nat)
    ensures Power(1.0, n) == 1.0
  {
    if n > 0 { OnePower(n - 1); }
  }

  /** The farthest unit outside gets the largest delta exactly when the base QP is at most 26. */
  lemma FarthestIsLargest(far: real, gamma: nat, baseQp: int)
    requires far > 0.0 && gamma > 0
    ensures Delta(far, far, gamma, baseQp) == MAX_DELTA <==> baseQp <= 26
  {
  }

  lemma RootGrows(root: real -> real, x: real, y: real)
    requires IsRoot(root) && 0.0 <= x <= y
    ensures 0.0 <= root(x) <= root(y)
    ensures root(x) == 0.0 <==> x == 0.0
  {
    assert RootAt(root, x) && RootAt(root, y);
    var p, q := root(x), root(y);
    if p > q { SquareGrows(q, p); }
    if p > 0.0 { SquareGrows(0.0, p); }
  }

  lemma DistanceIsNonNegative(px: real, py: real, b: Box)
    ensures SquaredDistance(px, py, b) >= 0.0
  {
  }

  lemma Square(x: real)
    ensures x * x >= 0.0
  {
  }

  /** The distance is 0 exactly inside the box. */
  lemma ZeroIffInside(root: real -> real, px: real, py: real, b: Box)
    requires IsRoot(root) && b.xmin <= b.xmax && b.ymin <= b.ymax
    ensures root(SquaredDistance(px, py, b)) == 0.0
            <==> b.xmin <= px <= b.xmax && b.ymin <= py <= b.ymax
  {
    var dx, dy := Outside(px, b.xmin, b.xmax), Outside(py, b.ymin, b.ymax);
    Square(dx);
    Square(dy);
    RootGrows(root, SquaredDistance(px, py, b), SquaredDistance(px, py, b));
    if dx > 0.0 { SquareGrows(0.0, dx); }
    if dy > 0.0 { SquareGrows(0.0, dy); }
  }
}

/** The raster of all units. */
module RoiMaps {
  import opened Wrappers
  import opened RoiDeltas

  /** What one map is made from; the box is in pixels. */
  datatype Grid = Grid(width: int, height: int, ctu: int, box: Box, root: real -> real)

  predicate Positive(g: Grid) { g.width > 0 && g.height > 0 && g.ctu > 0 }

  /** The number of units that cover a length. */
  function Units(length: int, ctu: int): (n: int)
    requires ctu > 0
    ensures (n - 1) * ctu < length <= n * ctu
  {
    var q := length / ctu;
    if length % ctu == 0 then q else q + 1
  }

  function Columns(g: Grid): (n: nat)
    requires Positive(g)
  {
    CountIsPositive(g.width, g.ctu);
    Units(g.width, g.ctu)
  }

  function Rows(g: Grid): (n: nat)
    requires Positive(g)
  {
    CountIsPositive(g.height, g.ctu);
    Units(g.height, g.ctu)
  }

  lemma CountIsPositive(length: int, ctu: int)
    requires length > 0 && ctu > 0
    ensures Units(length, ctu) > 0
  {
  }

  /** ctu_center in one direction, kept inside the image. */
  function Center(k: int, ctu: int, length: int): real {
    var c := (k * ctu) as real + ctu as real / 2.0;
    var last := length as real - 1.0;
    if c < last then c else last
  }

  /** The distance of the unit in row r and column c from the box. */
  function DistanceAt(g: Grid, r: int, c: int): real {
    g.root(SquaredDistance(Center(c, g.ctu, g.width), Center(r, g.ctu, g.height), g.box))
  }

  /** The distances of the first c units of a row. */
  function RowDistances(g: Grid, r: int, c: nat): (ds: seq<real>)
    ensures |ds| == c && forall k :: 0 <= k < c ==> ds[k] == DistanceAt(g, r, k)
  {
    if c == 0 then [] else RowDistances(g, r, c - 1) + [DistanceAt(g, r, c - 1)]
  }

  /** The distances of the first r rows, in raster order. */
  function Distances(g: Grid, r: nat): seq<real>
    requires Positive(g)
  {
    if r == 0 then [] else Distances(g, r - 1) + RowDistances(g, r - 1, Columns(g))
  }

  /** Entry r * columns + c of the raster belongs to row r and column c. */
  lemma {:induction false} RasterOrder(g: Grid, rows: nat, r: nat, c: nat)
    requires Positive(g) && r < rows && c < Columns(g)
    ensures |Distances(g, rows)| == rows * Columns(g)
    ensures 0 <= r * Columns(g) + c < |Distances(g, rows)|
    ensures Distances(g, rows)[r * Columns(g) + c] == DistanceAt(g, r, c)
  {
    RasterSize(g, rows);
    RasterSize(g, rows - 1);
    var w := Columns(g);
    assert rows * w == (rows - 1) * w + w;
    if r < rows - 1 {
      RasterOrder(g, rows - 1, r, c);
    } else {
      assert r * w == (rows - 1) * w;
    }
  }

  lemma {:induction false} RasterSize(g: Grid, rows: nat)
    requires Positive(g)
    ensures |Distances(g, rows)| == rows * Columns(g)
  {
    if rows > 0 {
      RasterSize(g, rows - 1);
      assert rows * Columns(g) == (rows - 1) * Columns(g) + Columns(g);
    }
  }

  function NonZero(ds: seq<real>): seq<real> {
    if ds == [] then []
    else NonZero(ds[..|ds| - 1]) + if ds[|ds| - 1] == 0.0 then [] else [ds[|ds| - 1]]
  }

  function Largest(ds: seq<real>): (m: real)
    requires ds != []
    ensures m in ds && forall d :: d in ds ==> d <= m
  {
    if |ds| == 1 then ds[0]
    else
      assert ds == ds[..|ds| - 1] + [ds[|ds| - 1]];
      var m := Largest(ds[..|ds| - 1]);
      if ds[|ds| - 1] > m then ds[|ds| - 1] else m
  }

  /** The farthest distance, or 1 if every unit is inside. */
  function Farthest(ds: seq<real>): real {
    if NonZero(ds) == [] then 1.0 else Largest(NonZero(ds))
  }

  lemma {:induction false} NonZeroHas(ds: seq<real>, d: real)
    ensures d in NonZero(ds) <==> d in ds && d != 0.0
  {
    if ds != [] {
      NonZeroHas(ds[..|ds| - 1], d);
      assert ds == ds[..|ds| - 1] + [ds[|ds| - 1]];
    }
  }

  predicate AllNonNegative(ds: seq<real>) { forall i :: 0 <= i < |ds| ==> ds[i] >= 0.0 }

  lemma FarthestIsPositive(ds: seq<real>)
    requires AllNonNegative(ds)
    ensures Farthest(ds) > 0.0
    ensures forall d :: d in ds ==> d <= Farthest(ds) || d == 0.0
    ensures (exists i :: 0 <= i < |ds| && ds[i] > 0.0) ==> Farthest(ds) in ds
  {
    if NonZero(ds) != [] { NonZeroHas(ds, Farthest(ds)); }
    forall d | d in ds ensures d <= Farthest(ds) || d == 0.0 { NonZeroHas(ds, d); }
    if i :| 0 <= i < |ds| && ds[i] > 0.0 { NonZeroHas(ds, ds[i]); }
  }

  lemma {:induction false} DistancesNonNegative(g: Grid, rows: nat)
    requires Positive(g) && IsRoot(g.root)
    ensures AllNonNegative(Distances(g, rows))
  {
    if rows > 0 {
      var r := rows - 1;
      DistancesNonNegative(g, r);
      forall c | 0 <= c < Columns(g) ensures DistanceAt(g, r, c) >= 0.0 {
        var d := SquaredDistance(Center(c, g.ctu, g.width), Center(r, g.ctu, g.height), g.box);
        DistanceIsNonNegative(Center(c, g.ctu, g.width), Center(r, g.ctu, g.height), g.box);
        RootGrows(g.root, d, d);
      }
    }
  }

  /** The deltas of a list of distances. */
  predicate AreDeltas(vals: seq<int>, ds: seq<real>, gamma: nat, baseQp: int) {
    |vals| == |ds| && Farthest(ds) != 0.0
    && forall i :: 0 <= i < |ds| ==> vals[i] == Delta(ds[i], Farthest(ds), gamma, baseQp)
  }

  /** The map is monotone: a unit no farther than another never gets a larger delta. */
  lemma MapIsMonotone(vals: seq<int>, ds: seq<real>, gamma: nat, baseQp: int, i: nat, j: nat)
    requires AllNonNegative(ds) && AreDeltas(vals, ds, gamma, baseQp)
    requires i < |ds| && j < |ds| && ds[i] <= ds[j]
    ensures 0 <= vals[i] <= vals[j] <= MAX_DELTA
  {
    FarthestIsPositive(ds);
    DeltaGrows(ds[i], ds[j], Farthest(ds), gamma, baseQp);
  }

  /** With base QP 26 inside units get 0, and some unit gets 25 if any lies outside. */
  lemma MapReachesBothEnds(vals: seq<int>, ds: seq<real>, gamma: nat, i: nat)
    requires AllNonNegative(ds) && AreDeltas(vals, ds, gamma, 26) && i < |ds| && gamma > 0
    ensures ds[i] == 0.0 ==> vals[i] == 0
    ensures ds[i] > 0.0 && (forall d :: d in ds ==> d <= ds[i]) ==> vals[i] == MAX_DELTA
  {
    FarthestIsPositive(ds);
    InsideIsZero(Farthest(ds), gamma, 26);
    if ds[i] > 0.0 && forall d :: d in ds ==> d <= ds[i] {
      assert ds[i] in ds && Farthest(ds) in ds;
      FarthestIsLargest(Farthest(ds), gamma, 26);
    }
  }

  /** The place of a unit in the raster. */
  function IndexOf(g: Grid, r: nat, c: nat): (k: nat)
    requires Positive(g)
  {
    AreaIsNonNegative(r, Columns(g));
    r * Columns(g) + c
  }

  function SquaredAt(g: Grid, r: nat, c: nat): real {
    SquaredDistance(Center(c, g.ctu, g.width), Center(r, g.ctu, g.height), g.box)
  }

  /** A unit no farther from the box than another, wherever they lie, never gets a larger delta. */
  lemma NearerNeverLarger(g: Grid, vals: seq<int>, gamma: nat, baseQp: int, r: nat, c: nat, r2: nat, c2: nat)
    requires Positive(g) && IsRoot(g.root) && AreDeltas(vals, Distances(g, Rows(g)), gamma, baseQp)
    requires r < Rows(g) && c < Columns(g) && r2 < Rows(g) && c2 < Columns(g)
    requires SquaredAt(g, r, c) <= SquaredAt(g, r2, c2)
    ensures IndexOf(g, r, c) < |vals| && IndexOf(g, r2, c2) < |vals|
    ensures vals[IndexOf(g, r, c)] <= vals[IndexOf(g, r2, c2)]
  {
    RasterOrder(g, Rows(g), r, c);
    RasterOrder(g, Rows(g), r2, c2);
    DistanceIsNonNegative(Center(c, g.ctu, g.width), Center(r, g.ctu, g.height), g.box);
    RootGrows(g.root, SquaredAt(g, r, c), SquaredAt(g, r2, c2));
    DistancesNonNegative(g, Rows(g));
    MapIsMonotone(vals, Distances(g, Rows(g)), gamma, baseQp, IndexOf(g, r, c), IndexOf(g, r2, c2));
  }

  // ---- the map ----

  /** point_rect_distance. */
  method PointRectDistance(root: real -> real, px: real, py: real, b: Box) returns (d: real)
    ensures d == root(SquaredDistance(px, py, b))
  {
    var dx := 0.0;
    if px < b.xmin {
      dx := b.xmin - px;
    } else if px > b.xmax {
      dx := px - b.xmax;
    }
    var dy := 0.0;
    if py < b.ymin {
      dy := b.ymin - py;
    } else if py > b.ymax {
      dy := py - b.ymax;
    }
    assert dx == Outside(px, b.xmin, b.xmax) && dy == Outside(py, b.ymin, b.ymax);
    var square := dx * dx + dy * dy;
    assert square == SquaredDistance(px, py, b);
    d := root(square);
  }

  /** Measures the units of one row. */
  method MeasureRow(g: Grid, r: nat, before: seq<real>, far: seq<real>) returns (ds: seq<real>, outside: seq<real>)
    requires Positive(g) && far == NonZero(before)
    ensures ds == before + RowDistances(g, r, Columns(g)) && outside == NonZero(ds)
  {
    ds, outside := before, far;
    for c := 0 to Columns(g)
      invariant ds == before + RowDistances(g, r, c) && outside == NonZero(ds)
    {
      var d := PointRectDistance(g.root, Center(c, g.ctu, g.width), Center(r, g.ctu, g.height), g.box);
      NonZeroNext(ds, d);
      if d != 0.0 {
        outside := outside + [d];
      }
      assert ds + [d] == before + (RowDistances(g, r, c) + [d]);
      ds := ds + [d];
    }
  }

  /** The pass that measures every unit and keeps the distances of those outside. */
  method Measure(g: Grid) returns (ds: seq<real>, outside: seq<real>)
    requires Positive(g)
    ensures ds == Distances(g, Rows(g)) && outside == NonZero(ds)
  {
    ds, outside := [], [];
    for r := 0 to Rows(g)
      invariant ds == Distances(g, r) && outside == NonZero(ds)
    {
      ds, outside := MeasureRow(g, r, ds, outside);
    }
  }

  lemma NonZeroNext(ds: seq<real>, d: real)
    ensures NonZero(ds + [d]) == NonZero(ds) + if d == 0.0 then [] else [d]
  {
  }

  /** A coordinate of a box, in thousandths of a side, in pixels of that side. */
  function Pixel(v: real, length: int): real {
    Clamp(v / 1000.0 * length as real, 0.0, length as real - 1.0)
  }

  /** The box in thousandths of the image, as pixels inside the image. */
  function Scaled(b: Box, width: int, height: int): Box {
    Box(Pixel(b.xmin, width), Pixel(b.ymin, height), Pixel(b.xmax, width), Pixel(b.ymax, height))
  }

  function GridOf(b: Box, width: int, height: int, ctu: int, root: real -> real): Grid {
    Grid(width, height, ctu, Scaled(b, width, height), root)
  }

  /** bbox_to_qp_delta_map: the size of the map and its values in raster order. */
  method DeltaMap(bbox: Option<Box>, width: int, height: int, ctu: int, gamma: nat, baseQp: int, root: real -> real)
      returns (columns: nat, rows: nat, vals: seq<int>)
    requires width > 0 && height > 0 && ctu > 0 && IsRoot(root)
    ensures columns == Units(width, ctu) && rows == Units(height, ctu) && |vals| == rows * columns
    ensures forall i :: 0 <= i < |vals| ==> 0 <= vals[i] <= MAX_DELTA
    ensures bbox == None ==> forall i :: 0 <= i < |vals| ==> vals[i] == BACKGROUND
    ensures bbox.Some? ==> AreDeltas(vals, Distances(GridOf(bbox.value, width, height, ctu, root), rows), gamma, baseQp)
  {
    CountIsPositive(width, ctu);
    CountIsPositive(height, ctu);
    columns, rows := Units(width, ctu), Units(height, ctu);
    if bbox.None? {
      AreaIsNonNegative(rows, columns);
      return columns, rows, seq(rows * columns, _ => BACKGROUND);
    }
    var g := GridOf(bbox.value, width, height, ctu, root);
    var ds, outside := Measure(g);
    RasterSize(g, rows);
    DistancesNonNegative(g, rows);
    FarthestIsPositive(ds);
    var far := if |outside| > 0 then Largest(outside) else 1.0;
    vals := [];
    for i := 0 to |ds|
      invariant |vals| == i && forall k :: 0 <= k < i ==> vals[k] == Delta(ds[k], far, gamma, baseQp)
    {
      vals := vals + [Delta(ds[i], far, gamma, baseQp)];
    }
  }

  lemma AreaIsNonNegative(r: nat, c: nat)
    ensures r * c >= 0
  {
  }

  // ---- interpolation of boxes ----

  function Lerp(a: real, b: real, t: real): real { a * (1.0 - t) + b * t }

  /** interp_bbox: a missing end is replaced by the other one. */
  function InterpolatedBox(b0: Option<Box>, b1: Option<Box>, t: real): Option<Box> {
    if b0.None? then b1
    else if b1.None? then b0
    else
      var p, q := b0.value, b1.value;
      Some(Box(Lerp(p.xmin, q.xmin, t), Lerp(p.ymin, q.ymin, t), Lerp(p.xmax, q.xmax, t), Lerp(p.ymax, q.ymax, t)))
  }

  /** The time of output frame j in input frames. */
  function Position(fpsIn: real, fpsOut: real, j: nat): real
    requires fpsOut > 0.0
  {
    j as real / fpsOut * fpsIn
  }

  /** The box for output frame j: the first input interval keeps the first box, as does the last one the last. */
  function BoxAt(boxes: seq<Option<Box>>, fpsIn: real, fpsOut: real, j: nat): Option<Box>
    requires boxes != [] && fpsIn > 0.0 && fpsOut > 0.0
  {
    var position := Position(fpsIn, fpsOut, j);
    var i := position.Floor;
    if i <= 0 then boxes[0]
    else if i >= |boxes| - 1 then boxes[|boxes| - 1]
    else InterpolatedBox(boxes[i], boxes[i + 1], position - i as real)
  }

  /** bboxes_2fps_to_15fps. */
  method Resample(boxes: seq<Option<Box>>, fpsIn: real, fpsOut: real, duration: real) returns (out: seq<Option<Box>>)
    requires boxes != [] && fpsIn > 0.0 && fpsOut > 0.0
    ensures var n := Round(duration * fpsOut); |out| == if n < 0 then 0 else n
    ensures forall j :: 0 <= j < |out| ==> out[j] == BoxAt(boxes, fpsIn, fpsOut, j)
  {
    var count := Round(duration * fpsOut);
    out := [];
    var j := 0;
    while j < count
      invariant |out| == j && (j <= count || j == 0)
      invariant forall k :: 0 <= k < j ==> out[k] == BoxAt(boxes, fpsIn, fpsOut, k)
    {
      var position := Position(fpsIn, fpsOut, j);
      var i := position.Floor;
      if i <= 0 {
        out := out + [boxes[0]];
      } else if i >= |boxes| - 1 {
        out := out + [boxes[|boxes| - 1]];
      } else {
        out := out + [InterpolatedBox(boxes[i], boxes[i + 1], position - i as real)];
      }
      j := j + 1;
    }
  }

  predicate Within(b: Box, lo: real, hi: real) {
    && lo <= b.xmin <= b.xmax <= hi && lo <= b.ymin <= b.ymax <= hi
  }

  lemma LerpWithin(a: real, b: real, t: real, lo: real, hi: real)
    requires 0.0 <= t <= 1.0 && lo <= a <= hi && lo <= b <= hi
    ensures lo <= Lerp(a, b, t) <= hi
  {
    Mixes(lo, a, lo, b, t);
    Mixes(a, hi, b, hi, t);
    assert Lerp(lo, lo, t) == lo && Lerp(hi, hi, t) == hi;
  }

  lemma Mixes(a: real, b: real, c: real, d: real, t: real)
    requires 0.0 <= t <= 1.0 && a <= b && c <= d
    ensures Lerp(a, c, t) <= Lerp(b, d, t)
  {
    Product(0.0, 0.0, b - a, 1.0 - t);
    Product(0.0, 0.0, d - c, t);
    assert Lerp(b, d, t) - Lerp(a, c, t) == (b - a) * (1.0 - t) + (d - c) * t;
  }

  lemma InterpolationWithin(b0: Option<Box>, b1: Option<Box>, t: real, lo: real, hi: real)
    requires 0.0 <= t <= 1.0
    requires (b0.Some? ==> Within(b0.value, lo, hi)) && (b1.Some? ==> Within(b1.value, lo, hi))
    ensures var b := InterpolatedBox(b0, b1, t);
      (b.Some? <==> b0.Some? || b1.Some?) && (b.Some? ==> Within(b.value, lo, hi))
  {
    if b0.Some? && b1.Some? {
      var p, q := b0.value, b1.value;
      LerpWithin(p.xmin, q.xmin, t, lo, hi);
      LerpWithin(p.xmax, q.xmax, t, lo, hi);
      LerpWithin(p.ymin, q.ymin, t, lo, hi);
      LerpWithin(p.ymax, q.ymax, t, lo, hi);
      Mixes(p.xmin, p.xmax, q.xmin, q.xmax, t);
      Mixes(p.ymin, p.ymax, q.ymin, q.ymax, t);
    }
  }

  /** Boxes that lie in the image and are not inverted stay so at every output frame. */
  lemma ResampledWithin(boxes: seq<Option<Box>>, fpsIn: real, fpsOut: real, j: nat, lo: real, hi: real)
    requires boxes != [] && fpsIn > 0.0 && fpsOut > 0.0
    requires forall i :: 0 <= i < |boxes| && boxes[i].Some? ==> Within(boxes[i].value, lo, hi)
    ensures var b := BoxAt(boxes, fpsIn, fpsOut, j); b.Some? ==> Within(b.value, lo, hi)
  {
    var position := Position(fpsIn, fpsOut, j);
    var i := position.Floor;
    if 0 < i < |boxes| - 1 {
      InterpolationWithin(boxes[i], boxes[i + 1], position - i as real, lo, hi);
    }
  }

  // ---- what pixels, centres and resampled boxes are ----

  /** c is v thousandths of a length, cut to the pixels 0 to length - 1. */
  predicate IsPixel(c: real, v: real, length: int) {
    var exact := v * length as real;
    && (exact < 0.0 ==> c == 0.0)
    && (0.0 <= exact <= 1000.0 * (length - 1) as real ==> 1000.0 * c == exact)
    && (exact > 1000.0 * (length - 1) as real ==> c == (length - 1) as real)
  }

  lemma PixelIs(v: real, length: int)
    requires length > 0
    ensures IsPixel(Pixel(v, length), v, length)
  {
    assert v / 1000.0 * length as real == v * length as real / 1000.0;
  }

  /** The box in pixels has each edge at its place along its own side of the image. */
  lemma ScaledIs(b: Box, width: int, height: int)
    requires width > 0 && height > 0
    ensures var s := Scaled(b, width, height);
      && IsPixel(s.xmin, b.xmin, width) && IsPixel(s.xmax, b.xmax, width)
      && IsPixel(s.ymin, b.ymin, height) && IsPixel(s.ymax, b.ymax, height)
  {
    PixelIs(b.xmin, width);
    PixelIs(b.xmax, width);
    PixelIs(b.ymin, height);
    PixelIs(b.ymax, height);
  }

  lemma NextProduct(k: int, n: int, ctu: int)
    requires k < n && ctu > 0
    ensures k * ctu + ctu <= n * ctu
  {
    Along(k + 1, n, ctu);
  }

  lemma Along(k: int, n: int, ctu: int)
    requires k <= n && ctu >= 0
    ensures k * ctu <= n * ctu
  {
    assert (n - k) * ctu == n * ctu - k * ctu;
    AreaIsNonNegative(n - k, ctu);
  }

  /** The centre of a unit lies in the unit and in the image: in the middle, or at the edge of the image before that. */
  lemma CenterIs(k: nat, ctu: int, length: int)
    requires ctu > 0 && length > 0 && k < Units(length, ctu)
    ensures var c := Center(k, ctu, length); var middle := (2 * (k * ctu) + ctu) as real / 2.0;
      && c == (if middle < (length - 1) as real then middle else (length - 1) as real)
      && (k * ctu) as real <= c < (k * ctu + ctu) as real && c <= (length - 1) as real
  {
    NextProduct(k, Units(length, ctu), ctu);
    assert (Units(length, ctu) - 1) * ctu < length;
    Along(k, Units(length, ctu) - 1, ctu);
  }

  /** r lies the part t of the way from p to q, edge by edge. */
  predicate PartWay(p: Box, q: Box, t: real, r: Box) {
    && r.xmin - p.xmin == t * (q.xmin - p.xmin) && r.ymin - p.ymin == t * (q.ymin - p.ymin)
    && r.xmax - p.xmax == t * (q.xmax - p.xmax) && r.ymax - p.ymax == t * (q.ymax - p.ymax)
  }

  lemma LerpIs(a: real, b: real, t: real)
    ensures Lerp(a, b, t) - a == t * (b - a)
  {
  }

  lemma InterpolationIs(p: Box, q: Box, t: real)
    ensures PartWay(p, q, t, InterpolatedBox(Some(p), Some(q), t).value)
  {
    LerpIs(p.xmin, q.xmin, t);
    LerpIs(p.ymin, q.ymin, t);
    LerpIs(p.xmax, q.xmax, t);
    LerpIs(p.ymax, q.ymax, t);
  }

  /**
   * Output frame j lies at x input frames. It has the first box before the second input frame, the last box from the
   * last input frame on, and in between the box that lies as far from the box before to the box after as x does
   * between their frames, or the one of the two that is there.
   */
  lemma ResampledIs(boxes: seq<Option<Box>>, fpsIn: real, fpsOut: real, j: nat, x: real)
    requires boxes != [] && fpsIn > 0.0 && fpsOut > 0.0 && x * fpsOut == j as real * fpsIn
    ensures var b := BoxAt(boxes, fpsIn, fpsOut, j); var i := x.Floor;
      && (x < 1.0 ==> b == boxes[0])
      && (x >= 1.0 && x >= (|boxes| - 1) as real ==> b == boxes[|boxes| - 1])
      && (1.0 <= x < (|boxes| - 1) as real ==>
            if boxes[i].Some? && boxes[i + 1].Some?
            then b.Some? && PartWay(boxes[i].value, boxes[i + 1].value, x - i as real, b.value)
            else b == if boxes[i].Some? then boxes[i] else boxes[i + 1])
  {
    PositionIs(fpsIn, fpsOut, j, x);
    var i := x.Floor;
    if 1.0 <= x < (|boxes| - 1) as real && boxes[i].Some? && boxes[i + 1].Some? {
      InterpolationIs(boxes[i].value, boxes[i + 1].value, x - i as real);
    }
  }

  lemma PositionIs(fpsIn: real, fpsOut: real, j: nat, x: real)
    requires fpsOut > 0.0 && x * fpsOut == j as real * fpsIn
    ensures Position(fpsIn, fpsOut, j) == x
  {
    var part := j as real / fpsOut;
    assert part * fpsOut == j as real;
    assert part * fpsIn * fpsOut == x * fpsOut;
    SameFactor(part * fpsIn, x, fpsOut);
  }

  lemma SameFactor(a: real, b: real, c: real)
    requires c > 0.0 && a * c == b * c
    ensures a == b
  {
    if a < b { Scales(a, b, c); }
    if b < a { Scales(b, a, c); }
  }
}
