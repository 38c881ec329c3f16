/** Box geometry of json_answer_reward.py: clamping, analytic IoU, and the union IoU
    R2 that paints boxes onto a canvas of cells. Coordinates are real numbers. */
module Boxes {
  import opened Prelude

  const CANVAS_SIZE: nat := 1000

  datatype Box = Box(x1: real, y1: real, x2: real, y2: real)

  function Clamp(v: real, lo: real, hi: real): real {
    MaxR(lo, MinR(hi, v))
  }

  function ClampBox(b: Box): (r: Box)
    ensures OnCanvas(r)
    ensures OnCanvas(b) ==> r == b
  {
    Box(Clamp(b.x1, 0.0, 1000.0), Clamp(b.y1, 0.0, 1000.0), Clamp(b.x2, 0.0, 1000.0), Clamp(b.y2, 0.0, 1000.0))
  }

  predicate OnCanvas(b: Box) {
    && 0.0 <= b.x1 <= 1000.0 && 0.0 <= b.y1 <= 1000.0
    && 0.0 <= b.x2 <= 1000.0 && 0.0 <= b.y2 <= 1000.0
  }

  predicate Proper(b: Box) {
    b.x1 < b.x2 && b.y1 < b.y2
  }

  // ---------------------------------------------------------------- analytic IoU

  function Overlap(a: Box, b: Box): real {
    MaxR(0.0, MinR(a.x2, b.x2) - MaxR(a.x1, b.x1)) * MaxR(0.0, MinR(a.y2, b.y2) - MaxR(a.y1, b.y1))
  }

  function Area(b: Box): real {
    MaxR(0.0, b.x2 - b.x1) * MaxR(0.0, b.y2 - b.y1)
  }

  function Iou(a: Box, b: Box): real {
    var inter := Overlap(a, b);
    if inter == 0.0 then 0.0
    else
      var union := Area(a) + Area(b) - inter;
      if union <= 0.0 then 0.0 else inter / union
  }

  lemma {:induction false} MulMonoR(a: real, b: real, c: real, d: real)
    requires 0.0 <= a <= c && 0.0 <= b <= d
    ensures 0.0 <= a * b <= c * d
  {
    assert a * b <= c * b;
    assert c * b <= c * d;
  }

  lemma {:induction false} SpanBounds(a1: real, a2: real, b1: real, b2: real)
    ensures var w := MaxR(0.0, MinR(a2, b2) - MaxR(a1, b1));
      0.0 <= w <= MaxR(0.0, a2 - a1) && w <= MaxR(0.0, b2 - b1)
  {
  }

  lemma {:induction false} OverlapBounds(a: Box, b: Box)
    ensures 0.0 <= Overlap(a, b) <= Area(a) && Overlap(a, b) <= Area(b)
  {
    var w, h := MaxR(0.0, MinR(a.x2, b.x2) - MaxR(a.x1, b.x1)), MaxR(0.0, MinR(a.y2, b.y2) - MaxR(a.y1, b.y1));
    SpanBounds(a.x1, a.x2, b.x1, b.x2);
    SpanBounds(a.y1, a.y2, b.y1, b.y2);
    MulMonoR(w, h, MaxR(0.0, a.x2 - a.x1), MaxR(0.0, a.y2 - a.y1));
    MulMonoR(w, h, MaxR(0.0, b.x2 - b.x1), MaxR(0.0, b.y2 - b.y1));
  }

  lemma {:induction false} DivBounds(p: real, q: real)
    requires 0.0 <= p <= q && q > 0.0
    ensures 0.0 <= p / q <= 1.0
    ensures p / q == 1.0 <==> p == q
  {
    var r := p / q;
    assert r * q == p;
    assert (r - 1.0) * q == p - q;
    if r > 1.0 {
      PositiveProductR(r - 1.0, q);
    } else if r < 0.0 {
      PositiveProductR(0.0 - r, q);
    }
    if p == q {
      ZeroFactor(r - 1.0, q);
    }
  }

  lemma {:induction false} PositiveProductR(a: real, b: real)
    requires a > 0.0 && b > 0.0
    ensures a * b > 0.0
  {
  }

  lemma {:induction false} ZeroFactor(a: real, b: real)
    requires a * b == 0.0 && b > 0.0
    ensures a == 0.0
  {
    if a > 0.0 {
      PositiveProductR(a, b);
    } else if a < 0.0 {
      PositiveProductR(0.0 - a, b);
    }
  }

  lemma {:induction false} IouRange(a: Box, b: Box)
    ensures 0.0 <= Iou(a, b) <= 1.0
  {
    OverlapBounds(a, b);
    var union := Area(a) + Area(b) - Overlap(a, b);
    if Overlap(a, b) != 0.0 {
      DivBounds(Overlap(a, b), union);
    }
  }

  lemma {:induction false} IouSymmetric(a: Box, b: Box)
    ensures Iou(a, b) == Iou(b, a)
  {
    assert MinR(a.x2, b.x2) == MinR(b.x2, a.x2) && MaxR(a.x1, b.x1) == MaxR(b.x1, a.x1);
    assert MinR(a.y2, b.y2) == MinR(b.y2, a.y2) && MaxR(a.y1, b.y1) == MaxR(b.y1, a.y1);
    assert Overlap(a, b) == Overlap(b, a);
    IouOfParts(Area(a), Area(b), Overlap(a, b));
  }

  lemma {:induction false} IouOfParts(x: real, y: real, inter: real)
    ensures x + y - inter == y + x - inter
  {
  }

  lemma {:induction false} FullOverlapIsSame(a: Box, b: Box)
    requires Overlap(a, b) != 0.0 && Overlap(a, b) == Area(a) && Overlap(a, b) == Area(b)
    ensures a == b && Proper(a)
  {
    var w, h := MinR(a.x2, b.x2) - MaxR(a.x1, b.x1), MinR(a.y2, b.y2) - MaxR(a.y1, b.y1);
    TightFactors(w, h, a.x2 - a.x1, a.y2 - a.y1);
    TightFactors(w, h, b.x2 - b.x1, b.y2 - b.y1);
  }

  /** The IoU is 1 exactly on a proper box and itself. */
  lemma {:induction false} IouOneIff(a: Box, b: Box)
    ensures Iou(a, b) == 1.0 <==> a == b && Proper(a)
  {
    OverlapBounds(a, b);
    if Overlap(a, b) == 0.0 {
      ProperHasArea(a);
    } else {
      DivBounds(Overlap(a, b), Area(a) + Area(b) - Overlap(a, b));
      if Iou(a, b) == 1.0 {
        FullOverlapIsSame(a, b);
      }
    }
  }

  lemma {:induction false} SumOfProducts(a: real, b: real, c: real, d: real)
    requires a >= 0.0 && b > 0.0 && c > 0.0 && d >= 0.0
    ensures a * b + c * d == 0.0 ==> a == 0.0 && d == 0.0
  {
  }

  lemma {:induction false} ProperHasArea(a: Box)
    ensures Proper(a) ==> Overlap(a, a) > 0.0
  {
  }

  lemma {:induction false} TightFactors(w: real, h: real, ww: real, hh: real)
    requires MaxR(0.0, w) * MaxR(0.0, h) != 0.0
    requires w <= ww && h <= hh
    requires MaxR(0.0, w) * MaxR(0.0, h) == MaxR(0.0, ww) * MaxR(0.0, hh)
    ensures w > 0.0 && h > 0.0 && w == ww && h == hh
  {
    assert w > 0.0 && h > 0.0;
    assert ww * hh - w * h == (ww - w) * hh + w * (hh - h);
    SumOfProducts(ww - w, hh, w, hh - h);
  }

  // ---------------------------------------------------------------- painting the union

  /** Python's int(v): truncation toward zero. */
  function Trunc(v: real): int {
    if v >= 0.0 then v.Floor else -((-v).Floor)
  }

  function ClampCell(v: int, size: nat): (r: nat)
    ensures r <= size
  {
    Max(0, Min(v, size))
  }

  /** The canvas cell (y, x) lies in the truncated box. */
  predicate Covers(b: Box, size: nat, y: int, x: int) {
    && ClampCell(Trunc(b.x1), size) <= x < ClampCell(Trunc(b.x2), size)
    && ClampCell(Trunc(b.y1), size) <= y < ClampCell(Trunc(b.y2), size)
  }

  ghost predicate Covered(bs: seq<Box>, size: nat, y: int, x: int) {
    exists i :: 0 <= i < |bs| && Covers(bs[i], size, y, x)
  }

  /** The cells a list of boxes paints. */
  ghost function Cells(bs: seq<Box>, size: nat): set<(int, int)> {
    set y, x | 0 <= y < size && 0 <= x < size && Covered(bs, size, y, x) :: (y, x)
  }

  /** The true cells of a mask. */
  function Painted(mask: array2<bool>): (r: set<(int, int)>)
    reads mask
  {
    set y, x | 0 <= y < mask.Length0 && 0 <= x < mask.Length1 && mask[y, x] :: (y, x)
  }

  method RasterizeUnion(bs: seq<Box>, size: nat) returns (mask: array2<bool>)
    ensures fresh(mask) && mask.Length0 == size && mask.Length1 == size
    ensures forall y, x :: 0 <= y < size && 0 <= x < size ==> (mask[y, x] <==> Covered(bs, size, y, x))
    ensures Painted(mask) == Cells(bs, size)
  {
    mask := new bool[size, size]((y, x) => false);
    for i := 0 to |bs|
      invariant forall y, x :: 0 <= y < size && 0 <= x < size ==>
        (mask[y, x] <==> exists j :: 0 <= j < i && Covers(bs[j], size, y, x))
    {
      var x1, y1 := ClampCell(Trunc(bs[i].x1), size), ClampCell(Trunc(bs[i].y1), size);
      var x2, y2 := ClampCell(Trunc(bs[i].x2), size), ClampCell(Trunc(bs[i].y2), size);
      if x2 > x1 && y2 > y1 {
        forall y, x | y1 <= y < y2 && x1 <= x < x2 {
          mask[y, x] := true;
        }
      }
    }
  }

  /** R2 of two painted cell sets. */
  ghost function UnionIou(g: set<(int, int)>, p: set<(int, int)>): real {
    if |g + p| == 0 then 1.0 else |g * p| as real / |g + p| as real
  }

  ghost function R2(gt: seq<Box>, pred: seq<Box>): real {
    UnionIou(Cells(gt, CANVAS_SIZE), Cells(pred, CANVAS_SIZE))
  }

  method ScoreR2(gt: seq<Box>, pred: seq<Box>) returns (r: real)
    ensures r == R2(gt, pred)
  {
    var gtMask := RasterizeUnion(gt, CANVAS_SIZE);
    var predMask := RasterizeUnion(pred, CANVAS_SIZE);
    var inter := |Painted(gtMask) * Painted(predMask)|;
    var union := |Painted(gtMask) + Painted(predMask)|;
    if union == 0 {
      return if inter == 0 then 1.0 else 0.0;
    }
    return inter as real / union as real;
  }

  // ---------------------------------------------------------------- what R2 depends on

  lemma {:induction false} SubsetCard<T>(a: set<T>, b: set<T>)
    requires a <= b
    ensures |a| <= |b| && (|a| == |b| <==> a == b)
  {
    assert b == a + (b - a);
    assert |b| == |a| + |b - a|;
  }

  /** R2 is symmetric, lies in [0,1], and is 1 exactly when both lists paint the same cells. */
  lemma {:induction false} R2Laws(gt: seq<Box>, pred: seq<Box>)
    ensures 0.0 <= R2(gt, pred) <= 1.0
    ensures R2(gt, pred) == R2(pred, gt)
    ensures R2(gt, pred) == 1.0 <==> Cells(gt, CANVAS_SIZE) == Cells(pred, CANVAS_SIZE)
  {
    var g, p := Cells(gt, CANVAS_SIZE), Cells(pred, CANVAS_SIZE);
    SubsetCard(g * p, g + p);
    assert g * p == p * g && g + p == p + g;
    assert g * p == g + p <==> g == p by {
      if g * p == g + p {
        assert g <= g + p && p <= g + p;
      }
    }
    if |g + p| != 0 {
      DivBounds(|g * p| as real, |g + p| as real);
    } else {
      assert g == {} && p == {};
    }
  }

  /** Box `a` paints nothing that box `b` does not. */
  ghost predicate Within(a: Box, b: Box) {
    forall y, x :: Covers(a, CANVAS_SIZE, y, x) ==> Covers(b, CANVAS_SIZE, y, x)
  }

  /** A box whose coordinates lie inside another's paints nothing the other does not. */
  lemma {:induction false} ContainedIsWithin(a: Box, b: Box)
    requires b.x1 <= a.x1 && b.y1 <= a.y1 && a.x2 <= b.x2 && a.y2 <= b.y2
    ensures Within(a, b)
  {
    TruncMonotone(b.x1, a.x1);
    TruncMonotone(b.y1, a.y1);
    TruncMonotone(a.x2, b.x2);
    TruncMonotone(a.y2, b.y2);
  }

  lemma {:induction false} TruncMonotone(v: real, w: real)
    requires v <= w
    ensures Trunc(v) <= Trunc(w)
  {
  }

  /** Every box of `xs` is inside some box of `ys`. */
  ghost predicate Absorbed(xs: seq<Box>, ys: seq<Box>) {
    forall i :: 0 <= i < |xs| ==> exists j :: 0 <= j < |ys| && Within(xs[i], ys[j])
  }

  /** Order, duplicates and contained boxes do not matter to R2. */
  lemma {:induction false} R2IgnoresListing(xs: seq<Box>, ys: seq<Box>, other: seq<Box>)
    requires Absorbed(xs, ys) && Absorbed(ys, xs)
    ensures R2(xs, other) == R2(ys, other) && R2(other, xs) == R2(other, ys)
  {
    assert Cells(xs, CANVAS_SIZE) == Cells(ys, CANVAS_SIZE) by {
      AbsorbedCells(xs, ys);
      AbsorbedCells(ys, xs);
    }
  }

  lemma {:induction false} AbsorbedCells(xs: seq<Box>, ys: seq<Box>)
    requires Absorbed(xs, ys)
    ensures Cells(xs, CANVAS_SIZE) <= Cells(ys, CANVAS_SIZE)
  {
    forall y, x | Covered(xs, CANVAS_SIZE, y, x)
      ensures Covered(ys, CANVAS_SIZE, y, x)
    {
      var i :| 0 <= i < |xs| && Covers(xs[i], CANVAS_SIZE, y, x);
      var j :| 0 <= j < |ys| && Within(xs[i], ys[j]);
      assert Covers(ys[j], CANVAS_SIZE, y, x);
    }
  }

  // ---------------------------------------------------------------- R2 against the analytic IoU

  ghost function Grid(y1: int, y2: int, x1: int, x2: int): set<(int, int)> {
    set y, x | y1 <= y < y2 && x1 <= x < x2 :: (y, x)
  }

  lemma {:induction false} RowCard(y: int, x1: int, x2: int)
    requires x1 <= x2
    ensures |Grid(y, y + 1, x1, x2)| == x2 - x1
    decreases x2 - x1
  {
    if x1 == x2 {
      assert Grid(y, y + 1, x1, x2) == {};
    } else {
      RowCard(y, x1, x2 - 1);
      assert Grid(y, y + 1, x1, x2) == Grid(y, y + 1, x1, x2 - 1) + {(y, x2 - 1)};
    }
  }

  lemma {:induction false} GridCard(y1: int, y2: int, x1: int, x2: int)
    requires y1 <= y2 && x1 <= x2
    ensures |Grid(y1, y2, x1, x2)| == (y2 - y1) * (x2 - x1)
    decreases y2 - y1
  {
    if y1 == y2 {
      assert Grid(y1, y2, x1, x2) == {};
    } else {
      GridCard(y1, y2 - 1, x1, x2);
      RowCard(y2 - 1, x1, x2);
      assert Grid(y1, y2, x1, x2) == Grid(y1, y2 - 1, x1, x2) + Grid(y2 - 1, y2 - 1 + 1, x1, x2);
      assert Grid(y1, y2 - 1, x1, x2) !! Grid(y2 - 1, y2 - 1 + 1, x1, x2);
      assert (y2 - y1) * (x2 - x1) == (y2 - 1 - y1) * (x2 - x1) + (x2 - x1);
    }
  }

  lemma {:induction false} GridSize(y1: int, y2: int, x1: int, x2: int)
    ensures |Grid(y1, y2, x1, x2)| == Max(0, y2 - y1) * Max(0, x2 - x1)
  {
    if y1 <= y2 && x1 <= x2 {
      GridCard(y1, y2, x1, x2);
    } else {
      assert Grid(y1, y2, x1, x2) == {};
    }
  }

  datatype IntBox = IntBox(x1: int, y1: int, x2: int, y2: int)

  predicate IntOnCanvas(b: IntBox) {
    && 0 <= b.x1 <= CANVAS_SIZE && 0 <= b.y1 <= CANVAS_SIZE
    && 0 <= b.x2 <= CANVAS_SIZE && 0 <= b.y2 <= CANVAS_SIZE
  }

  function ToBox(b: IntBox): Box {
    Box(b.x1 as real, b.y1 as real, b.x2 as real, b.y2 as real)
  }

  lemma {:induction false} SingleCells(b: IntBox)
    requires IntOnCanvas(b)
    ensures Cells([ToBox(b)], CANVAS_SIZE) == Grid(b.y1, b.y2, b.x1, b.x2)
  {
    forall y, x
      ensures Covered([ToBox(b)], CANVAS_SIZE, y, x) <==> b.y1 <= y < b.y2 && b.x1 <= x < b.x2
    {
      assert Covered([ToBox(b)], CANVAS_SIZE, y, x) <==> Covers([ToBox(b)][0], CANVAS_SIZE, y, x);
    }
  }

  lemma {:induction false} RealProduct(a: int, b: int)
    ensures MaxR(0.0, a as real) * MaxR(0.0, b as real) == (Max(0, a) * Max(0, b)) as real
  {
    RealMul(Max(0, a), Max(0, b));
  }

  lemma {:induction false} RealMul(a: nat, b: nat)
    ensures a as real * b as real == (a * b) as real
    decreases a
  {
    if a > 0 {
      RealMul(a - 1, b);
      assert (a - 1) * b == a * b - b;
      assert (a - 1) as real == a as real - 1.0;
    }
  }

  lemma {:induction false} GridMeet(a: IntBox, b: IntBox)
    ensures Grid(a.y1, a.y2, a.x1, a.x2) * Grid(b.y1, b.y2, b.x1, b.x2)
         == Grid(Max(a.y1, b.y1), Min(a.y2, b.y2), Max(a.x1, b.x1), Min(a.x2, b.x2))
  {
  }

  lemma {:induction false} SpanOfInts(lo1: int, hi1: int, lo2: int, hi2: int)
    ensures MinR(hi1 as real, hi2 as real) - MaxR(lo1 as real, lo2 as real)
         == (Min(hi1, hi2) - Max(lo1, lo2)) as real
  {
  }

  lemma {:induction false} OverlapOfInts(a: IntBox, b: IntBox)
    ensures Overlap(ToBox(a), ToBox(b))
         == MaxR(0.0, (Min(a.x2, b.x2) - Max(a.x1, b.x1)) as real)
          * MaxR(0.0, (Min(a.y2, b.y2) - Max(a.y1, b.y1)) as real)
  {
    SpanOfInts(a.x1, a.x2, b.x1, b.x2);
    SpanOfInts(a.y1, a.y2, b.y1, b.y2);
  }

  lemma {:induction false} GridCount(y1: int, y2: int, x1: int, x2: int)
    ensures MaxR(0.0, (x2 - x1) as real) * MaxR(0.0, (y2 - y1) as real) == |Grid(y1, y2, x1, x2)| as real
  {
    GridSize(y1, y2, x1, x2);
    RealProduct(x2 - x1, y2 - y1);
    assert Max(0, x2 - x1) * Max(0, y2 - y1) == Max(0, y2 - y1) * Max(0, x2 - x1);
  }

  /** The overlap of two integer boxes is the number of cells both paint. */
  lemma {:induction false} OverlapIsCount(a: IntBox, b: IntBox)
    ensures Overlap(ToBox(a), ToBox(b)) == |Grid(a.y1, a.y2, a.x1, a.x2) * Grid(b.y1, b.y2, b.x1, b.x2)| as real
  {
    OverlapOfInts(a, b);
    GridMeet(a, b);
    GridCount(Max(a.y1, b.y1), Min(a.y2, b.y2), Max(a.x1, b.x1), Min(a.x2, b.x2));
  }

  /** Union IoU of two finite cell sets, from the three counts the analytic form uses. */
  lemma {:induction false} UnionIouByCounts(g: set<(int, int)>, p: set<(int, int)>)
    requires |g| > 0 || |p| > 0
    ensures var inter := |g * p| as real;
      UnionIou(g, p) == if inter == 0.0 then 0.0 else inter / (|g| as real + |p| as real - inter)
    ensures 0.0 < |g| as real + |p| as real - |g * p| as real
  {
    assert |g + p| == |g| + |p| - |g * p|;
    SubsetCard(g, g + p);
    SubsetCard(p, g + p);
  }

  /** For one integer box against another, painting gives the analytic IoU exactly when
      at least one of them paints something; two empty boxes score 1 against an IoU of 0. */
  lemma {:induction false} R2IsIouIff(a: IntBox, b: IntBox)
    requires IntOnCanvas(a) && IntOnCanvas(b)
    ensures R2([ToBox(a)], [ToBox(b)]) == Iou(ToBox(a), ToBox(b))
       <==> Proper(ToBox(a)) || Proper(ToBox(b))
  {
    var g, p := Grid(a.y1, a.y2, a.x1, a.x2), Grid(b.y1, b.y2, b.x1, b.x2);
    SingleCells(a);
    SingleCells(b);
    AreaIsCount(a);
    AreaIsCount(b);
    OverlapIsCount(a, b);
    if |g| > 0 || |p| > 0 {
      UnionIouByCounts(g, p);
    } else {
      assert g + p == {};
      SubsetCard(g * p, g);
    }
  }

  /** A box's area is the number of cells it paints. */
  lemma {:induction false} AreaIsCount(a: IntBox)
    ensures Area(ToBox(a)) == |Grid(a.y1, a.y2, a.x1, a.x2)| as real
    ensures Proper(ToBox(a)) <==> |Grid(a.y1, a.y2, a.x1, a.x2)| > 0
  {
    GridSize(a.y1, a.y2, a.x1, a.x2);
    RealProduct(a.x2 - a.x1, a.y2 - a.y1);
    assert Max(0, a.x2 - a.x1) * Max(0, a.y2 - a.y1) == Max(0, a.y2 - a.y1) * Max(0, a.x2 - a.x1);
    if Proper(ToBox(a)) {
      assert (a.y1, a.x1) in Grid(a.y1, a.y2, a.x1, a.x2);
    }
  }
}
