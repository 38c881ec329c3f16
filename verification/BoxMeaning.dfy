/** What the box scores mean, said without the functions that compute them: which cells a box paints,
    the two IoUs as shares of counted cells, and the class-two score as a best sum of IoUs. */
module BoxMeaning {
  import opened Prelude
  import opened Boxes
  import opened Assignment

  // ---------------------------------------------------------------- clamping and painting

  /** Clamping goes to the nearest value of the range. */
  lemma {:induction false} ClampIsNearest(v: real, lo: real, hi: real, w: real)
    requires lo <= w <= hi
    ensures var c := Clamp(v, lo, hi);
      lo <= c <= hi && (v <= w ==> v <= c <= w || c == lo) && (w <= v ==> w <= c <= v || c == hi)
    ensures lo <= v <= hi ==> Clamp(v, lo, hi) == v
    ensures v <= lo ==> Clamp(v, lo, hi) == lo
    ensures hi <= v ==> Clamp(v, lo, hi) == hi
  {
  }

  /** Truncation goes toward zero, to an integer less than 1 away. */
  lemma {:induction false} TruncTowardZero(v: real)
    ensures v >= 0.0 ==> 0 <= Trunc(v) && Trunc(v) as real <= v < Trunc(v) as real + 1.0
    ensures v <= 0.0 ==> Trunc(v) <= 0 && Trunc(v) as real - 1.0 < v <= Trunc(v) as real
  {
    assert (-v).Floor as real <= -v < (-v).Floor as real + 1.0;
  }

  /** A box paints a canvas cell exactly when the cell's far corner lies in it. */
  lemma {:induction false} CoversIff(b: Box, size: nat, y: int, x: int)
    ensures Covers(b, size, y, x)
       <==> && 0 <= y < size && b.y1 < (y + 1) as real <= b.y2
            && 0 <= x < size && b.x1 < (x + 1) as real <= b.x2
  {
    SpanIff(b.x1, b.x2, size, x);
    SpanIff(b.y1, b.y2, size, y);
  }

  lemma {:induction false} SpanIff(lo: real, hi: real, size: nat, x: int)
    ensures ClampCell(Trunc(lo), size) <= x < ClampCell(Trunc(hi), size)
       <==> 0 <= x < size && lo < (x + 1) as real <= hi
  {
    TruncTowardZero(lo);
    TruncTowardZero(hi);
  }

  /** The far corner of the cell lies in the box, far edges included. */
  predicate FarCornerIn(b: Box, y: int, x: int) {
    b.y1 < (y + 1) as real <= b.y2 && b.x1 < (x + 1) as real <= b.x2
  }

  /** The painted cells are the canvas cells whose far corner lies in some box. */
  lemma {:induction false} PaintedIff(bs: seq<Box>, size: nat, y: int, x: int)
    ensures (y, x) in Cells(bs, size)
       <==> 0 <= y < size && 0 <= x < size && exists i :: 0 <= i < |bs| && FarCornerIn(bs[i], y, x)
  {
    if i :| 0 <= i < |bs| && FarCornerIn(bs[i], y, x) {
      CoversIff(bs[i], size, y, x);
    }
    if (y, x) in Cells(bs, size) {
      var i :| 0 <= i < |bs| && Covers(bs[i], size, y, x);
      CoversIff(bs[i], size, y, x);
      assert FarCornerIn(bs[i], y, x);
    }
  }

  // ---------------------------------------------------------------- the two IoUs as shares

  /** R2 is the share of the painted cells that both lists paint; two blank canvases agree. */
  lemma {:induction false} R2IsShare(gt: seq<Box>, pred: seq<Box>)
    ensures var g, p := Cells(gt, 1000), Cells(pred, 1000);
      R2(gt, pred) == if g + p == {} then 1.0 else |g * p| as real / |g + p| as real
  {
    var g, p := Cells(gt, CANVAS_SIZE), Cells(pred, CANVAS_SIZE);
    assert |g + p| == 0 <==> g + p == {};
  }

  /** The IoU of integer boxes is the share of the cells in both among those in either. */
  lemma {:induction false} IntIouIsShare(a: IntBox, b: IntBox)
    ensures var g, p := Grid(a.y1, a.y2, a.x1, a.x2), Grid(b.y1, b.y2, b.x1, b.x2);
      Iou(ToBox(a), ToBox(b)) == if g * p == {} then 0.0 else |g * p| as real / |g + p| as real
  {
    var g, p := Grid(a.y1, a.y2, a.x1, a.x2), Grid(b.y1, b.y2, b.x1, b.x2);
    AreaIsCount(a);
    AreaIsCount(b);
    OverlapIsCount(a, b);
    if g * p != {} {
      SubsetCard(g * p, g);
      SubsetCard(g * p, p);
      UnionCount(g, p);
    }
  }

  lemma {:induction false} UnionCount(g: set<(int, int)>, p: set<(int, int)>)
    ensures |g + p| as real == |g| as real + |p| as real - |g * p| as real
  {
    assert |g + p| == |g| + |p| - |g * p|;
  }

  // ---------------------------------------------------------------- the class-two score

  /** The IoUs of the pairs, summed. */
  function IouSum(gt: seq<Box>, pred: seq<Box>, m: seq<Pair>): real
    requires forall i :: 0 <= i < |m| ==> m[i].row < |gt| && m[i].col < |pred|
  {
    if m == [] then 0.0
    else
      var n := |m| - 1;
      IouSum(gt, pred, m[..n]) + Iou(gt[m[n].row], pred[m[n].col])
  }

  lemma {:induction false} TotalIsIouSum(gt: seq<Box>, pred: seq<Box>, m: seq<Pair>)
    requires forall i :: 0 <= i < |m| ==> m[i].row < |gt| && m[i].col < |pred|
    ensures Total(IouMatrix(gt, pred), m) == IouSum(gt, pred, m)
    decreases |m|
  {
    if m != [] {
      var n := |m| - 1;
      TotalIsIouSum(gt, pred, m[..n]);
      TotalSnoc(IouMatrix(gt, pred), m[..n], m[n]);
      assert m == m[..n] + [m[n]];
    }
  }

  function Longer(n: nat, k: nat): real {
    if n >= k then n as real else k as real
  }

  /** The score is the sum of the matched IoUs over the longer length. */
  lemma {:induction false} ScoreIsShare(gt: seq<Box>, pred: seq<Box>, m: seq<Pair>)
    requires gt != [] && pred != [] && OneToOne(m, |gt|, |pred|)
    ensures Score(gt, pred, m) == IouSum(gt, pred, m) / Longer(|gt|, |pred|)
  {
    TotalIsIouSum(gt, pred, m);
  }

  /** No one-to-one pairing of the boxes, of whatever size, has a larger sum than the matched one. */
  lemma {:induction false} MatchedSumIsBest(gt: seq<Box>, pred: seq<Box>, m: seq<Pair>, other: seq<Pair>)
    requires Best(gt, pred, m) && OneToOne(other, |gt|, |pred|)
    ensures IouSum(gt, pred, other) <= IouSum(gt, pred, m)
  {
    TotalIsIouSum(gt, pred, m);
    TotalIsIouSum(gt, pred, other);
    IouMatrixUnit(gt, pred);
    BeatsPartial(IouMatrix(gt, pred), |gt|, |pred|, m, other);
  }

  /** Only box `i` of one side and box `j` of the other overlap, and they are the same proper box. */
  ghost predicate OneExactPair(gt: seq<Box>, pred: seq<Box>, i: nat, j: nat) {
    && i < |gt| && j < |pred| && gt[i] == pred[j] && Proper(gt[i])
    && forall r, c :: 0 <= r < |gt| && 0 <= c < |pred| && (r != i || c != j) ==> Overlap(gt[r], pred[c]) == 0.0
  }

  lemma {:induction false} OnePairIou(gt: seq<Box>, pred: seq<Box>, i: nat, j: nat, x: Pair)
    requires OneExactPair(gt, pred, i, j) && x.row < |gt| && x.col < |pred|
    ensures Iou(gt[x.row], pred[x.col]) == if x == Pair(i, j) then 1.0 else 0.0
  {
    if x == Pair(i, j) {
      IouOneIff(gt[i], pred[j]);
    } else {
      assert Overlap(gt[x.row], pred[x.col]) == 0.0;
    }
  }

  lemma {:induction false} OnePairSum(gt: seq<Box>, pred: seq<Box>, i: nat, j: nat, m: seq<Pair>)
    requires OneExactPair(gt, pred, i, j) && OneToOne(m, |gt|, |pred|)
    ensures IouSum(gt, pred, m) == if Pair(i, j) in m then 1.0 else 0.0
    decreases |m|
  {
    if m != [] {
      var n := |m| - 1;
      InitOneToOne(m, |gt|, |pred|);
      OnePairSum(gt, pred, i, j, m[..n]);
      OnePairIou(gt, pred, i, j, m[n]);
      LastIsNew(m, |gt|, |pred|, Pair(i, j));
    }
  }

  lemma {:induction false} InitOneToOne(m: seq<Pair>, rows: nat, cols: nat)
    requires m != [] && OneToOne(m, rows, cols)
    ensures OneToOne(m[..|m| - 1], rows, cols) && m[|m| - 1].row < rows && m[|m| - 1].col < cols
  {
  }

  lemma {:induction false} LastIsNew(m: seq<Pair>, rows: nat, cols: nat, x: Pair)
    requires m != [] && OneToOne(m, rows, cols)
    ensures m[|m| - 1] == x ==> x !in m[..|m| - 1]
    ensures x in m <==> x in m[..|m| - 1] || x == m[|m| - 1]
  {
    assert m == m[..|m| - 1] + [m[|m| - 1]];
  }

  /** One exact pair and no other overlap score one over the longer length. */
  lemma {:induction false} OneExactPairScore(gt: seq<Box>, pred: seq<Box>, i: nat, j: nat, m: seq<Pair>)
    requires OneExactPair(gt, pred, i, j) && Best(gt, pred, m)
    ensures Score(gt, pred, m) == 1.0 / Longer(|gt|, |pred|)
  {
    ScoreIsShare(gt, pred, m);
    MatchedSumIsBest(gt, pred, m, [Pair(i, j)]);
    OnePairSum(gt, pred, i, j, m);
    OnePairSum(gt, pred, i, j, [Pair(i, j)]);
    assert Pair(i, j) in [Pair(i, j)];
  }
}
