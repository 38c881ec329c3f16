/** One-to-one matching of ground-truth and predicted boxes by total IoU, and the
    class-two reward built on it (json_answer_reward.py). scipy's
    linear_sum_assignment is the parameter `solve`, known only to be optimal. */
module Assignment {
  import opened Prelude
  import opened Boxes
  import opened Permutations

  type Matrix = seq<seq<real>>

  datatype Pair = Pair(row: nat, col: nat)

  type Solver = Matrix -> seq<Pair>

  function At(w: Matrix, x: Pair): real {
    if x.row < |w| && x.col < |w[x.row]| then w[x.row][x.col] else 0.0
  }

  function Total(w: Matrix, m: seq<Pair>): real {
    if m == [] then 0.0 else At(w, m[0]) + Total(w, m[1..])
  }

  ghost predicate OneToOne(m: seq<Pair>, rows: nat, cols: nat) {
    && (forall i :: 0 <= i < |m| ==> m[i].row < rows && m[i].col < cols)
    && (forall i, j :: 0 <= i < j < |m| ==> m[i].row != m[j].row && m[i].col != m[j].col)
  }

  /** What scipy promises: one-to-one, of size min(rows, cols), of maximum total weight. */
  ghost predicate Optimal(w: Matrix, rows: nat, cols: nat, m: seq<Pair>) {
    && OneToOne(m, rows, cols) && |m| == Min(rows, cols)
    && forall other: seq<Pair> :: OneToOne(other, rows, cols) && |other| == Min(rows, cols)
                                  ==> Total(w, other) <= Total(w, m)
  }

  function IouMatrix(gt: seq<Box>, pred: seq<Box>): Matrix {
    seq(|gt|, i requires 0 <= i < |gt| => seq(|pred|, j requires 0 <= j < |pred| => Iou(gt[i], pred[j])))
  }

  ghost predicate Best(gt: seq<Box>, pred: seq<Box>, m: seq<Pair>) {
    Optimal(IouMatrix(gt, pred), |gt|, |pred|, m)
  }

  // ---------------------------------------------------------------- filling the matrix

  function RowOf(a: array2<real>, i: nat): (r: seq<real>)
    requires i < a.Length0
    reads a
    ensures |r| == a.Length1 && forall j :: 0 <= j < a.Length1 ==> r[j] == a[i, j]
  {
    seq(a.Length1, j requires 0 <= j < a.Length1 reads a => a[i, j])
  }

  function RowsFrom(a: array2<real>, i: nat): (r: Matrix)
    requires i <= a.Length0
    reads a
    ensures |r| == a.Length0 - i
    ensures forall x :: i <= x < a.Length0 ==> r[x - i] == RowOf(a, x)
    decreases a.Length0 - i
  {
    if i == a.Length0 then [] else [RowOf(a, i)] + RowsFrom(a, i + 1)
  }

  method FillIouMatrix(gt: seq<Box>, pred: seq<Box>) returns (a: array2<real>)
    ensures fresh(a) && a.Length0 == |gt| && a.Length1 == |pred|
    ensures RowsFrom(a, 0) == IouMatrix(gt, pred)
  {
    a := new real[|gt|, |pred|]((i, j) => 0.0);
    for i := 0 to |gt|
      invariant forall x, y :: 0 <= x < i && 0 <= y < |pred| ==> a[x, y] == Iou(gt[x], pred[y])
    {
      for j := 0 to |pred|
        invariant forall x, y :: 0 <= x < i && 0 <= y < |pred| ==> a[x, y] == Iou(gt[x], pred[y])
        invariant forall y :: 0 <= y < j ==> a[i, y] == Iou(gt[i], pred[y])
      {
        a[i, j] := Iou(gt[i], pred[j]);
      }
    }
    forall i | 0 <= i < |gt| ensures RowsFrom(a, 0)[i] == IouMatrix(gt, pred)[i] {
      assert RowsFrom(a, 0)[i - 0] == RowOf(a, i);
      assert forall j :: 0 <= j < |pred| ==> RowOf(a, i)[j] == Iou(gt[i], pred[j]);
    }
  }

  datatype Match = Match(gt: nat, pred: nat, iou: real)

  function Matched(w: Matrix, m: seq<Pair>): seq<Match> {
    seq(|m|, i requires 0 <= i < |m| => Match(m[i].row, m[i].col, At(w, m[i])))
  }

  /** The matching the reward uses: nothing when a side is empty, the solver's otherwise. */
  function HungarianMatch(gt: seq<Box>, pred: seq<Box>, solve: Solver): seq<Match> {
    if gt == [] || pred == [] then []
    else Matched(IouMatrix(gt, pred), solve(IouMatrix(gt, pred)))
  }

  method ComputeHungarianMatch(gt: seq<Box>, pred: seq<Box>, solve: Solver) returns (matches: seq<Match>)
    ensures matches == HungarianMatch(gt, pred, solve)
  {
    if |gt| == 0 || |pred| == 0 {
      return [];
    }
    var a := FillIouMatrix(gt, pred);
    var w := RowsFrom(a, 0);
    return Matched(w, solve(w));
  }

  function Share(total: real, n: nat, k: nat): real
    requires n > 0
  {
    total / Max(n, k) as real
  }

  /** Class two: matched IoU over the longer list. */
  function Score(gt: seq<Box>, pred: seq<Box>, m: seq<Pair>): real {
    if gt == [] || pred == [] then 0.0
    else Share(Total(IouMatrix(gt, pred), m), |gt|, |pred|)
  }

  function HungarianScore(gt: seq<Box>, pred: seq<Box>, solve: Solver): real {
    Score(gt, pred, solve(IouMatrix(gt, pred)))
  }

  method ScoreHungarianIou(gt: seq<Box>, pred: seq<Box>, solve: Solver) returns (r: real)
    ensures r == HungarianScore(gt, pred, solve)
  {
    var n, m := |gt|, |pred|;
    if n == 0 || m == 0 {
      return 0.0;
    }
    var a := FillIouMatrix(gt, pred);
    var w := RowsFrom(a, 0);
    return Total(w, solve(w)) / Max(n, m) as real;
  }

  // ---------------------------------------------------------------- totals

  lemma {:induction false} TotalPointwise(w: Matrix, m: seq<Pair>, v: Matrix, k: seq<Pair>)
    requires |m| == |k| && forall i :: 0 <= i < |m| ==> At(w, m[i]) == At(v, k[i])
    ensures Total(w, m) == Total(v, k)
  {
    if m != [] {
      TotalPointwise(w, m[1..], v, k[1..]);
    }
  }

  ghost predicate UnitWeights(w: Matrix) {
    forall x :: 0.0 <= At(w, x) <= 1.0
  }

  lemma {:induction false} TotalBounds(w: Matrix, m: seq<Pair>)
    requires UnitWeights(w)
    ensures 0.0 <= Total(w, m) <= |m| as real
    ensures Total(w, m) == |m| as real <==> forall i :: 0 <= i < |m| ==> At(w, m[i]) == 1.0
  {
    if m != [] {
      TotalBounds(w, m[1..]);
      assert At(w, m[0]) <= 1.0;
      if forall i :: 0 <= i < |m[1..]| ==> At(w, m[1..][i]) == 1.0 {
        forall i | 1 <= i < |m| ensures At(w, m[i]) == 1.0 {
          assert m[1..][i - 1] == m[i];
        }
      }
      if forall i :: 0 <= i < |m| ==> At(w, m[i]) == 1.0 {
        assert At(w, m[0]) == 1.0;
      }
    }
  }

  lemma {:induction false} TotalSnoc(w: Matrix, m: seq<Pair>, x: Pair)
    ensures Total(w, m + [x]) == Total(w, m) + At(w, x)
  {
    if m == [] {
      assert m + [x] == [x];
    } else {
      assert (m + [x])[1..] == m[1..] + [x];
      TotalSnoc(w, m[1..], x);
    }
  }

  lemma {:induction false} IouMatrixAt(gt: seq<Box>, pred: seq<Box>, x: Pair)
    requires x.row < |gt| && x.col < |pred|
    ensures At(IouMatrix(gt, pred), x) == Iou(gt[x.row], pred[x.col])
  {
  }

  lemma {:induction false} IouMatrixUnit(gt: seq<Box>, pred: seq<Box>)
    ensures UnitWeights(IouMatrix(gt, pred))
  {
    forall x ensures 0.0 <= At(IouMatrix(gt, pred), x) <= 1.0 {
      if x.row < |gt| && x.col < |pred| {
        IouRange(gt[x.row], pred[x.col]);
      }
    }
  }

  // ---------------------------------------------------------------- optimality against partial matchings

  function RowsOf(m: seq<Pair>): seq<nat> {
    seq(|m|, i requires 0 <= i < |m| => m[i].row)
  }

  lemma {:induction false} EveryRowUsed(m: seq<Pair>, rows: nat, cols: nat, r: nat)
    requires OneToOne(m, rows, cols) && |m| == rows && r < rows
    ensures exists i :: 0 <= i < |m| && m[i].row == r
  {
    Pigeonhole(RowsOf(m), rows);
    assert r in RowsOf(m);
    var i :| 0 <= i < |m| && RowsOf(m)[i] == r;
    assert m[i].row == r;
  }

  function ColsOf(m: seq<Pair>): seq<nat> {
    seq(|m|, i requires 0 <= i < |m| => m[i].col)
  }

  lemma {:induction false} SizeLimit(m: seq<Pair>, rows: nat, cols: nat)
    requires OneToOne(m, rows, cols)
    ensures |m| <= Min(rows, cols)
  {
    Pigeonhole(RowsOf(m), rows);
    Pigeonhole(ColsOf(m), cols);
  }

  lemma {:induction false} Extend(m: seq<Pair>, rows: nat, cols: nat) returns (x: Pair)
    requires OneToOne(m, rows, cols) && |m| < Min(rows, cols)
    ensures OneToOne(m + [x], rows, cols)
  {
    Pigeonhole(RowsOf(m), rows);
    Pigeonhole(ColsOf(m), cols);
    var r :| 0 <= r < rows && r !in RowsOf(m);
    var c :| 0 <= c < cols && c !in ColsOf(m);
    x := Pair(r, c);
    forall i | 0 <= i < |m| ensures m[i].row != r && m[i].col != c {
      assert RowsOf(m)[i] == m[i].row && ColsOf(m)[i] == m[i].col;
    }
  }

  /** With non-negative weights an optimal assignment beats every partial matching too. */
  lemma {:induction false} BeatsPartial(w: Matrix, rows: nat, cols: nat, best: seq<Pair>, m: seq<Pair>)
    requires UnitWeights(w) && Optimal(w, rows, cols, best) && OneToOne(m, rows, cols)
    ensures Total(w, m) <= Total(w, best)
    decreases Min(rows, cols) - |m|
  {
    SizeLimit(m, rows, cols);
    if |m| < Min(rows, cols) {
      var x := Extend(m, rows, cols);
      TotalSnoc(w, m, x);
      assert At(w, x) >= 0.0;
      BeatsPartial(w, rows, cols, best, m + [x]);
    }
  }

  // ---------------------------------------------------------------- laws of the class-two score

  lemma {:induction false} ScoreRange(gt: seq<Box>, pred: seq<Box>, m: seq<Pair>)
    requires Best(gt, pred, m)
    ensures 0.0 <= Score(gt, pred, m) <= 1.0
  {
    IouMatrixUnit(gt, pred);
    TotalBounds(IouMatrix(gt, pred), m);
    if gt != [] && pred != [] {
      DivBounds(Total(IouMatrix(gt, pred), m), Max(|gt|, |pred|) as real);
    }
  }

  /** `m` carried over to lists read through the index maps `p` and `q`. */
  function Relabel(m: seq<Pair>, p: seq<nat>, q: seq<nat>): seq<Pair>
    requires forall i :: 0 <= i < |m| ==> m[i].row < |p| && m[i].col < |q|
  {
    seq(|m|, i requires 0 <= i < |m| => Pair(p[m[i].row], q[m[i].col]))
  }

  lemma {:induction false} RelabelOneToOne(m: seq<Pair>, p: seq<nat>, q: seq<nat>, rows: nat, cols: nat)
    requires OneToOne(m, |p|, |q|) && Injective(p) && Injective(q) && Below(p, rows) && Below(q, cols)
    ensures OneToOne(Relabel(m, p, q), rows, cols)
  {
    var k := Relabel(m, p, q);
    forall i, j | 0 <= i < j < |k| ensures k[i].row != k[j].row && k[i].col != k[j].col {
      assert m[i].row != m[j].row && m[i].col != m[j].col;
    }
  }

  lemma {:induction false} PermutedTotalLe(gt: seq<Box>, pred: seq<Box>, m: seq<Pair>, gt': seq<Box>,
        pred': seq<Box>, m': seq<Pair>)
    requires multiset(gt) == multiset(gt') && multiset(pred) == multiset(pred')
    requires Best(gt, pred, m) && Best(gt', pred', m')
    ensures Total(IouMatrix(gt, pred), m) <= Total(IouMatrix(gt', pred'), m')
  {
    var p := FindPermutation(gt, gt');
    var q := FindPermutation(pred, pred');
    var k := Relabel(m, p, q);
    RelabelOneToOne(m, p, q, |gt'|, |pred'|);
    forall i | 0 <= i < |m| ensures At(IouMatrix(gt, pred), m[i]) == At(IouMatrix(gt', pred'), k[i]) {
      IouMatrixAt(gt, pred, m[i]);
      IouMatrixAt(gt', pred', k[i]);
    }
    TotalPointwise(IouMatrix(gt, pred), m, IouMatrix(gt', pred'), k);
    IouMatrixUnit(gt', pred');
    BeatsPartial(IouMatrix(gt', pred'), |gt'|, |pred'|, m', k);
  }

  lemma {:induction false} SameElementsSameLength<T>(xs: seq<T>, ys: seq<T>)
    requires multiset(xs) == multiset(ys)
    ensures |xs| == |ys|
  {
    var p := FindPermutation(xs, ys);
  }

  /** Listing either side in another order does not change the score. */
  lemma {:induction false} ScoreIgnoresOrder(gt: seq<Box>, pred: seq<Box>, m: seq<Pair>, gt': seq<Box>,
        pred': seq<Box>, m': seq<Pair>)
    requires multiset(gt) == multiset(gt') && multiset(pred) == multiset(pred')
    requires Best(gt, pred, m) && Best(gt', pred', m')
    ensures Score(gt, pred, m) == Score(gt', pred', m')
  {
    SameElementsSameLength(gt, gt');
    SameElementsSameLength(pred, pred');
    PermutedTotalLe(gt, pred, m, gt', pred', m');
    PermutedTotalLe(gt', pred', m', gt, pred, m);
  }

  function Flip(m: seq<Pair>): seq<Pair> {
    seq(|m|, i requires 0 <= i < |m| => Pair(m[i].col, m[i].row))
  }

  lemma {:induction false} SwappedTotalLe(gt: seq<Box>, pred: seq<Box>, m: seq<Pair>, m': seq<Pair>)
    requires Best(gt, pred, m) && Best(pred, gt, m')
    ensures Total(IouMatrix(gt, pred), m) <= Total(IouMatrix(pred, gt), m')
  {
    var k := Flip(m);
    forall i | 0 <= i < |m| ensures At(IouMatrix(gt, pred), m[i]) == At(IouMatrix(pred, gt), k[i]) {
      IouMatrixAt(gt, pred, m[i]);
      IouMatrixAt(pred, gt, k[i]);
      IouSymmetric(gt[m[i].row], pred[m[i].col]);
    }
    TotalPointwise(IouMatrix(gt, pred), m, IouMatrix(pred, gt), k);
    IouMatrixUnit(pred, gt);
    BeatsPartial(IouMatrix(pred, gt), |pred|, |gt|, m', k);
  }

  /** Ground truth and prediction may change places. */
  lemma {:induction false} ScoreSymmetric(gt: seq<Box>, pred: seq<Box>, m: seq<Pair>, m': seq<Pair>)
    requires Best(gt, pred, m) && Best(pred, gt, m')
    ensures Score(gt, pred, m) == Score(pred, gt, m')
  {
    SwappedTotalLe(gt, pred, m, m');
    SwappedTotalLe(pred, gt, m', m);
  }

  /** A full one-to-one matching between equal boxes makes the lists permutations of each other. */
  lemma {:induction false} MatchedListsAgree(gt: seq<Box>, pred: seq<Box>, m: seq<Pair>)
    requires |gt| == |pred| == |m| && OneToOne(m, |gt|, |pred|)
    requires forall i :: 0 <= i < |m| ==> gt[m[i].row] == pred[m[i].col]
    ensures multiset(gt) == multiset(pred)
  {
    ReindexKeepsElements(gt, RowsOf(m));
    ReindexKeepsElements(pred, ColsOf(m));
    assert Reindex(gt, RowsOf(m)) == Reindex(pred, ColsOf(m));
  }

  lemma {:induction false} AllMatchedProper(gt: seq<Box>, m: seq<Pair>, cols: nat)
    requires |gt| == |m| && OneToOne(m, |gt|, cols)
    requires forall i :: 0 <= i < |m| ==> Proper(gt[m[i].row])
    ensures forall r :: 0 <= r < |gt| ==> Proper(gt[r])
  {
    forall r | 0 <= r < |gt| ensures Proper(gt[r]) {
      EveryRowUsed(m, |gt|, cols, r);
    }
  }

  /** The perfect score means exactly: non-empty, proper boxes, and the same boxes on both sides. */
  lemma {:induction false} ScoreOneIff(gt: seq<Box>, pred: seq<Box>, m: seq<Pair>)
    requires Best(gt, pred, m)
    ensures Score(gt, pred, m) == 1.0
       <==> gt != [] && multiset(gt) == multiset(pred) && forall i :: 0 <= i < |gt| ==> Proper(gt[i])
  {
    var w := IouMatrix(gt, pred);
    IouMatrixUnit(gt, pred);
    TotalBounds(w, m);
    if gt != [] && pred != [] {
      DivBounds(Total(w, m), Max(|gt|, |pred|) as real);
    }
    if Score(gt, pred, m) == 1.0 {
      forall i | 0 <= i < |m| ensures gt[m[i].row] == pred[m[i].col] && Proper(gt[m[i].row]) {
        IouMatrixAt(gt, pred, m[i]);
        IouOneIff(gt[m[i].row], pred[m[i].col]);
      }
      MatchedListsAgree(gt, pred, m);
      AllMatchedProper(gt, m, |pred|);
    }
    if gt != [] && multiset(gt) == multiset(pred) && forall i :: 0 <= i < |gt| ==> Proper(gt[i]) {
      var p := FindPermutation(gt, pred);
      var k := seq(|gt|, i requires 0 <= i < |gt| => Pair(i, p[i]));
      forall i | 0 <= i < |k| ensures At(w, k[i]) == 1.0 {
        IouMatrixAt(gt, pred, k[i]);
        IouOneIff(gt[i], pred[p[i]]);
      }
      TotalBounds(w, k);
      BeatsPartial(w, |gt|, |pred|, m, k);
    }
  }

  function DropCol(m: seq<Pair>, col: nat): (r: seq<Pair>)
    ensures forall x :: x in r <==> x in m && x.col != col
  {
    if m == [] then []
    else if m[0].col == col then DropCol(m[1..], col)
    else [m[0]] + DropCol(m[1..], col)
  }

  lemma {:induction false} ConsOneToOne(x: Pair, r: seq<Pair>, rows: nat, cols: nat)
    requires OneToOne(r, rows, cols) && x.row < rows && x.col < cols
    requires forall y :: y in r ==> y.row != x.row && y.col != x.col
    ensures OneToOne([x] + r, rows, cols)
  {
  }

  lemma {:induction false} DropColOneToOne(m: seq<Pair>, rows: nat, cols: nat)
    requires OneToOne(m, rows, cols + 1)
    ensures OneToOne(DropCol(m, cols), rows, cols)
  {
    if m != [] {
      DropColOneToOne(m[1..], rows, cols);
      if m[0].col != cols {
        var r := DropCol(m[1..], cols);
        forall y | y in r ensures y.row != m[0].row && y.col != m[0].col {
          assert y in m[1..];
        }
        ConsOneToOne(m[0], r, rows, cols);
      }
    }
  }

  lemma {:induction false} ExtraColumn(gt: seq<Box>, pred: seq<Box>, extra: Box, x: Pair)
    requires x.row < |gt| && x.col <= |pred| && Iou(gt[x.row], extra) == 0.0
    ensures At(IouMatrix(gt, pred + [extra]), x) == if x.col == |pred| then 0.0 else At(IouMatrix(gt, pred), x)
  {
    IouMatrixAt(gt, pred + [extra], x);
    if x.col < |pred| {
      IouMatrixAt(gt, pred, x);
    }
  }

  lemma {:induction false} TotalCons(w: Matrix, x: Pair, m: seq<Pair>)
    ensures Total(w, [x] + m) == At(w, x) + Total(w, m)
  {
    assert ([x] + m)[1..] == m;
  }

  lemma {:induction false} DropColTotal(gt: seq<Box>, pred: seq<Box>, extra: Box, m: seq<Pair>)
    requires forall i :: 0 <= i < |m| ==> m[i].row < |gt| && m[i].col <= |pred|
    requires forall i :: 0 <= i < |gt| ==> Iou(gt[i], extra) == 0.0
    ensures Total(IouMatrix(gt, pred + [extra]), m) == Total(IouMatrix(gt, pred), DropCol(m, |pred|))
  {
    if m != [] {
      DropColTotal(gt, pred, extra, m[1..]);
      ExtraColumn(gt, pred, extra, m[0]);
      TotalCons(IouMatrix(gt, pred), m[0], DropCol(m[1..], |pred|));
    }
  }

  lemma {:induction false} QuotientLe(a: real, b: real, p: real, q: real)
    requires 0.0 <= a <= b && 0.0 < q <= p
    ensures a / p <= b / q
  {
    var x, y := a / p, b / q;
    assert x * p == a && y * q == b;
    assert x >= 0.0;
    assert x * q <= x * p;
    assert (y - x) * q >= 0.0;
  }

  lemma {:induction false} ExtraBoxTotal(gt: seq<Box>, pred: seq<Box>, extra: Box, m: seq<Pair>, m': seq<Pair>)
    requires Best(gt, pred, m) && Best(gt, pred + [extra], m')
    requires forall i :: 0 <= i < |gt| ==> Iou(gt[i], extra) == 0.0
    ensures 0.0 <= Total(IouMatrix(gt, pred + [extra]), m') <= Total(IouMatrix(gt, pred), m)
    ensures pred == [] ==> Total(IouMatrix(gt, pred + [extra]), m') == 0.0
  {
    DropColOneToOne(m', |gt|, |pred|);
    DropColTotal(gt, pred, extra, m');
    IouMatrixUnit(gt, pred);
    BeatsPartial(IouMatrix(gt, pred), |gt|, |pred|, m, DropCol(m', |pred|));
    TotalBounds(IouMatrix(gt, pred), DropCol(m', |pred|));
  }

  lemma {:induction false} LongerListLe(a: real, b: real, n: nat, k: nat)
    requires 0.0 <= a <= b && n > 0
    ensures Share(a, n, k + 1) <= Share(b, n, k) && Share(0.0, n, k + 1) == 0.0
  {
    QuotientLe(a, b, Max(n, k + 1) as real, Max(n, k) as real);
  }

  lemma {:induction false} ExtraBoxIou(gt: seq<Box>, extra: Box)
    requires forall i :: 0 <= i < |gt| ==> Overlap(gt[i], extra) == 0.0
    ensures forall i :: 0 <= i < |gt| ==> Iou(gt[i], extra) == 0.0
  {
  }

  lemma {:induction false} ScoreOfTotal(gt: seq<Box>, pred: seq<Box>, m: seq<Pair>, total: real)
    requires gt != [] && total == Total(IouMatrix(gt, pred), m)
    ensures Score(gt, pred, m) == if pred == [] then 0.0 else Share(total, |gt|, |pred|)
  {
  }

  /** Reporting one more box that overlaps nothing never raises the score. */
  lemma {:induction false} ExtraBoxNeverHelps(gt: seq<Box>, pred: seq<Box>, extra: Box, m: seq<Pair>, m': seq<Pair>)
    requires Best(gt, pred, m) && Best(gt, pred + [extra], m')
    requires forall i :: 0 <= i < |gt| ==> Overlap(gt[i], extra) == 0.0
    ensures Score(gt, pred + [extra], m') <= Score(gt, pred, m)
  {
    if gt != [] {
      var total := Total(IouMatrix(gt, pred), m);
      var total' := Total(IouMatrix(gt, pred + [extra]), m');
      ExtraBoxIou(gt, extra);
      ExtraBoxTotal(gt, pred, extra, m, m');
      ScoreOfTotal(gt, pred, m, total);
      ScoreOfTotal(gt, pred + [extra], m', total');
      SharesLe(Score(gt, pred + [extra], m'), Score(gt, pred, m), total', total, |gt|, |pred|);
    }
  }

  lemma {:induction false} SharesLe(s': real, s: real, a: real, b: real, n: nat, k: nat)
    requires 0.0 <= a <= b && n > 0 && (k == 0 ==> a == 0.0)
    requires s' == Share(a, n, k + 1) && s == if k == 0 then 0.0 else Share(b, n, k)
    ensures s' <= s
  {
    LongerListLe(a, b, n, k);
  }

  // ---------------------------------------------------------------- a list against itself

  ghost predicate DistinctProper(bs: seq<Box>) {
    && (forall i :: 0 <= i < |bs| ==> Proper(bs[i]))
    && (forall i, j :: 0 <= i < j < |bs| ==> bs[i] != bs[j])
  }

  lemma {:induction false} IdentityIsPerfect(bs: seq<Box>, m: seq<Pair>)
    requires DistinctProper(bs) && Best(bs, bs, m)
    ensures forall i :: 0 <= i < |m| ==> At(IouMatrix(bs, bs), m[i]) == 1.0
  {
    var w := IouMatrix(bs, bs);
    var diag := seq(|bs|, i requires 0 <= i < |bs| => Pair(i, i));
    IouMatrixUnit(bs, bs);
    forall i | 0 <= i < |bs| ensures At(w, diag[i]) == 1.0 {
      IouMatrixAt(bs, bs, diag[i]);
      IouOneIff(bs[i], bs[i]);
    }
    TotalBounds(w, diag);
    TotalBounds(w, m);
    BeatsPartial(w, |bs|, |bs|, m, diag);
  }

  /** Distinct proper boxes matched against themselves: identity is the only optimal assignment. */
  lemma {:induction false} OnlyIdentityIsBest(bs: seq<Box>, m: seq<Pair>)
    requires DistinctProper(bs) && Best(bs, bs, m)
    ensures |m| == |bs|
    ensures forall i :: 0 <= i < |m| ==> m[i].row == m[i].col < |bs| && At(IouMatrix(bs, bs), m[i]) == 1.0
    ensures forall r :: 0 <= r < |bs| ==> Pair(r, r) in m
  {
    var w := IouMatrix(bs, bs);
    IdentityIsPerfect(bs, m);
    forall i | 0 <= i < |m| ensures m[i].row == m[i].col {
      IouMatrixAt(bs, bs, m[i]);
      IouOneIff(bs[m[i].row], bs[m[i].col]);
    }
    forall r | 0 <= r < |bs| ensures Pair(r, r) in m {
      EveryRowUsed(m, |bs|, |bs|, r);
      var i :| 0 <= i < |m| && m[i].row == r;
      assert m[i] == Pair(r, r);
    }
  }
}
