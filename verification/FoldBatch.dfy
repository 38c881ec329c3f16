/** Folding and unfolding the batch dimension, and unfolding column chunks (protocol.py).
    Arrays are row-major: a shape and the flat elements. `fold_batch_dim` reassigns the entries
    of the object-column dict it was given, so that dict is an object here. */
module FoldBatch {
  import opened Prelude
  import RowAlgebra

  datatype NdArray<E> = NdArray(shape: seq<nat>, data: seq<E>)

  function Prod(shape: seq<nat>): nat {
    if shape == [] then 1 else shape[0] * Prod(shape[1..])
  }

  ghost predicate IsArray<E>(a: NdArray<E>) {
    |a.data| == Prod(a.shape)
  }

  predicate Inside(shape: seq<nat>, idx: seq<nat>) {
    |idx| == |shape| && forall i :: 0 <= i < |shape| ==> idx[i] < shape[i]
  }

  /** Row-major position of an index. */
  function Position(shape: seq<nat>, idx: seq<nat>): nat
    requires |idx| == |shape|
  {
    if shape == [] then 0 else idx[0] * Prod(shape[1..]) + Position(shape[1..], idx[1..])
  }

  lemma {:induction false} PositionBound(shape: seq<nat>, idx: seq<nat>)
    requires Inside(shape, idx)
    ensures Position(shape, idx) < Prod(shape)
  {
    if shape != [] {
      assert Inside(shape[1..], idx[1..]);
      PositionBound(shape[1..], idx[1..]);
      MulMono(idx[0] + 1, shape[0], Prod(shape[1..]));
      assert (idx[0] + 1) * Prod(shape[1..]) == idx[0] * Prod(shape[1..]) + Prod(shape[1..]);
    }
  }

  ghost function ElementAt<E>(a: NdArray<E>, idx: seq<nat>): E
    requires IsArray(a) && Inside(a.shape, idx)
  {
    PositionBound(a.shape, idx);
    a.data[Position(a.shape, idx)]
  }

  /** A reshape keeps the flat elements and needs the same number of them. */
  function Reshape<E>(a: NdArray<E>, shape: seq<nat>): Option<NdArray<E>> {
    if Prod(shape) == |a.data| then Some(NdArray(shape, a.data)) else None
  }

  // ---------------------------------------------------------------- fold and unfold one column

  /** [b, rest...] becomes [m, b / m, rest...]: a view that regroups the batch dimension only. */
  function FoldColumn<E>(a: NdArray<E>, m: nat): NdArray<E>
    requires m > 0 && |a.shape| >= 1
  {
    NdArray([m, a.shape[0] / m] + a.shape[1..], a.data)
  }

  /** np.reshape to [m, -1, rest...]: the second dimension is inferred from the number of elements,
      which fails when the other dimensions have no elements. */
  function NpFold<E>(a: NdArray<E>, m: nat): Option<NdArray<E>>
    requires m > 0 && |a.shape| >= 1
  {
    var p := Prod(a.shape[1..]);
    if p == 0 then None
    else
      PositiveProduct(m, p);
      Some(NdArray([m, |a.data| / (m * p)] + a.shape[1..], a.data))
  }

  lemma {:induction false} PositiveProduct(a: nat, b: nat)
    requires a > 0 && b > 0
    ensures a * b > 0
  {
    MulMono(1, a, b);
  }

  /** [m, c, rest...] becomes [m * c, rest...]. */
  function UnfoldColumn<E>(a: NdArray<E>): NdArray<E>
    requires |a.shape| >= 2
  {
    NdArray([a.shape[0] * a.shape[1]] + a.shape[2..], a.data)
  }

  ghost predicate HasRows<E>(a: NdArray<E>, b: nat) {
    IsArray(a) && |a.shape| >= 1 && a.shape[0] == b
  }

  lemma {:induction false} FoldedIsArray<E>(a: NdArray<E>, b: nat, m: nat)
    requires HasRows(a, b) && m > 0 && b % m == 0
    ensures m * (b / m) == b && IsArray(FoldColumn(a, m))
  {
    assert m * (b / m) == b;
    ProdTwo(m, b / m, a.shape[1..]);
  }

  /** The dimension numpy infers is b / m. */
  lemma {:induction false} NpFoldMatches<E>(a: NdArray<E>, b: nat, m: nat)
    requires HasRows(a, b) && m > 0 && b % m == 0
    ensures NpFold(a, m) == if Prod(a.shape[1..]) == 0 then None else Some(FoldColumn(a, m))
  {
    var c, p := b / m, Prod(a.shape[1..]);
    assert m * c == b;
    if p > 0 {
      PositiveProduct(m, p);
      assert |a.data| == b * p == c * (m * p);
      DivOfProduct(c, m * p);
    }
  }

  lemma {:induction false} ProdTwo(x: nat, y: nat, rest: seq<nat>)
    ensures Prod([x, y] + rest) == x * y * Prod(rest)
  {
    assert ([x, y] + rest)[1..] == [y] + rest;
    assert ([y] + rest)[1..] == rest;
    assert x * (y * Prod(rest)) == x * y * Prod(rest);
  }

  /** Folding and unfolding restores the column. */
  lemma {:induction false} FoldUnfold<E>(a: NdArray<E>, b: nat, m: nat)
    requires HasRows(a, b) && m > 0 && b % m == 0
    ensures UnfoldColumn(FoldColumn(a, m)) == a
  {
    FoldedIsArray(a, b, m);
    assert ([m, b / m] + a.shape[1..])[2..] == a.shape[1..];
    assert a.shape == [b] + a.shape[1..];
  }

  /** Element (i, j, rest) of the folded column is element (i * (b/m) + j, rest) of the original. */
  lemma {:induction false} FoldMeaning<E>(a: NdArray<E>, b: nat, m: nat, i: nat, j: nat, rest: seq<nat>)
    requires HasRows(a, b) && m > 0 && b % m == 0
    requires i < m && j < b / m && Inside(a.shape[1..], rest)
    ensures var f := FoldColumn(a, m);
      && IsArray(f) && Inside(f.shape, [i, j] + rest) && Inside(a.shape, [i * (b / m) + j] + rest)
      && ElementAt(f, [i, j] + rest) == ElementAt(a, [i * (b / m) + j] + rest)
  {
    var c := b / m;
    FoldedIsArray(a, b, m);
    SplitIndexBound(i, j, m, c);
    assert a.shape == [b] + a.shape[1..];
    PositionOne(b, a.shape[1..], i * c + j, rest);
    PositionTwo(m, c, a.shape[1..], i, j, rest);
    Regroup(i, c, j, Prod(a.shape[1..]));
  }

  lemma {:induction false} Regroup(i: nat, c: nat, j: nat, p: nat)
    ensures (i * c + j) * p == i * (c * p) + j * p
  {
  }

  lemma {:induction false} SplitIndexBound(i: nat, j: nat, m: nat, c: nat)
    requires i < m && j < c
    ensures i * c + j < m * c
  {
    MulMono(i + 1, m, c);
    assert (i + 1) * c == i * c + c;
  }

  lemma {:induction false} PositionOne(x: nat, shape: seq<nat>, i: nat, rest: seq<nat>)
    requires |rest| == |shape|
    ensures Position([x] + shape, [i] + rest) == i * Prod(shape) + Position(shape, rest)
  {
    assert ([x] + shape)[1..] == shape && ([i] + rest)[1..] == rest;
  }

  lemma {:induction false} PositionTwo(x: nat, y: nat, shape: seq<nat>, i: nat, j: nat, rest: seq<nat>)
    requires |rest| == |shape|
    ensures Position([x, y] + shape, [i, j] + rest)
         == i * (y * Prod(shape)) + (j * Prod(shape) + Position(shape, rest))
  {
    assert [x, y] + shape == [x] + ([y] + shape) && [i, j] + rest == [i] + ([j] + rest);
    PositionOne(x, [y] + shape, i, [j] + rest);
    PositionOne(y, shape, j, rest);
    assert ([y] + shape)[1..] == shape;
  }

  // ---------------------------------------------------------------- fold and unfold a DataProto in place

  class Columns<O> {
    var cols: map<string, NdArray<O>>

    constructor (c: map<string, NdArray<O>>)
      ensures cols == c
    {
      cols := c;
    }
  }

  class Data<T, O> {
    var size: nat
    var batch: map<string, NdArray<T>>
    var nonTensor: Columns<O>

    constructor (s: nat, b: map<string, NdArray<T>>, n: Columns<O>)
      ensures size == s && batch == b && nonTensor == n
    {
      size, batch, nonTensor := s, b, n;
    }
  }

  ghost predicate AllHaveRows<E>(cols: map<string, NdArray<E>>, b: nat) {
    forall k :: k in cols ==> HasRows(cols[k], b)
  }

  /** numpy can infer the folded dimension of every object column. */
  ghost predicate AllInferable<E>(cols: map<string, NdArray<E>>) {
    forall k :: k in cols && |cols[k].shape| >= 1 ==> Prod(cols[k].shape[1..]) != 0
  }

  ghost predicate AllFolded<E>(cols: map<string, NdArray<E>>, m: nat, c: nat) {
    forall k :: k in cols ==> |cols[k].shape| >= 2 && cols[k].shape[0] == m && cols[k].shape[1] == c
  }

  ghost function FoldAll<E>(cols: map<string, NdArray<E>>, b: nat, m: nat): map<string, NdArray<E>>
    requires m > 0 && AllHaveRows(cols, b)
  {
    map k | k in cols :: FoldColumn(cols[k], m)
  }

  ghost function UnfoldAll<E>(cols: map<string, NdArray<E>>, m: nat, c: nat): map<string, NdArray<E>>
    requires AllFolded(cols, m, c)
  {
    map k | k in cols :: UnfoldColumn(cols[k])
  }

  /** Some columns of `before` are folded and the others are as they were. */
  ghost predicate PartlyFolded<E>(before: map<string, NdArray<E>>, after: map<string, NdArray<E>>, b: nat, m: nat)
    requires m > 0 && AllHaveRows(before, b)
  {
    after.Keys == before.Keys && forall k :: k in before ==> after[k] == before[k] || after[k] == FoldColumn(before[k], m)
  }

  /** The result shares the object-column dict of the input, whose entries are folded in place;
      the input's tensors stay as they were. A size that does not divide is an error before
      anything changes; an object column numpy cannot reshape is one that leaves the dict partly folded. */
  method FoldBatchDim<T, O>(d: Data<T, O>, m: nat) returns (r: Option<Data<T, O>>)
    requires AllHaveRows(d.batch, d.size) && AllHaveRows(d.nonTensor.cols, d.size)
    modifies d.nonTensor
    ensures r.None? <==> m == 0 || d.size % m != 0 || !AllInferable(old(d.nonTensor.cols))
    ensures m == 0 || d.size % m != 0 ==> d.nonTensor.cols == old(d.nonTensor.cols)
    ensures m > 0 ==> PartlyFolded(old(d.nonTensor.cols), d.nonTensor.cols, d.size, m)
    ensures r.Some? ==> fresh(r.value) && r.value.nonTensor == d.nonTensor && r.value.size == m
    ensures r.Some? ==> r.value.batch == FoldAll(d.batch, d.size, m)
    ensures r.Some? ==> d.nonTensor.cols == FoldAll(old(d.nonTensor.cols), d.size, m)
  {
    if m == 0 || d.size % m != 0 {
      return None;
    }
    var batch := map k | k in d.batch :: FoldColumn(d.batch[k], m);
    var ok := FoldObjects(d.nonTensor, m, d.size);
    if !ok {
      return None;
    }
    var out := new Data(m, batch, d.nonTensor);
    return Some(out);
  }

  /** The loop over the object columns, each reassigned in the dict it came from. */
  method FoldObjects<O>(n: Columns<O>, m: nat, ghost b: nat) returns (ok: bool)
    requires m > 0 && b % m == 0 && AllHaveRows(n.cols, b)
    modifies n
    ensures ok == AllInferable(old(n.cols)) && PartlyFolded(old(n.cols), n.cols, b, m)
    ensures ok ==> n.cols == FoldAll(old(n.cols), b, m)
  {
    ghost var before := n.cols;
    var todo := n.cols.Keys;
    while todo != {}
      invariant n.cols.Keys == before.Keys && todo <= before.Keys
      invariant forall k :: k in before ==> n.cols[k] == if k in todo then before[k] else FoldColumn(before[k], m)
      invariant forall k :: k in before && k !in todo ==> Prod(before[k].shape[1..]) != 0
      decreases todo
    {
      var k :| k in todo;
      NpFoldMatches(before[k], b, m);
      var folded := NpFold(n.cols[k], m);
      if folded.None? {
        return false;
      }
      n.cols := n.cols[k := folded.value];
      todo := todo - {k};
    }
    return true;
  }

  /** Unfolding reads the second dimension off the tensors, builds a new dict and leaves its input alone. */
  method UnfoldBatchDim<T, O>(d: Data<T, O>, ghost c: nat) returns (r: Data<T, O>)
    requires d.batch != map[] && AllFolded(d.batch, d.size, c) && AllFolded(d.nonTensor.cols, d.size, c)
    ensures fresh(r) && fresh(r.nonTensor) && r.size == d.size * c
    ensures r.batch == UnfoldAll(d.batch, d.size, c)
    ensures r.nonTensor.cols == UnfoldAll(d.nonTensor.cols, d.size, c)
  {
    var batch := map k | k in d.batch :: UnfoldColumn(d.batch[k]);
    var k :| k in d.batch;
    var batchSize := d.size * d.batch[k].shape[1];
    var objects := new Columns(map k | k in d.nonTensor.cols ::
      NdArray([batchSize] + d.nonTensor.cols[k].shape[2..], d.nonTensor.cols[k].data));
    r := new Data(batchSize, batch, objects);
  }

  lemma {:induction false} FoldUnfoldAll<E>(cols: map<string, NdArray<E>>, b: nat, m: nat)
    requires m > 0 && b % m == 0 && AllHaveRows(cols, b)
    ensures m * (b / m) == b && AllFolded(FoldAll(cols, b, m), m, b / m)
    ensures UnfoldAll(FoldAll(cols, b, m), m, b / m) == cols
  {
    assert m * (b / m) == b;
    forall k | k in cols ensures UnfoldColumn(FoldColumn(cols[k], m)) == cols[k] {
      FoldUnfold(cols[k], b, m);
    }
  }

  /** Fold then unfold returns every column of both kinds as it was. The caller's own data is
      only half restored: its tensors are untouched but its object columns stay folded. */
  method FoldThenUnfold<T, O>(d: Data<T, O>, m: nat) returns (r: Data<T, O>)
    requires d.batch != map[] && AllHaveRows(d.batch, d.size) && AllHaveRows(d.nonTensor.cols, d.size)
    requires m > 0 && d.size % m == 0 && AllInferable(d.nonTensor.cols)
    modifies d.nonTensor
    ensures r.size == d.size && r.batch == d.batch && r.nonTensor.cols == old(d.nonTensor.cols)
    ensures d.nonTensor.cols == FoldAll(old(d.nonTensor.cols), d.size, m)
  {
    FoldUnfoldAll(d.batch, d.size, m);
    FoldUnfoldAll(d.nonTensor.cols, d.size, m);
    var folded := FoldBatchDim(d, m);
    r := UnfoldBatchDim(folded.value, d.size / m);
  }

  /** A folded column is never the column it was, so after folding the caller's data keeps its
      object columns exactly when it has none. */
  lemma {:induction false} FoldInPlaceVisibleIff<E>(cols: map<string, NdArray<E>>, b: nat, m: nat)
    requires m > 0 && b % m == 0 && AllHaveRows(cols, b)
    ensures FoldAll(cols, b, m) == cols <==> cols == map[]
  {
    if cols != map[] {
      var k :| k in cols;
      assert |FoldAll(cols, b, m)[k].shape| == |cols[k].shape| + 1;
    }
  }

  // ---------------------------------------------------------------- column chunks

  /** [N, w, rest...] becomes [N * n, w / n, rest...] by reshaping. */
  function UnfoldChunks<E>(a: NdArray<E>, n: nat): Option<NdArray<E>>
    requires |a.shape| >= 2 && n > 0
  {
    Reshape(a, [a.shape[0] * n, a.shape[1] / n] + a.shape[2..])
  }

  /** The reshape is possible exactly when n divides the width, or the array is empty anyway. */
  lemma {:induction false} UnfoldChunksIff<E>(a: NdArray<E>, n: nat)
    requires IsArray(a) && |a.shape| >= 2 && n > 0
    ensures UnfoldChunks(a, n).Some?
       <==> a.shape[1] % n == 0 || a.shape[0] * Prod(a.shape[2..]) == 0
  {
    var x, w, tail := a.shape[0], a.shape[1], a.shape[2..];
    assert a.shape == [x, w] + tail;
    ProdTwo(x, w, tail);
    ProdTwo(x * n, w / n, tail);
    SameCountIff(x, w / n, w % n, n, Prod(tail));
  }

  lemma {:induction false} SameCountIff(x: nat, q: nat, r: nat, n: nat, p: nat)
    ensures x * (n * q + r) * p == (x * n) * q * p <==> r == 0 || x * p == 0
  {
    assert x * (n * q + r) * p == (x * n) * q * p + r * (x * p) by {
      assert x * (n * q + r) == (x * n) * q + x * r;
      assert ((x * n) * q + x * r) * p == (x * n) * q * p + (x * r) * p;
      assert (x * r) * p == r * (x * p);
    }
    if r != 0 && x * p != 0 {
      PositiveProduct(r, x * p);
    }
  }

  /** Element s * (w/n) + c of row i goes to element c of row i * n + s. */
  lemma {:induction false} UnfoldChunksMeaning<E>(a: NdArray<E>, n: nat, i: nat, s: nat, c: nat, rest: seq<nat>)
    requires IsArray(a) && |a.shape| >= 2 && n > 0 && a.shape[1] % n == 0
    requires i < a.shape[0] && s < n && c < a.shape[1] / n && Inside(a.shape[2..], rest)
    ensures var u, q := UnfoldChunks(a, n), a.shape[1] / n;
      && u.Some? && IsArray(u.value)
      && Inside(u.value.shape, [i * n + s, c] + rest) && Inside(a.shape, [i, s * q + c] + rest)
      && ElementAt(u.value, [i * n + s, c] + rest) == ElementAt(a, [i, s * q + c] + rest)
  {
    var x, w, tail := a.shape[0], a.shape[1], a.shape[2..];
    var q, p := w / n, Prod(tail);
    UnfoldChunksIff(a, n);
    assert a.shape == [x, w] + tail;
    assert w == n * q;
    SplitIndexBound(i, s, x, n);
    SplitIndexBound(s, c, n, q);
    PositionTwo(x, w, tail, i, s * q + c, rest);
    PositionTwo(x * n, q, tail, i * n + s, c, rest);
    SamePosition(i, n, s, q, c, p);
  }

  lemma {:induction false} SamePosition(i: nat, n: nat, s: nat, q: nat, c: nat, p: nat)
    ensures i * ((n * q) * p) + (s * q + c) * p == (i * n + s) * (q * p) + c * p
  {
    assert (i * n + s) * (q * p) == (i * n) * (q * p) + s * (q * p);
    assert (i * n) * (q * p) == i * ((n * q) * p);
    assert (s * q + c) * p == s * (q * p) + c * p;
  }

  /** A column that is not split has each row repeated n times: row k is the old row k / n. */
  lemma {:induction false} KeptColumnRepeats<E>(col: seq<E>, n: nat, k: nat)
    requires n > 0 && k < |col| * n
    ensures |RowAlgebra.RepeatEach(col, n)| == |col| * n
    ensures k / n < |col| && RowAlgebra.RepeatEach(col, n)[k] == col[k / n]
  {
    RowAlgebra.RepeatEachLength(col, n);
    QuotientBelow(k, |col|, n);
    DivParts(k, n);
    RowAlgebra.RepeatEachAt(col, n, Quotient(k, n), Remainder(k, n));
  }
}
