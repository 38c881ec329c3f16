/** Which rows each DataProto operation reads, element by element, on tensor and object columns. */
module RowMeaning {
  import opened Prelude
  import opened RowAlgebra
  import WeightLayout

  /** The rows at the given indices, negative ones counted from the end. */
  ghost predicate RowsAt<E>(out: seq<E>, col: seq<E>, idxs: seq<int>) {
    && |out| == |idxs|
    && forall k :: 0 <= k < |idxs| ==>
         && (idxs[k] >= 0 ==> idxs[k] < |col| && out[k] == col[idxs[k]])
         && (idxs[k] < 0 ==> 0 <= |col| + idxs[k] && out[k] == col[|col| + idxs[k]])
  }

  /** Selecting by index gives the rows at the indices, in their order. */
  lemma {:induction false} SelectReads<E>(col: seq<E>, idxs: seq<int>)
    ensures Accepts(SelectIdxs(idxs), |col|) <==> forall k :: 0 <= k < |idxs| ==> -|col| <= idxs[k] < |col|
    ensures Accepts(SelectIdxs(idxs), |col|) ==>
      RowsAt(OnColumn(SelectIdxs(idxs), col), col, idxs) && RowsAt(OnObjects(SelectIdxs(idxs), col), col, idxs)
  {
  }

  lemma {:induction false} ReorderReads<E>(col: seq<E>, idxs: seq<int>)
    ensures Accepts(Reorder(idxs), |col|) <==> forall k :: 0 <= k < |idxs| ==> -|col| <= idxs[k] < |col|
    ensures Accepts(Reorder(idxs), |col|) ==>
      RowsAt(OnColumn(Reorder(idxs), col), col, idxs) && RowsAt(OnObjects(Reorder(idxs), col), col, idxs)
  {
  }

  /** `at` is where a slice of `n` rows begins or ends for this bound: a negative bound counts from the
      end, one outside the rows is moved to the nearest end, and none means `default`. */
  predicate IsBound(bound: Option<int>, default: nat, n: nat, at: nat) {
    match bound
    case None => at == default
    case Some(x) =>
      if x > n then at == n
      else if x >= 0 then at == x
      else if x + n >= 0 then at == x + n
      else at == 0
  }

  lemma {:induction false} StrideAt<E>(col: seq<E>, step: nat, k: nat)
    requires step > 0
    ensures k < |Stride(col, step)| <==> Times(k, step) < |col|
    ensures k < |Stride(col, step)| ==> Stride(col, step)[k] == col[Times(k, step)]
    decreases k
  {
    if k > 0 {
      MulStep(k, step);
      if col != [] {
        StrideAt(col[Min(step, |col|)..], step, k - 1);
      }
    }
  }

  lemma {:induction false} BoundIs(bound: Option<int>, default: nat, n: nat, at: nat)
    requires IsBound(bound, default, n, at)
    ensures Bound(bound, default, n) == at
  {
  }

  lemma {:induction false} SpanAt<E>(col: seq<E>, lo: nat, hi: nat, step: nat, k: nat)
    requires step > 0 && lo <= hi <= |col|
    ensures k < |Stride(col[lo..hi], step)| <==> lo + Times(k, step) < hi
    ensures k < |Stride(col[lo..hi], step)| ==> Stride(col[lo..hi], step)[k] == col[lo + Times(k, step)]
  {
    StrideAt(col[lo..hi], step, k);
  }

  /** Element `k` of a slice is element lo + k * step, as long as that lies below hi. */
  lemma {:induction false} SliceMeaning<E>(col: seq<E>, start: Option<int>, stop: Option<int>, step: nat, lo: nat,
      hi: nat, k: nat)
    requires step > 0 && IsBound(start, 0, |col|, lo) && IsBound(stop, |col|, |col|, hi)
    ensures var out := OnColumn(Slice(start, stop, step), col);
      && OnObjects(Slice(start, stop, step), col) == out
      && (k < |out| <==> lo + Times(k, step) < hi)
      && (k < |out| ==> lo + Times(k, step) < |col| && out[k] == col[lo + Times(k, step)])
  {
    BoundIs(start, 0, |col|, lo);
    BoundIs(stop, |col|, |col|, hi);
    if lo < hi {
      SpanAt(col, lo, hi, step, k);
    }
  }

  /** How many of the mask's first `i` flags are set. */
  function Rank(mask: seq<bool>, i: nat): nat
    requires i <= |mask|
  {
    if i == 0 then 0 else Rank(mask, i - 1) + (if mask[i - 1] then 1 else 0)
  }

  lemma {:induction false} RankTail(mask: seq<bool>, i: nat)
    requires 0 < i <= |mask|
    ensures Rank(mask, i) == (if mask[0] then 1 else 0) + Rank(mask[1..], i - 1)
  {
    if i > 1 {
      RankTail(mask, i - 1);
    }
  }

  lemma {:induction false} MaskedAt<E>(col: seq<E>, mask: seq<bool>, i: nat)
    requires |mask| == |col| && i < |col| && mask[i]
    ensures Rank(mask, i) < |Masked(col, mask)| && Masked(col, mask)[Rank(mask, i)] == col[i]
    decreases i
  {
    if i > 0 {
      MaskedAt(col[1..], mask[1..], i - 1);
      RankTail(mask, i);
    }
  }

  lemma {:induction false} MaskedLength<E>(col: seq<E>, mask: seq<bool>)
    requires |mask| == |col|
    ensures |Masked(col, mask)| == Rank(mask, |mask|)
  {
    if col != [] {
      MaskedLength(col[1..], mask[1..]);
      RankTail(mask, |mask|);
    }
  }

  /** A mask keeps exactly the flagged rows, in order. */
  lemma {:induction false} MaskMeaning<E>(col: seq<E>, mask: seq<bool>)
    requires |mask| == |col|
    ensures var out := OnColumn(SelectMask(mask), col);
      && OnObjects(SelectMask(mask), col) == out && |out| == Rank(mask, |mask|)
      && forall i :: 0 <= i < |col| && mask[i] ==> Rank(mask, i) < |out| && out[Rank(mask, i)] == col[i]
  {
    ObjectsLikeTensors(SelectMask(mask), col);
    MaskedLength(col, mask);
    forall i | 0 <= i < |col| && mask[i]
      ensures Rank(mask, i) < |Masked(col, mask)| && Masked(col, mask)[Rank(mask, i)] == col[i]
    {
      MaskedAt(col, mask, i);
    }
  }

  /** Interleaved repetition: copies `m` of row `q` are rows q * r + m. */
  lemma {:induction false} InterleaveMeaning<E>(col: seq<E>, r: nat, q: nat, m: nat)
    requires q < |col| && m < r
    ensures var out := OnColumn(Repeat(r, true), col);
      && OnObjects(Repeat(r, true), col) == out && |out| == Times(|col|, r)
      && Times(q, r) + m < |out| && out[Times(q, r) + m] == col[q]
  {
    ObjectsLikeTensors(Repeat(r, true), col);
    RepeatEachLength(col, r);
    RepeatEachAt(col, r, q, m);
  }

  /** Tiled repetition: row `m` of copy `q` is row q * n + m. */
  lemma {:induction false} TileMeaning<E>(col: seq<E>, r: nat, q: nat, m: nat)
    requires q < r && m < |col|
    ensures var out := OnColumn(Repeat(r, false), col);
      && OnObjects(Repeat(r, false), col) == out && |out| == Times(|col|, r)
      && Times(q, |col|) + m < |out| && out[Times(q, |col|) + m] == col[m]
  {
    ObjectsLikeTensors(Repeat(r, false), col);
    TileLength(col, r);
    TileAt(col, r, q, m);
  }

  /** Per-sample repetition: the rows from the sum of the counts before `i` up to the sum with it are row `i`. */
  lemma {:induction false} SampleRepeatMeaning<E>(col: seq<E>, counts: seq<nat>, i: nat, k: nat)
    requires |counts| == |col| && i < |col| && Total(counts[..i]) <= k < Total(counts[..i + 1])
    ensures var out := OnColumn(SampleRepeat(counts), col);
      && OnObjects(SampleRepeat(counts), col) == out && |out| == Total(counts)
      && k < |out| && out[k] == col[i]
  {
    ObjectsLikeTensors(SampleRepeat(counts), col);
    assert col[0..] == col;
    RepeatByReads(col, 0, counts);
    OwnerByPrefixSums(counts, 0, i, k);
  }

  /** Piece `i` of a chunk into equal pieces starts at i times the piece size. */
  lemma {:induction false} ChunkMeaning<E>(col: seq<E>, c: nat, w: nat, i: nat, j: nat, padding: bool)
    requires i < c && j < w && |col| == c * w
    ensures Accepts(ChunkPiece(c, i, padding), |col|)
    ensures var out := OnColumn(ChunkPiece(c, i, padding), col);
      && OnObjects(ChunkPiece(c, i, padding), col) == out && |out| == w
      && Times(i, w) + j < |col| && out[j] == col[Times(i, w) + j]
  {
    DivOfProduct(w, c);
    assert w * c == c * w;
    EvenLengths(|col|, c);
    ObjectsLikeTensors(ChunkPiece(c, i, padding), col);
    WeightLayout.ChunkEven(col, c, w);
    CutAt(col, w, c, i, j);
  }
}
