/** Row algebra of verl's DataProto (protocol.py): tensor columns and object columns that must
    stay aligned through slicing, selecting, repeating, reordering and chunking. */
module RowAlgebra {
  import opened Prelude
  import WeightLayout

  datatype DataProto<T, O> = DataProto(size: nat, tensors: map<string, seq<T>>, objects: map<string, seq<O>>)

  ghost predicate Valid<T, O>(d: DataProto<T, O>) {
    && (forall k :: k in d.tensors ==> |d.tensors[k]| == d.size)
    && (forall k :: k in d.objects ==> |d.objects[k]| == d.size)
  }

  // ---------------------------------------------------------------- what the libraries do to one column

  function Fill<E>(x: E, n: nat): (r: seq<E>)
    ensures |r| == n && forall i :: 0 <= i < n ==> r[i] == x
  {
    seq(n, _ => x)
  }

  /** repeat_interleave / np.repeat with one count. */
  function RepeatEach<E>(col: seq<E>, r: nat): seq<E> {
    if col == [] then [] else Fill(col[0], r) + RepeatEach(col[1..], r)
  }

  /** expand-and-reshape / np.tile. */
  function Tile<E>(col: seq<E>, r: nat): seq<E> {
    if r == 0 then [] else col + Tile(col, r - 1)
  }

  /** repeat_interleave / np.repeat with one count per row. */
  function RepeatBy<E>(col: seq<E>, times: seq<nat>): seq<E>
    requires |times| == |col|
  {
    if col == [] then [] else Fill(col[0], times[0]) + RepeatBy(col[1..], times[1..])
  }

  /** Every `step`-th element. */
  function Stride<E>(col: seq<E>, step: nat): seq<E>
    requires step > 0
    decreases |col|
  {
    if col == [] then [] else [col[0]] + Stride(col[Min(step, |col|)..], step)
  }

  /** A slice bound as Python reads it: negative counts from the end, then clamped. */
  function Bound(b: Option<int>, default: nat, n: nat): (r: nat)
    ensures default <= n ==> r <= n
  {
    match b
    case None => default
    case Some(x) => if x < 0 then Max(0, x + n) else Min(x, n)
  }

  function SliceOf<E>(col: seq<E>, start: Option<int>, stop: Option<int>, step: nat): seq<E>
    requires step > 0
  {
    var lo, hi := Bound(start, 0, |col|), Bound(stop, |col|, |col|);
    if lo >= hi then [] else Stride(col[lo..hi], step)
  }

  /** Boolean-mask selection. */
  function Masked<E>(col: seq<E>, mask: seq<bool>): seq<E>
    requires |mask| == |col|
  {
    if col == [] then []
    else (if mask[0] then [col[0]] else []) + Masked(col[1..], mask[1..])
  }

  function Gather<E>(col: seq<E>, f: seq<nat>): (r: seq<E>)
    requires forall i :: 0 <= i < |f| ==> f[i] < |col|
  {
    seq(|f|, i requires 0 <= i < |f| => col[f[i]])
  }

  predicate Ascending(from: nat, cuts: seq<nat>, n: nat)
    decreases |cuts|
  {
    if cuts == [] then from <= n else from <= cuts[0] && Ascending(cuts[0], cuts[1..], n)
  }

  lemma {:induction false} AscendingBound(from: nat, cuts: seq<nat>, n: nat)
    requires Ascending(from, cuts, n)
    ensures from <= n
    decreases |cuts|
  {
    if cuts != [] {
      AscendingBound(cuts[0], cuts[1..], n);
    }
  }

  /** np.array_split at given cut points. */
  function SplitAt<E>(col: seq<E>, from: nat, cuts: seq<nat>): seq<seq<E>>
    requires Ascending(from, cuts, |col|)
    decreases |cuts|
  {
    if cuts == [] then [col[from..]]
    else
      AscendingBound(cuts[0], cuts[1..], |col|);
      [col[from..cuts[0]]] + SplitAt(col, cuts[0], cuts[1..])
  }

  // ---------------------------------------------------------------- operations and their index maps

  datatype Op =
    | Slice(start: Option<int>, stop: Option<int>, step: nat)
    | SelectIdxs(idxs: seq<int>)
    | SelectMask(mask: seq<bool>)
    | Repeat(times: nat, interleave: bool)
    | SampleRepeat(counts: seq<nat>)
    | Reorder(order: seq<int>)
    | ChunkPiece(chunks: nat, which: nat, padding: bool)

  predicate IndexOk(idxs: seq<int>, n: nat) {
    forall i :: 0 <= i < |idxs| ==> 0 <= idxs[i] + n && idxs[i] < n
  }

  function Wrap(idxs: seq<int>, n: nat): (r: seq<nat>)
    requires IndexOk(idxs, n)
    ensures |r| == |idxs| && forall i :: 0 <= i < |r| ==> r[i] < n
  {
    seq(|idxs|, i requires 0 <= i < |idxs| => if idxs[i] < 0 then idxs[i] + n else idxs[i])
  }

  /** Lengths of the pieces torch.chunk cuts `n` rows into. */
  function LengthsBy(n: nat, w: nat): seq<nat>
    requires w > 0
  {
    if n <= w then [n] else [w] + LengthsBy(n - w, w)
  }

  function ChunkLengths(n: nat, chunks: nat): seq<nat>
    requires chunks > 0
  {
    if n == 0 then seq(chunks, _ => 0) else LengthsBy(n, WeightLayout.CeilDiv(n, chunks))
  }

  /** The library accepts the operation on `n` rows. Without automatic padding only equal pieces are
      allowed; with it there must still be as many pieces as asked for. */
  predicate Accepts(op: Op, n: nat) {
    match op
    case Slice(_, _, step) => step > 0
    case SelectIdxs(idxs) => IndexOk(idxs, n)
    case SelectMask(mask) => |mask| == n
    case Repeat(_, _) => true
    case SampleRepeat(ts) => |ts| == n
    case Reorder(idxs) => IndexOk(idxs, n)
    case ChunkPiece(c, i, padding) => i < c && (padding || n % c == 0) && |ChunkLengths(n, c)| == c
  }

  /** The operation on one column. */
  function OnColumn<E>(op: Op, col: seq<E>): seq<E>
    requires Accepts(op, |col|)
  {
    match op
    case Slice(a, b, s) => SliceOf(col, a, b, s)
    case SelectIdxs(idxs) => Gather(col, Wrap(idxs, |col|))
    case SelectMask(mask) => Masked(col, mask)
    case Repeat(r, interleave) => if interleave then RepeatEach(col, r) else Tile(col, r)
    case SampleRepeat(ts) => RepeatBy(col, ts)
    case Reorder(idxs) => Gather(col, Wrap(idxs, |col|))
    case ChunkPiece(c, i, _) =>
      LengthsOfChunk(col, c);
      WeightLayout.Chunk(col, c)[i]
  }

  function Lengths<E>(pieces: seq<seq<E>>): (r: seq<nat>)
    ensures |r| == |pieces|
  {
    seq(|pieces|, i requires 0 <= i < |pieces| => |pieces[i]|)
  }

  lemma {:induction false} LengthsOfBy<E>(xs: seq<E>, w: nat)
    requires w > 0
    ensures Lengths(WeightLayout.ChunkBy(xs, w)) == LengthsBy(|xs|, w) && Flatten(WeightLayout.ChunkBy(xs, w)) == xs
    decreases |xs|
  {
    if |xs| <= w {
      assert [xs][1..] == [];
      assert Flatten([xs]) == xs + Flatten([xs][1..]);
    } else {
      LengthsOfBy(xs[w..], w);
      var pieces := [xs[..w]] + WeightLayout.ChunkBy(xs[w..], w);
      assert pieces[1..] == WeightLayout.ChunkBy(xs[w..], w);
      assert Lengths(pieces) == [w] + Lengths(pieces[1..]);
      assert xs == xs[..w] + xs[w..];
    }
  }

  lemma {:induction false} FlattenEmpties<E>(pieces: seq<seq<E>>)
    requires forall i :: 0 <= i < |pieces| ==> pieces[i] == []
    ensures Flatten(pieces) == []
  {
    if pieces != [] {
      FlattenEmpties(pieces[1..]);
    }
  }

  /** torch.chunk cuts into pieces of these lengths and loses nothing. */
  lemma {:induction false} LengthsOfChunk<E>(xs: seq<E>, chunks: nat)
    requires chunks > 0
    ensures Lengths(WeightLayout.Chunk(xs, chunks)) == ChunkLengths(|xs|, chunks)
    ensures Flatten(WeightLayout.Chunk(xs, chunks)) == xs
  {
    if |xs| == 0 {
      FlattenEmpties(WeightLayout.Chunk(xs, chunks));
    } else {
      LengthsOfBy(xs, WeightLayout.CeilDiv(|xs|, chunks));
    }
  }

  /** A length that divides gives as many pieces as asked for, all of the same size. */
  lemma {:induction false} EvenLengths(n: nat, chunks: nat)
    requires chunks > 0 && n % chunks == 0
    ensures |ChunkLengths(n, chunks)| == chunks
    ensures forall i :: 0 <= i < chunks ==> ChunkLengths(n, chunks)[i] == n / chunks
  {
    var xs, w := Fill(0, n), n / chunks;
    assert n == chunks * w;
    LengthsOfChunk(xs, chunks);
    WeightLayout.ChunkEven(xs, chunks, w);
    FlattenCut(xs, w, chunks);
    forall i | 0 <= i < chunks ensures ChunkLengths(n, chunks)[i] == w {
      assert Lengths(Cut(xs, w, chunks))[i] == |Cut(xs, w, chunks)[i]|;
    }
  }

  /** Index of row `k` of the result in the original, for each operation. */
  function IndexMap(op: Op, n: nat): seq<nat>
    requires Accepts(op, n)
  {
    match op
    case Slice(a, b, s) => StrideIndices(Bound(a, 0, n), Bound(b, n, n), s)
    case SelectIdxs(idxs) => Wrap(idxs, n)
    case SelectMask(mask) => TrueIndices(mask, 0)
    case Repeat(r, interleave) =>
      if n == 0 || r == 0 then []
      else seq(Times(n, r), k requires 0 <= k < Times(n, r) => if interleave then Quotient(k, r) else Remainder(k, n))
    case SampleRepeat(ts) => OwnerIndices(ts, 0)
    case Reorder(idxs) => Wrap(idxs, n)
    case ChunkPiece(c, i, _) => ChunkIndices(Total(ChunkLengths(n, c)[..i]), ChunkLengths(n, c)[i])
  }

  function ChunkIndices(from: nat, w: nat): seq<nat> {
    seq(w, j requires 0 <= j < w => from + j)
  }

  function StrideIndices(lo: nat, hi: nat, step: nat): seq<nat>
    requires step > 0
    decreases hi - lo
  {
    if lo >= hi then [] else [lo] + StrideIndices(lo + step, hi, step)
  }

  function TrueIndices(mask: seq<bool>, base: nat): seq<nat> {
    if mask == [] then [] else (if mask[0] then [base] else []) + TrueIndices(mask[1..], base + 1)
  }

  function OwnerIndices(ts: seq<nat>, base: nat): seq<nat> {
    if ts == [] then [] else Fill(base, ts[0]) + OwnerIndices(ts[1..], base + 1)
  }

  function Total(ts: seq<nat>): nat {
    if ts == [] then 0 else ts[0] + Total(ts[1..])
  }

  /** Per-sample repetition follows prefix sums: row `k` comes from the row whose span holds `k`. */
  lemma {:induction false} OwnerByPrefixSums(ts: seq<nat>, base: nat, i: nat, k: nat)
    requires i < |ts| && Total(ts[..i]) <= k < Total(ts[..i + 1])
    ensures |OwnerIndices(ts, base)| == Total(ts)
    ensures k < Total(ts) && OwnerIndices(ts, base)[k] == base + i
  {
    OwnerCount(ts, base);
    OwnerCount(ts[1..], base + 1);
    if i == 0 {
      assert ts[..1] == [ts[0]];
      assert Total([ts[0]][1..]) == 0;
    } else {
      assert ts[..i][1..] == ts[1..][..i - 1];
      assert ts[..i + 1][1..] == ts[1..][..i];
      OwnerByPrefixSums(ts[1..], base + 1, i - 1, k - ts[0]);
    }
  }

  lemma {:induction false} OwnerCount(ts: seq<nat>, base: nat)
    ensures |OwnerIndices(ts, base)| == Total(ts)
  {
    if ts != [] {
      OwnerCount(ts[1..], base + 1);
    }
  }

  // ---------------------------------------------------------------- each operation is its index map

  ghost predicate Reads<E>(out: seq<E>, col: seq<E>, f: seq<nat>) {
    |out| == |f| && forall k :: 0 <= k < |f| ==> f[k] < |col| && out[k] == col[f[k]]
  }

  /** Element `m` of the `q`-th run of `r` copies is a copy of element `q`. */
  lemma {:induction false} RepeatEachAt<E>(col: seq<E>, r: nat, q: nat, m: nat)
    requires q < |col| && m < r
    ensures Times(q, r) + m < |RepeatEach(col, r)| && RepeatEach(col, r)[Times(q, r) + m] == col[q]
  {
    if q > 0 {
      RepeatEachAt(col[1..], r, q - 1, m);
      MulStep(q, r);
    }
  }

  lemma {:induction false} RepeatEachLength<E>(col: seq<E>, r: nat)
    ensures |RepeatEach(col, r)| == Times(|col|, r)
  {
    if col != [] {
      RepeatEachLength(col[1..], r);
      MulStep(|col|, r);
    }
  }

  lemma {:induction false} DivUnique(k: nat, r: nat, q: int, m: int)
    requires r > 0 && k == q * r + m && 0 <= m < r
    ensures k / r == q && k % r == m
  {
    var q', m' := k / r, k % r;
    assert q * r + m == q' * r + m';
    assert (q + 1) * r == q * r + r && (q' + 1) * r == q' * r + r;
    if q < q' {
      MulMono(q + 1, q', r);
    } else if q' < q {
      MulMono(q' + 1, q, r);
    }
  }

  /** Element `m` of the `q`-th copy of the column is its element `m`. */
  lemma {:induction false} TileAt<E>(col: seq<E>, r: nat, q: nat, m: nat)
    requires q < r && m < |col|
    ensures Times(q, |col|) + m < |Tile(col, r)| && Tile(col, r)[Times(q, |col|) + m] == col[m]
    decreases r
  {
    if q > 0 {
      TileAt(col, r - 1, q - 1, m);
      MulStep(q, |col|);
    }
  }

  lemma {:induction false} TileLength<E>(col: seq<E>, r: nat)
    ensures |Tile(col, r)| == Times(|col|, r)
    decreases r
  {
    if r > 0 {
      TileLength(col, r - 1);
      MulStep(r, |col|);
    }
  }

  lemma {:induction false} RepeatByReads<E>(whole: seq<E>, base: nat, times: seq<nat>)
    requires base + |times| == |whole|
    ensures Reads(RepeatBy(whole[base..], times), whole, OwnerIndices(times, base))
    decreases |times|
  {
    if times != [] {
      assert whole[base..][1..] == whole[base + 1..];
      RepeatByReads(whole, base + 1, times[1..]);
    }
  }

  lemma {:induction false} MaskedReads<E>(whole: seq<E>, base: nat, mask: seq<bool>)
    requires base + |mask| == |whole|
    ensures Reads(Masked(whole[base..], mask), whole, TrueIndices(mask, base))
    decreases |mask|
  {
    if mask != [] {
      assert whole[base..][1..] == whole[base + 1..];
      MaskedReads(whole, base + 1, mask[1..]);
    }
  }

  lemma {:induction false} StrideReads<E>(whole: seq<E>, lo: nat, hi: nat, step: nat)
    requires step > 0 && lo <= hi <= |whole|
    ensures Reads(Stride(whole[lo..hi], step), whole, StrideIndices(lo, hi, step))
    decreases hi - lo
  {
    if lo < hi {
      if lo + step <= hi {
        assert whole[lo..hi][step..] == whole[lo + step..hi];
        StrideReads(whole, lo + step, hi, step);
      } else {
        assert whole[lo..hi][hi - lo..] == [];
      }
    }
  }

  /** A piece is a slice of the joined whole, from the sum of the lengths before it. */
  lemma {:induction false} PieceIsSlice<E>(pieces: seq<seq<E>>, i: nat)
    requires i < |pieces|
    ensures var from := Total(Lengths(pieces)[..i]);
      from + |pieces[i]| <= |Flatten(pieces)| && pieces[i] == Flatten(pieces)[from..from + |pieces[i]|]
    decreases i
  {
    var ls := Lengths(pieces);
    if i > 0 {
      PieceIsSlice(pieces[1..], i - 1);
      assert Lengths(pieces[1..])[..i - 1] == ls[..i][1..];
      assert ls[..i][0] == |pieces[0]|;
    }
  }

  lemma {:induction false} SliceReads<E>(col: seq<E>, from: nat, w: nat)
    requires from + w <= |col|
    ensures Reads(col[from..from + w], col, ChunkIndices(from, w))
  {
  }

  lemma {:induction false} ChunkReads<E>(col: seq<E>, c: nat, i: nat, padding: bool)
    requires Accepts(ChunkPiece(c, i, padding), |col|)
    ensures Reads(OnColumn(ChunkPiece(c, i, padding), col), col, IndexMap(ChunkPiece(c, i, padding), |col|))
  {
    var pieces := WeightLayout.Chunk(col, c);
    LengthsOfChunk(col, c);
    PieceIsSlice(pieces, i);
    assert Lengths(pieces)[i] == |pieces[i]|;
    SliceReads(col, Total(Lengths(pieces)[..i]), |pieces[i]|);
  }

  lemma {:induction false} RepeatReads<E>(col: seq<E>, r: nat, interleave: bool)
    ensures Reads(OnColumn(Repeat(r, interleave), col), col, IndexMap(Repeat(r, interleave), |col|))
  {
    var n := |col|;
    RepeatEachLength(col, r);
    TileLength(col, r);
    if n > 0 && r > 0 {
      forall k | 0 <= k < Times(n, r)
        ensures Quotient(k, r) < n && RepeatEach(col, r)[k] == col[Quotient(k, r)]
        ensures Tile(col, r)[k] == col[Remainder(k, n)]
      {
        QuotientBelow(k, n, r);
        DivParts(k, r);
        RepeatEachAt(col, r, Quotient(k, r), Remainder(k, r));
        QuotientBelow(k, r, n);
        DivParts(k, n);
        TileAt(col, r, Quotient(k, n), Remainder(k, n));
      }
    }
  }

  /** Whatever the library call, column `col` is read through the operation's index map. */
  lemma {:induction false} OnColumnReads<E>(op: Op, col: seq<E>)
    requires Accepts(op, |col|)
    ensures Reads(OnColumn(op, col), col, IndexMap(op, |col|))
  {
    match op
    case Slice(a, b, s) =>
      var lo, hi := Bound(a, 0, |col|), Bound(b, |col|, |col|);
      if lo < hi {
        StrideReads(col, lo, hi, s);
      }
    case SelectIdxs(idxs) =>
    case SelectMask(mask) =>
      assert col[0..] == col;
      MaskedReads(col, 0, mask);
    case Repeat(r, interleave) => RepeatReads(col, r, interleave);
    case SampleRepeat(ts) =>
      assert col[0..] == col;
      RepeatByReads(col, 0, ts);
    case Reorder(idxs) =>
    case ChunkPiece(c, i, padding) => ChunkReads(col, c, i, padding);
  }

  // ---------------------------------------------------------------- numpy's own operations on object columns

  /** np.cumsum of the tensor chunk lengths, last one dropped: where np.array_split cuts. */
  function CutPoints(from: nat, lengths: seq<nat>): seq<nat>
    decreases |lengths|
  {
    if |lengths| <= 1 then [] else [from + lengths[0]] + CutPoints(from + lengths[0], lengths[1..])
  }

  /** Splitting at the running lengths of some pieces gives these pieces. */
  lemma {:induction false} SplitIntoPieces<E>(col: seq<E>, from: nat, pieces: seq<seq<E>>)
    requires pieces != [] && from <= |col| && col[from..] == Flatten(pieces)
    ensures Ascending(from, CutPoints(from, Lengths(pieces)), |col|)
    ensures SplitAt(col, from, CutPoints(from, Lengths(pieces))) == pieces
    decreases |pieces|
  {
    if |pieces| == 1 {
      assert pieces == [pieces[0]] && pieces[1..] == [];
      assert Flatten(pieces) == pieces[0];
    } else {
      var next := from + |pieces[0]|;
      FirstPiece(col, from, pieces);
      SplitIntoPieces(col, next, pieces[1..]);
      assert Lengths(pieces)[1..] == Lengths(pieces[1..]);
    }
  }

  lemma {:induction false} FirstPiece<E>(col: seq<E>, from: nat, pieces: seq<seq<E>>)
    requires pieces != [] && from <= |col| && col[from..] == Flatten(pieces)
    ensures var next := from + |pieces[0]|;
      next <= |col| && col[from..next] == pieces[0] && col[next..] == Flatten(pieces[1..])
  {
    var rest := col[from..];
    assert rest == pieces[0] + Flatten(pieces[1..]);
    assert rest[..|pieces[0]|] == pieces[0] && rest[|pieces[0]|..] == Flatten(pieces[1..]);
  }

  /** Splitting object columns at the tensors' running chunk lengths gives the same pieces as
      chunking them like a tensor, whether the length divides or not. */
  lemma {:induction false} ArraySplitMatchesChunk<E>(col: seq<E>, chunks: nat)
    requires chunks > 0
    ensures Ascending(0, CutPoints(0, ChunkLengths(|col|, chunks)), |col|)
    ensures SplitAt(col, 0, CutPoints(0, ChunkLengths(|col|, chunks))) == WeightLayout.Chunk(col, chunks)
  {
    LengthsOfChunk(col, chunks);
    assert |ChunkLengths(|col|, chunks)| > 0;
    assert col[0..] == col;
    SplitIntoPieces(col, 0, WeightLayout.Chunk(col, chunks));
  }

  /** np.repeat along the rows with one count: row k of the result is row k / r. */
  function NpRepeat<E>(col: seq<E>, r: nat): seq<E> {
    if r == 0 then []
    else
      seq(Times(|col|, r), k requires 0 <= k < Times(|col|, r) =>
        QuotientBelow(k, |col|, r);
        col[Quotient(k, r)])
  }

  /** np.tile along the rows: row k of the result is row k mod the number of rows. */
  function NpTile<E>(col: seq<E>, r: nat): seq<E> {
    if col == [] then [] else seq(Times(|col|, r), k requires 0 <= k < Times(|col|, r) => col[Remainder(k, |col|)])
  }

  /** np.repeat with one count per row, built from the last row on. */
  function NpRepeatBy<E>(col: seq<E>, times: seq<nat>): seq<E>
    requires |times| == |col|
  {
    if col == [] then []
    else
      var n := |col| - 1;
      NpRepeatBy(col[..n], times[..n]) + Fill(col[n], times[n])
  }

  /** A numpy boolean mask picks the rows at its nonzero positions. */
  function NpMasked<E>(col: seq<E>, mask: seq<bool>): seq<E>
    requires |mask| == |col|
  {
    MaskedReads(col, 0, mask);
    assert col[0..] == col;
    Gather(col, TrueIndices(mask, 0))
  }

  /** The operation on an object column. Slicing and indexing are the same subscripts for both
      libraries; the other calls are numpy's own. */
  function OnObjects<E>(op: Op, col: seq<E>): seq<E>
    requires Accepts(op, |col|)
  {
    match op
    case Slice(a, b, s) => SliceOf(col, a, b, s)
    case SelectIdxs(idxs) => Gather(col, Wrap(idxs, |col|))
    case SelectMask(mask) => NpMasked(col, mask)
    case Repeat(r, interleave) => if interleave then NpRepeat(col, r) else NpTile(col, r)
    case SampleRepeat(ts) => NpRepeatBy(col, ts)
    case Reorder(idxs) => Gather(col, Wrap(idxs, |col|))
    case ChunkPiece(c, i, _) =>
      ArraySplitMatchesChunk(col, c);
      LengthsOfChunk(col, c);
      SplitAt(col, 0, CutPoints(0, ChunkLengths(|col|, c)))[i]
  }

  lemma {:induction false} RepeatBySnoc<E>(col: seq<E>, times: seq<nat>)
    requires |times| == |col| && col != []
    ensures var n := |col| - 1; RepeatBy(col, times) == RepeatBy(col[..n], times[..n]) + Fill(col[n], times[n])
    decreases |col|
  {
    var n := |col| - 1;
    if n > 0 {
      RepeatBySnoc(col[1..], times[1..]);
      assert col[1..][..n - 1] == col[..n][1..] && times[1..][..n - 1] == times[..n][1..];
    }
  }

  lemma {:induction false} NpRepeatByMatches<E>(col: seq<E>, times: seq<nat>)
    requires |times| == |col|
    ensures NpRepeatBy(col, times) == RepeatBy(col, times)
    decreases |col|
  {
    if col != [] {
      NpRepeatByMatches(col[..|col| - 1], times[..|col| - 1]);
      RepeatBySnoc(col, times);
    }
  }

  lemma {:induction false} NpMaskedMatches<E>(col: seq<E>, mask: seq<bool>)
    requires |mask| == |col|
    ensures NpMasked(col, mask) == Masked(col, mask)
  {
    MaskedReads(col, 0, mask);
    assert col[0..] == col;
  }

  lemma {:induction false} NpRepeatMatches<E>(col: seq<E>, r: nat, interleave: bool)
    ensures OnObjects(Repeat(r, interleave), col) == OnColumn(Repeat(r, interleave), col)
  {
    RepeatReads(col, r, interleave);
    RepeatEachLength(col, r);
    TileLength(col, r);
  }

  /** Numpy's calls on object columns do row by row what torch's do on tensors. */
  lemma {:induction false} ObjectsLikeTensors<E>(op: Op, col: seq<E>)
    requires Accepts(op, |col|)
    ensures OnObjects(op, col) == OnColumn(op, col)
  {
    match op
    case Repeat(r, interleave) => NpRepeatMatches(col, r, interleave);
    case SampleRepeat(ts) => NpRepeatByMatches(col, ts);
    case SelectMask(mask) => NpMaskedMatches(col, mask);
    case ChunkPiece(c, i, _) => ArraySplitMatchesChunk(col, c);
    case _ =>
  }

  // ---------------------------------------------------------------- whole DataProtos, whole sequences of operations

  function Apply<T, O>(op: Op, d: DataProto<T, O>): DataProto<T, O>
    requires Valid(d) && Accepts(op, d.size)
  {
    DataProto(
      |IndexMap(op, d.size)|,
      map k | k in d.tensors :: OnColumn(op, d.tensors[k]),
      map k | k in d.objects :: OnObjects(op, d.objects[k]))
  }

  lemma {:induction false} ApplyValid<T, O>(op: Op, d: DataProto<T, O>)
    requires Valid(d) && Accepts(op, d.size)
    ensures Valid(Apply(op, d))
  {
    forall k | k in d.tensors ensures |OnColumn(op, d.tensors[k])| == |IndexMap(op, d.size)| {
      OnColumnReads(op, d.tensors[k]);
    }
    forall k | k in d.objects ensures |OnObjects(op, d.objects[k])| == |IndexMap(op, d.size)| {
      OnColumnReads(op, d.objects[k]);
      ObjectsLikeTensors(op, d.objects[k]);
    }
  }

  /** Operations one after another; None as soon as one is refused. */
  function RunOps<T, O>(ops: seq<Op>, d: DataProto<T, O>): Option<DataProto<T, O>>
    requires Valid(d)
  {
    if ops == [] then Some(d)
    else if !Accepts(ops[0], d.size) then None
    else
      ApplyValid(ops[0], d);
      RunOps(ops[1..], Apply(ops[0], d))
  }

  function InBounds(f: seq<nat>, n: nat): bool {
    forall i :: 0 <= i < |f| ==> f[i] < n
  }

  /** One index map for the whole run, computed from the operations and the row count alone. */
  function RunIndex(ops: seq<Op>, n: nat): Option<seq<nat>> {
    if ops == [] then Some(seq(n, i requires 0 <= i < n => i))
    else if !Accepts(ops[0], n) then None
    else
      var f := IndexMap(ops[0], n);
      match RunIndex(ops[1..], |f|)
      case None => None
      case Some(g) => if InBounds(g, |f|) then Some(Gather(f, g)) else None
  }

  lemma {:induction false} ReadsTwice<E>(a: seq<E>, b: seq<E>, c: seq<E>, f: seq<nat>, g: seq<nat>)
    requires Reads(b, a, f) && Reads(c, b, g)
    ensures InBounds(g, |f|) && Reads(c, a, Gather(f, g))
  {
  }

  ghost predicate Aligned<T, O>(out: DataProto<T, O>, d: DataProto<T, O>, f: seq<nat>) {
    && out.size == |f| && InBounds(f, d.size)
    && out.tensors.Keys == d.tensors.Keys && out.objects.Keys == d.objects.Keys
    && (forall k :: k in d.tensors ==> Reads(out.tensors[k], d.tensors[k], f))
    && (forall k :: k in d.objects ==> Reads(out.objects[k], d.objects[k], f))
  }

  lemma {:induction false} IndexMapInBounds(op: Op, n: nat)
    requires Accepts(op, n)
    ensures InBounds(IndexMap(op, n), n)
  {
    OnColumnReads(op, Fill(0, n));
  }

  lemma {:induction false} TensorsAligned<T, O>(op: Op, d: DataProto<T, O>, k: string)
    requires Valid(d) && Accepts(op, d.size) && k in d.tensors
    ensures Reads(Apply(op, d).tensors[k], d.tensors[k], IndexMap(op, d.size))
  {
    OnColumnReads(op, d.tensors[k]);
  }

  lemma {:induction false} ObjectsAligned<T, O>(op: Op, d: DataProto<T, O>, k: string)
    requires Valid(d) && Accepts(op, d.size) && k in d.objects
    ensures Reads(Apply(op, d).objects[k], d.objects[k], IndexMap(op, d.size))
  {
    OnColumnReads(op, d.objects[k]);
    ObjectsLikeTensors(op, d.objects[k]);
  }

  lemma {:induction false} AppliedAligned<T, O>(op: Op, d: DataProto<T, O>)
    requires Valid(d) && Accepts(op, d.size)
    ensures Aligned(Apply(op, d), d, IndexMap(op, d.size))
  {
    var out, f := Apply(op, d), IndexMap(op, d.size);
    IndexMapInBounds(op, d.size);
    forall k | k in d.tensors ensures Reads(out.tensors[k], d.tensors[k], f) {
      TensorsAligned(op, d, k);
    }
    forall k | k in d.objects ensures Reads(out.objects[k], d.objects[k], f) {
      ObjectsAligned(op, d, k);
    }
  }

  lemma {:induction false} AlignedTwice<T, O>(a: DataProto<T, O>, b: DataProto<T, O>, c: DataProto<T, O>,
        f: seq<nat>, g: seq<nat>)
    requires Valid(a) && Aligned(b, a, f) && Aligned(c, b, g)
    ensures InBounds(g, |f|) && Aligned(c, a, Gather(f, g))
  {
    forall k | k in a.tensors ensures Reads(c.tensors[k], a.tensors[k], Gather(f, g)) {
      ReadsTwice(a.tensors[k], b.tensors[k], c.tensors[k], f, g);
    }
    forall k | k in a.objects ensures Reads(c.objects[k], a.objects[k], Gather(f, g)) {
      ReadsTwice(a.objects[k], b.objects[k], c.objects[k], f, g);
    }
  }

  /** Any sequence of operations reads every tensor column and every object column through one
      common index map, so rows stay together; and it is refused for all columns or for none. */
  lemma {:induction false} RowsStayAligned<T, O>(ops: seq<Op>, d: DataProto<T, O>)
    requires Valid(d)
    ensures RunOps(ops, d).Some? <==> RunIndex(ops, d.size).Some?
    ensures RunOps(ops, d).Some? ==> Aligned(RunOps(ops, d).value, d, RunIndex(ops, d.size).value)
    decreases |ops|
  {
    if ops != [] && Accepts(ops[0], d.size) {
      var next := Apply(ops[0], d);
      var f := IndexMap(ops[0], d.size);
      ApplyValid(ops[0], d);
      AppliedAligned(ops[0], d);
      RowsStayAligned(ops[1..], next);
      if RunOps(ops[1..], next).Some? {
        AlignedTwice(d, next, RunOps(ops[1..], next).value, f, RunIndex(ops[1..], |f|).value);
      }
    }
  }
}
