/** Data-parallel dispatch in verl's protocol.py: pad to a multiple of the number of workers,
    chunk, let each worker map its rows, concatenate, unpad. */
module Dispatch {
  import opened Prelude
  import opened RowAlgebra
  import opened WeightLayout

  /** One row across all tensor and object columns. */
  datatype Row<T, O> = Row(tensors: map<string, T>, objects: map<string, O>)

  ghost function RowAt<T, O>(d: DataProto<T, O>, k: nat): Row<T, O>
    requires Valid(d) && k < d.size
  {
    Row(map c | c in d.tensors :: d.tensors[c][k], map c | c in d.objects :: d.objects[c][k])
  }

  ghost function Rows<T, O>(d: DataProto<T, O>): (r: seq<Row<T, O>>)
    requires Valid(d)
    ensures |r| == d.size
  {
    seq(d.size, k requires 0 <= k < d.size => RowAt(d, k))
  }

  ghost predicate SameColumns<T, O>(a: DataProto<T, O>, b: DataProto<T, O>) {
    a.tensors.Keys == b.tensors.Keys && a.objects.Keys == b.objects.Keys
  }

  // ---------------------------------------------------------------- concat

  function TensorColumn<T, O>(ds: seq<DataProto<T, O>>, c: string): seq<T>
    requires forall i :: 0 <= i < |ds| ==> c in ds[i].tensors
  {
    if ds == [] then [] else ds[0].tensors[c] + TensorColumn(ds[1..], c)
  }

  function ObjectColumn<T, O>(ds: seq<DataProto<T, O>>, c: string): seq<O>
    requires forall i :: 0 <= i < |ds| ==> c in ds[i].objects
  {
    if ds == [] then [] else ds[0].objects[c] + ObjectColumn(ds[1..], c)
  }

  function TotalSize<T, O>(ds: seq<DataProto<T, O>>): nat {
    if ds == [] then 0 else ds[0].size + TotalSize(ds[1..])
  }

  ghost predicate Concatable<T, O>(ds: seq<DataProto<T, O>>) {
    && (forall i :: 0 <= i < |ds| ==> Valid(ds[i]))
    && (forall i, j :: 0 <= i < |ds| && 0 <= j < |ds| ==> SameColumns(ds[i], ds[j]))
  }

  function Concat<T, O>(ds: seq<DataProto<T, O>>): DataProto<T, O>
    requires ds != [] && Concatable(ds)
  {
    assert forall i :: 0 <= i < |ds| ==> SameColumns(ds[0], ds[i]);
    DataProto(
      TotalSize(ds),
      map c | c in ds[0].tensors :: TensorColumn(ds, c),
      map c | c in ds[0].objects :: ObjectColumn(ds, c))
  }

  ghost function AllRows<T, O>(ds: seq<DataProto<T, O>>): seq<Row<T, O>>
    requires forall i :: 0 <= i < |ds| ==> Valid(ds[i])
  {
    if ds == [] then [] else Rows(ds[0]) + AllRows(ds[1..])
  }

  lemma {:induction false} TensorColumnLength<T, O>(ds: seq<DataProto<T, O>>, c: string)
    requires forall i :: 0 <= i < |ds| ==> Valid(ds[i]) && c in ds[i].tensors
    ensures |TensorColumn(ds, c)| == TotalSize(ds)
  {
    if ds != [] {
      TensorColumnLength(ds[1..], c);
    }
  }

  lemma {:induction false} ObjectColumnLength<T, O>(ds: seq<DataProto<T, O>>, c: string)
    requires forall i :: 0 <= i < |ds| ==> Valid(ds[i]) && c in ds[i].objects
    ensures |ObjectColumn(ds, c)| == TotalSize(ds)
  {
    if ds != [] {
      ObjectColumnLength(ds[1..], c);
    }
  }

  lemma {:induction false} ConcatValid<T, O>(ds: seq<DataProto<T, O>>)
    requires ds != [] && Concatable(ds)
    ensures Valid(Concat(ds)) && SameColumns(Concat(ds), ds[0])
  {
    forall c | c in ds[0].tensors ensures |Concat(ds).tensors[c]| == TotalSize(ds) {
      assert forall i :: 0 <= i < |ds| ==> SameColumns(ds[0], ds[i]);
      TensorColumnLength(ds, c);
    }
    forall c | c in ds[0].objects ensures |Concat(ds).objects[c]| == TotalSize(ds) {
      assert forall i :: 0 <= i < |ds| ==> SameColumns(ds[0], ds[i]);
      ObjectColumnLength(ds, c);
    }
  }

  lemma {:induction false} RowsAgree<T, O>(a: DataProto<T, O>, x: nat, b: DataProto<T, O>, y: nat)
    requires Valid(a) && Valid(b) && x < a.size && y < b.size && SameColumns(a, b)
    requires forall c :: c in a.tensors ==> a.tensors[c][x] == b.tensors[c][y]
    requires forall c :: c in a.objects ==> a.objects[c][x] == b.objects[c][y]
    ensures RowAt(a, x) == RowAt(b, y)
  {
    assert RowAt(a, x).tensors == RowAt(b, y).tensors;
    assert RowAt(a, x).objects == RowAt(b, y).objects;
  }

  lemma {:induction false} FirstTwo<T, O>(ds: seq<DataProto<T, O>>)
    requires |ds| > 1 && Concatable(ds) && Concatable(ds[1..])
    ensures SameColumns(Concat(ds), ds[0]) && SameColumns(Concat(ds[1..]), ds[0])
  {
    assert SameColumns(ds[0], ds[1]) && ds[1..][0] == ds[1];
  }

  lemma {:induction false} TensorStep<T, O>(ds: seq<DataProto<T, O>>, c: string)
    requires |ds| > 1 && Concatable(ds) && Concatable(ds[1..]) && c in ds[0].tensors
    ensures c in Concat(ds).tensors && c in Concat(ds[1..]).tensors
    ensures Concat(ds).tensors[c] == ds[0].tensors[c] + Concat(ds[1..]).tensors[c]
  {
    FirstTwo(ds);
  }

  lemma {:induction false} ObjectStep<T, O>(ds: seq<DataProto<T, O>>, c: string)
    requires |ds| > 1 && Concatable(ds) && Concatable(ds[1..]) && c in ds[0].objects
    ensures c in Concat(ds).objects && c in Concat(ds[1..]).objects
    ensures Concat(ds).objects[c] == ds[0].objects[c] + Concat(ds[1..]).objects[c]
  {
    FirstTwo(ds);
  }

  lemma {:induction false} ConcatStep<T, O>(ds: seq<DataProto<T, O>>, k: nat)
    requires |ds| > 1 && Concatable(ds) && Concatable(ds[1..]) && k < TotalSize(ds)
    requires Valid(Concat(ds)) && Valid(Concat(ds[1..]))
    ensures RowAt(Concat(ds), k)
         == if k < ds[0].size then RowAt(ds[0], k) else RowAt(Concat(ds[1..]), k - ds[0].size)
  {
    var whole, rest, n := Concat(ds), Concat(ds[1..]), ds[0].size;
    FirstTwo(ds);
    forall c | c in ds[0].tensors ensures whole.tensors[c] == ds[0].tensors[c] + rest.tensors[c] {
      TensorStep(ds, c);
    }
    forall c | c in ds[0].objects ensures whole.objects[c] == ds[0].objects[c] + rest.objects[c] {
      ObjectStep(ds, c);
    }
    if k < n {
      RowsAgree(whole, k, ds[0], k);
    } else {
      RowsAgree(whole, k, rest, k - n);
    }
  }

  lemma {:induction false} ConcatOne<T, O>(d: DataProto<T, O>)
    requires Valid(d) && Concatable([d])
    ensures Concat([d]) == d && AllRows([d]) == Rows(d)
  {
    var ds := [d];
    assert ds[1..] == [];
    assert TotalSize(ds) == d.size;
    forall c | c in d.tensors ensures TensorColumn(ds, c) == d.tensors[c] {
      assert TensorColumn(ds, c) == d.tensors[c] + TensorColumn(ds[1..], c);
    }
    forall c | c in d.objects ensures ObjectColumn(ds, c) == d.objects[c] {
      assert ObjectColumn(ds, c) == d.objects[c] + ObjectColumn(ds[1..], c);
    }
    assert Concat(ds).tensors == d.tensors;
    assert Concat(ds).objects == d.objects;
  }

  /** Concatenation lays the rows of the parts end to end. */
  lemma {:induction false} ConcatRows<T, O>(ds: seq<DataProto<T, O>>)
    requires ds != [] && Concatable(ds)
    ensures Valid(Concat(ds)) && Rows(Concat(ds)) == AllRows(ds)
    decreases |ds|
  {
    ConcatValid(ds);
    if |ds| == 1 {
      assert ds == [ds[0]];
      ConcatOne(ds[0]);
    } else {
      TailConcatable(ds);
      ConcatRows(ds[1..]);
      ConcatHead(ds);
    }
  }

  lemma {:induction false} ConcatHead<T, O>(ds: seq<DataProto<T, O>>)
    requires |ds| > 1 && Concatable(ds) && Concatable(ds[1..]) && Valid(Concat(ds)) && Valid(Concat(ds[1..]))
    ensures Rows(Concat(ds)) == Rows(ds[0]) + Rows(Concat(ds[1..]))
  {
    assert TotalSize(ds) == ds[0].size + TotalSize(ds[1..]);
    forall k | 0 <= k < TotalSize(ds) ensures Rows(Concat(ds))[k] == (Rows(ds[0]) + Rows(Concat(ds[1..])))[k] {
      ConcatStep(ds, k);
    }
  }

  lemma {:induction false} TailConcatable<T, O>(ds: seq<DataProto<T, O>>)
    requires Concatable(ds) && ds != []
    ensures Concatable(ds[1..])
  {
    forall i, j | 0 <= i < |ds[1..]| && 0 <= j < |ds[1..]| ensures SameColumns(ds[1..][i], ds[1..][j]) {
      assert SameColumns(ds[i + 1], ds[j + 1]);
    }
  }

  // ---------------------------------------------------------------- padding

  function Head<T, O>(d: DataProto<T, O>, n: nat): (r: DataProto<T, O>)
    requires Valid(d) && n <= d.size
    ensures Valid(r) && SameColumns(r, d) && r.size == n
  {
    DataProto(n, map c | c in d.tensors :: d.tensors[c][..n], map c | c in d.objects :: d.objects[c][..n])
  }

  lemma {:induction false} HeadRow<T, O>(d: DataProto<T, O>, n: nat, k: nat)
    requires Valid(d) && k < n <= d.size
    ensures RowAt(Head(d, n), k) == RowAt(d, k)
  {
    RowsAgree(Head(d, n), k, d, k);
  }

  lemma {:induction false} HeadRows<T, O>(d: DataProto<T, O>, n: nat)
    requires Valid(d) && n <= d.size
    ensures Rows(Head(d, n)) == Rows(d)[..n]
  {
    forall k | 0 <= k < n ensures Rows(Head(d, n))[k] == Rows(d)[..n][k] {
      HeadRow(d, n, k);
    }
  }

  /** The first `n` elements of `xs` repeated for ever. */
  function Cycle<E>(xs: seq<E>, n: nat): (r: seq<E>)
    requires xs != []
    ensures |r| == n
  {
    seq(n, k requires 0 <= k < n => xs[k % |xs|])
  }

  lemma {:induction false} CycleExtend<E>(xs: seq<E>, laps: nat, take: nat)
    requires xs != [] && take <= |xs|
    ensures Cycle(xs, laps * |xs| + take) == Cycle(xs, laps * |xs|) + xs[..take]
  {
    forall k | laps * |xs| <= k < laps * |xs| + take ensures k % |xs| == k - laps * |xs| || k == laps * |xs| + |xs| {
      DivUnique(k, |xs|, laps, k - laps * |xs|);
    }
  }

  lemma {:induction false} AllRowsSnoc<T, O>(ds: seq<DataProto<T, O>>, d: DataProto<T, O>)
    requires (forall i :: 0 <= i < |ds| ==> Valid(ds[i])) && Valid(d)
    ensures forall i :: 0 <= i < |ds + [d]| ==> Valid((ds + [d])[i])
    ensures AllRows(ds + [d]) == AllRows(ds) + Rows(d)
    decreases |ds|
  {
    if ds == [] {
      assert ds + [d] == [d];
      assert AllRows([d][1..]) == [];
    } else {
      assert (ds + [d])[1..] == ds[1..] + [d];
      AllRowsSnoc(ds[1..], d);
    }
  }

  /** The parts have the data's columns, and together the first `n` of the data's rows repeated for ever. */
  ghost predicate PadsTo<T, O>(padding: seq<DataProto<T, O>>, d: DataProto<T, O>, n: nat)
    requires Valid(d) && d.size > 0
  {
    && padding != [] && (forall i :: 0 <= i < |padding| ==> Valid(padding[i]) && SameColumns(padding[i], d))
    && AllRows(padding) == Cycle(Rows(d), n)
  }

  lemma {:induction false} PadsToSelf<T, O>(d: DataProto<T, O>)
    requires Valid(d) && d.size > 0
    ensures PadsTo([d], d, d.size)
  {
    assert AllRows([d][1..]) == [];
    CycleExtend(Rows(d), 0, d.size);
  }

  lemma {:induction false} PadMore<T, O>(padding: seq<DataProto<T, O>>, d: DataProto<T, O>, laps: nat, take: nat)
    requires Valid(d) && 0 < d.size && take <= d.size && PadsTo(padding, d, Times(laps, d.size))
    ensures PadsTo(padding + [Head(d, take)], d, Times(laps, d.size) + take)
  {
    HeadRows(d, take);
    AllRowsSnoc(padding, Head(d, take));
    CycleExtend(Rows(d), laps, take);
  }

  /** The loop: the data and then heads of it, until `padSize` rows are gathered. */
  method PaddingProtos<T, O>(d: DataProto<T, O>, padSize: nat) returns (padding: seq<DataProto<T, O>>)
    requires Valid(d) && d.size > 0
    ensures PadsTo(padding, d, d.size + padSize)
  {
    padding := [d];
    var remaining: nat := padSize;
    ghost var laps := 1;
    PadsToSelf(d);
    while remaining > 0
      invariant remaining <= padSize
      invariant remaining > 0 ==> Times(laps, d.size) == d.size + padSize - remaining
      invariant PadsTo(padding, d, d.size + padSize - remaining)
      decreases remaining
    {
      var take := Min(remaining, d.size);
      PadMore(padding, d, laps, take);
      MulStep(laps + 1, d.size);
      padding := padding + [Head(d, take)];
      remaining := remaining - take;
      laps := laps + 1;
    }
  }

  lemma {:induction false} PaddingConcat<T, O>(d: DataProto<T, O>, padding: seq<DataProto<T, O>>, n: nat)
    requires Valid(d) && d.size > 0 && PadsTo(padding, d, n)
    ensures Concatable(padding) && Valid(Concat(padding)) && SameColumns(Concat(padding), d)
    ensures Concat(padding).size == n && Rows(Concat(padding)) == Cycle(Rows(d), n)
  {
    forall i, j | 0 <= i < |padding| && 0 <= j < |padding| ensures SameColumns(padding[i], padding[j]) {
      assert SameColumns(padding[i], d) && SameColumns(padding[j], d);
    }
    ConcatValid(padding);
    ConcatRows(padding);
    assert |Rows(Concat(padding))| == n;
  }

  method PadToDivisor<T, O>(d: DataProto<T, O>, divisor: nat) returns (padded: DataProto<T, O>, padSize: nat)
    requires Valid(d) && divisor > 0
    ensures Valid(padded) && SameColumns(padded, d) && padded.size == d.size + padSize
    ensures d.size > 0 ==> padded.size % divisor == 0 && padSize < divisor
    ensures d.size > 0 ==> Rows(padded) == Cycle(Rows(d), d.size + padSize)
    ensures d.size == 0 ==> padded == d && padSize == 0
  {
    if d.size % divisor != 0 {
      padSize := divisor - d.size % divisor;
      var padding := PaddingProtos(d, padSize);
      PaddingConcat(d, padding, d.size + padSize);
      padded := Concat(padding);
      PaddedDivides(d.size, divisor);
    } else {
      padded, padSize := d, 0;
      if d.size > 0 {
        CycleExtend(Rows(d), 0, d.size);
      }
    }
  }

  lemma {:induction false} PaddedDivides(n: nat, divisor: nat)
    requires divisor > 0
    ensures (n + (divisor - n % divisor)) % divisor == 0
  {
    var q := n / divisor;
    assert n == q * divisor + n % divisor;
    DivUnique(n + (divisor - n % divisor), divisor, q + 1, 0);
  }

  // ---------------------------------------------------------------- the whole dispatch

  /** A worker that treats rows one by one: row k of its result depends on row k alone,
      and it always produces the columns `kt` and `ko`. */
  ghost predicate RowWise<T(!new), O(!new)>(work: DataProto<T, O> -> DataProto<T, O>, f: Row<T, O> -> Row<T, O>,
                                            kt: set<string>, ko: set<string>)
  {
    forall d: DataProto<T, O> {:trigger work(d)} :: Valid(d) ==>
      && Valid(work(d)) && work(d).size == d.size
      && work(d).tensors.Keys == kt && work(d).objects.Keys == ko
      && forall k :: 0 <= k < d.size ==> RowAt(work(d), k) == f(RowAt(d, k))
  }

  ghost function MapRows<T, O>(rows: seq<Row<T, O>>, f: Row<T, O> -> Row<T, O>): seq<Row<T, O>> {
    seq(|rows|, k requires 0 <= k < |rows| => f(rows[k]))
  }

  /** `chunk` gives as many pieces as asked for. */
  predicate Chunkable(size: nat, n: nat, padding: bool) {
    n > 0 && (padding || size % n == 0) && |ChunkLengths(size, n)| == n
  }

  function Chunks<T, O>(d: DataProto<T, O>, n: nat, padding: bool): (r: seq<DataProto<T, O>>)
    requires Valid(d) && Chunkable(d.size, n, padding)
    ensures |r| == n
  {
    seq(n, i requires 0 <= i < n => Apply(ChunkPiece(n, i, padding), d))
  }

  lemma {:induction false} ChunkRows<T, O>(d: DataProto<T, O>, n: nat, padding: bool, i: nat)
    requires Valid(d) && Chunkable(d.size, n, padding) && i < n
    ensures |Chunk(Rows(d), n)| == n
    ensures Valid(Chunks(d, n, padding)[i]) && Rows(Chunks(d, n, padding)[i]) == Chunk(Rows(d), n)[i]
  {
    var op, pieces := ChunkPiece(n, i, padding), Chunk(Rows(d), n);
    LengthsOfChunk(Rows(d), n);
    PieceIsSlice(pieces, i);
    assert Lengths(pieces)[i] == |pieces[i]|;
    ApplyValid(op, d);
    AppliedAligned(op, d);
    AlignedSlice(Apply(op, d), d, Total(Lengths(pieces)[..i]), |pieces[i]|);
  }

  lemma {:induction false} AlignedSlice<T, O>(out: DataProto<T, O>, d: DataProto<T, O>, from: nat, w: nat)
    requires Valid(d) && Valid(out) && Aligned(out, d, ChunkIndices(from, w)) && from + w <= d.size
    ensures Rows(out) == Rows(d)[from..from + w]
  {
    var f := ChunkIndices(from, w);
    forall j | 0 <= j < w ensures Rows(out)[j] == Rows(d)[from..from + w][j] {
      ReadRow(out, d, f, j);
    }
  }

  lemma {:induction false} ReadRow<T, O>(out: DataProto<T, O>, d: DataProto<T, O>, f: seq<nat>, j: nat)
    requires Valid(d) && Valid(out) && Aligned(out, d, f) && j < |f|
    ensures f[j] < d.size && RowAt(out, j) == RowAt(d, f[j])
  {
    forall c | c in out.tensors ensures out.tensors[c][j] == d.tensors[c][f[j]] {
      assert Reads(out.tensors[c], d.tensors[c], f);
    }
    forall c | c in out.objects ensures out.objects[c][j] == d.objects[c][f[j]] {
      assert Reads(out.objects[c], d.objects[c], f);
    }
    RowsAgree(out, j, d, f[j]);
  }

  lemma {:induction false} WorkedOne<T(!new), O(!new)>(d: DataProto<T, O>,
      work: DataProto<T, O> -> DataProto<T, O>, f: Row<T, O> -> Row<T, O>, kt: set<string>, ko: set<string>)
    requires RowWise(work, f, kt, ko) && Valid(d)
    ensures Valid(work(d)) && Rows(work(d)) == MapRows(Rows(d), f)
  {
    forall k | 0 <= k < d.size ensures Rows(work(d))[k] == MapRows(Rows(d), f)[k] {
      assert RowAt(work(d), k) == f(RowAt(d, k));
    }
  }

  function WorkAll<T, O>(ds: seq<DataProto<T, O>>, work: DataProto<T, O> -> DataProto<T, O>): (r: seq<DataProto<T, O>>)
    ensures |r| == |ds| && forall i :: 0 <= i < |ds| ==> r[i] == work(ds[i])
  {
    if ds == [] then [] else [work(ds[0])] + WorkAll(ds[1..], work)
  }

  lemma {:induction false} MapRowsConcat<T, O>(xs: seq<Row<T, O>>, ys: seq<Row<T, O>>, f: Row<T, O> -> Row<T, O>)
    ensures MapRows(xs + ys, f) == MapRows(xs, f) + MapRows(ys, f)
  {
  }

  lemma {:induction false} WorkedRows<T(!new), O(!new)>(ds: seq<DataProto<T, O>>, pieces: seq<seq<Row<T, O>>>,
      work: DataProto<T, O> -> DataProto<T, O>, f: Row<T, O> -> Row<T, O>, kt: set<string>, ko: set<string>)
    requires RowWise(work, f, kt, ko)
    requires |ds| == |pieces| && forall i :: 0 <= i < |ds| ==> Valid(ds[i]) && Rows(ds[i]) == pieces[i]
    ensures forall i :: 0 <= i < |ds| ==> Valid(WorkAll(ds, work)[i])
    ensures AllRows(WorkAll(ds, work)) == MapRows(Flatten(pieces), f)
    decreases |ds|
  {
    if ds != [] {
      WorkedRows(ds[1..], pieces[1..], work, f, kt, ko);
      WorkedOne(ds[0], work, f, kt, ko);
      assert WorkAll(ds, work)[1..] == WorkAll(ds[1..], work);
      MapRowsConcat(pieces[0], Flatten(pieces[1..]), f);
    }
  }

  lemma {:induction false} WorkedConcatable<T(!new), O(!new)>(ds: seq<DataProto<T, O>>,
      work: DataProto<T, O> -> DataProto<T, O>, f: Row<T, O> -> Row<T, O>, kt: set<string>, ko: set<string>)
    requires RowWise(work, f, kt, ko) && forall i :: 0 <= i < |ds| ==> Valid(ds[i])
    ensures Concatable(WorkAll(ds, work))
  {
    var out := WorkAll(ds, work);
    forall i | 0 <= i < |out| ensures Valid(out[i]) && out[i].tensors.Keys == kt && out[i].objects.Keys == ko {
      assert Valid(ds[i]);
    }
  }

  /** Chunk over the workers, let each work, concatenate: the same rows as working on everything. */
  lemma {:induction false} ChunkedWork<T(!new), O(!new)>(d: DataProto<T, O>, n: nat, padding: bool,
      work: DataProto<T, O> -> DataProto<T, O>, f: Row<T, O> -> Row<T, O>, kt: set<string>, ko: set<string>)
    requires Valid(d) && Chunkable(d.size, n, padding) && RowWise(work, f, kt, ko)
    ensures var out := WorkAll(Chunks(d, n, padding), work);
      Concatable(out) && Valid(Concat(out)) && Rows(Concat(out)) == MapRows(Rows(d), f)
  {
    var ds, pieces := Chunks(d, n, padding), Chunk(Rows(d), n);
    LengthsOfChunk(Rows(d), n);
    forall i | 0 <= i < n ensures Valid(ds[i]) && Rows(ds[i]) == pieces[i] {
      ChunkRows(d, n, padding, i);
    }
    WorkedRows(ds, pieces, work, f, kt, ko);
    WorkedConcatable(ds, work, f, kt, ko);
    ConcatRows(WorkAll(ds, work));
  }

  function Unpad<T, O>(d: DataProto<T, O>, padSize: nat): DataProto<T, O>
    requires Valid(d) && padSize <= d.size
  {
    if padSize != 0 then Head(d, d.size - padSize) else d
  }

  lemma {:induction false} DispatchedRows<T(!new), O(!new)>(d: DataProto<T, O>, padded: DataProto<T, O>,
        padSize: nat, n: nat,
      work: DataProto<T, O> -> DataProto<T, O>, f: Row<T, O> -> Row<T, O>, kt: set<string>, ko: set<string>)
    requires Valid(d) && d.size > 0 && n > 0 && RowWise(work, f, kt, ko)
    requires Valid(padded) && Chunkable(padded.size, n, false) && Rows(padded) == Cycle(Rows(d), d.size + padSize)
    ensures var out := WorkAll(Chunks(padded, n, false), work);
      && Concatable(out) && Valid(Concat(out)) && Concat(out).size == d.size + padSize
      && Valid(Unpad(Concat(out), padSize)) && Unpad(Concat(out), padSize).size == d.size
      && Rows(Unpad(Concat(out), padSize)) == MapRows(Rows(d), f)
  {
    ChunkedWork(padded, n, false, work, f, kt, ko);
    UnpadRows(Concat(WorkAll(Chunks(padded, n, false), work)), Rows(d), padSize, f);
  }

  /** The dispatch as a whole preserves meaning: for non-empty data, any number of workers and
      any row-wise work, the result holds `f` of the original rows, in order. */
  method DispatchAll<T(!new), O(!new)>(d: DataProto<T, O>, n: nat, work: DataProto<T, O> -> DataProto<T, O>,
      ghost f: Row<T, O> -> Row<T, O>, ghost kt: set<string>, ghost ko: set<string>)
    returns (r: DataProto<T, O>)
    requires Valid(d) && d.size > 0 && n > 0 && RowWise(work, f, kt, ko)
    ensures Valid(r) && r.size == d.size && Rows(r) == MapRows(Rows(d), f)
  {
    var padded, padSize := PadToDivisor(d, n);
    EvenLengths(padded.size, n);
    DispatchedRows(d, padded, padSize, n, work, f, kt, ko);
    r := Unpad(Concat(WorkAll(Chunks(padded, n, false), work)), padSize);
  }

  lemma {:induction false} UnpadRows<T, O>(merged: DataProto<T, O>, rows: seq<Row<T, O>>, padSize: nat, f: Row<T,
        O> -> Row<T, O>)
    requires Valid(merged) && rows != [] && Rows(merged) == MapRows(Cycle(rows, |rows| + padSize), f)
    ensures merged.size == |rows| + padSize
    ensures Valid(Unpad(merged, padSize)) && Unpad(merged, padSize).size == |rows|
    ensures Rows(Unpad(merged, padSize)) == MapRows(rows, f)
  {
    assert |Rows(merged)| == |rows| + padSize;
    HeadRows(merged, |rows|);
    FirstLap(rows, |rows| + padSize);
  }

  lemma {:induction false} FirstLap<E>(xs: seq<E>, n: nat)
    requires xs != [] && n >= |xs|
    ensures Cycle(xs, n)[..|xs|] == xs
  {
  }
}
