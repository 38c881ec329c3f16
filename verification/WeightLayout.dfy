/** Row layout of fused attention and MLP weights: packing for Megatron
    (converter_hf_to_mcore.py) and merging tensor-parallel shards back
    (legacy_model_merger.py). A weight is the sequence of its rows. */
module WeightLayout {
  import opened Prelude

  datatype MergeError = BadHeads | BadRows | BadSplit

  datatype Qkv<T> = Qkv(q: seq<T>, k: seq<T>, v: seq<T>)

  // ---------------------------------------------------------------- torch.chunk

  function ChunkBy<T>(xs: seq<T>, w: nat): seq<seq<T>>
    requires w > 0
    decreases |xs|
  {
    if |xs| <= w then [xs] else [xs[..w]] + ChunkBy(xs[w..], w)
  }

  /** At most `n` pieces, all of size ceil(|xs| / n) but the last. */
  function Chunk<T>(xs: seq<T>, n: nat): seq<seq<T>>
    requires n > 0
  {
    if |xs| == 0 then seq(n, _ => [])
    else ChunkBy(xs, CeilDiv(|xs|, n))
  }

  function CeilDiv(a: nat, n: nat): (r: nat)
    requires n > 0
    ensures a > 0 ==> r > 0
  {
    (a + n - 1) / n
  }

  lemma {:induction false} ChunkByCut<T>(xs: seq<T>, w: nat, n: nat)
    requires w > 0 && n > 0 && |xs| == n * w
    ensures ChunkBy(xs, w) == Cut(xs, w, n)
    decreases n
  {
    assert n * w == w + (n - 1) * w;
    if n > 1 {
      MulMono(1, n - 1, w);
      ChunkByCut(xs[w..], w, n - 1);
    } else {
      assert xs[..w] == xs;
      assert Cut(xs[w..], w, 0) == [];
    }
  }

  lemma {:induction false} CutNothing<T>(xs: seq<T>, n: nat)
    requires xs == []
    ensures n * 0 == 0 && Cut(xs, 0, n) == seq(n, _ => [])
    decreases n
  {
    if n > 0 {
      CutNothing(xs, n - 1);
      assert xs[0..] == xs;
    }
  }

  lemma {:induction false} CeilOfMultiple(n: nat, w: nat)
    requires n > 0
    ensures CeilDiv(n * w, n) == w
  {
    var a, c := n * w + n - 1, CeilDiv(n * w, n);
    assert c * n <= a < c * n + n;
    if c > w {
      MulMono(w + 1, c, n);
    } else if c < w {
      MulMono(c + 1, w, n);
    }
  }

  /** When the length divides evenly, chunking cuts into `n` equal pieces. */
  lemma {:induction false} ChunkEven<T>(xs: seq<T>, n: nat, w: nat)
    requires n > 0 && |xs| == n * w
    ensures Chunk(xs, n) == Cut(xs, w, n)
  {
    CeilOfMultiple(n, w);
    if |xs| == 0 {
      if w > 0 {
        MulMono(1, n, w);
      }
      CutNothing(xs, n);
    } else {
      ChunkByCut(xs, w, n);
    }
  }

  // ---------------------------------------------------------------- merging QKV shards

  /** All chunks of all shards, in order. */
  function Pieces<T>(shards: seq<seq<T>>, n: nat): seq<seq<T>>
    requires n > 0
  {
    if shards == [] then [] else Pieces(shards[..|shards| - 1], n) + Chunk(shards[|shards| - 1], n)
  }

  function Windows<T>(pieces: seq<seq<T>>, lo: nat, hi: nat): seq<seq<T>>
    requires lo <= hi && forall i :: 0 <= i < |pieces| ==> hi <= |pieces[i]|
  {
    seq(|pieces|, i requires 0 <= i < |pieces| => pieces[i][lo..hi])
  }

  /** Splitting each chunk into its q, k and v part and joining the parts of each kind. */
  function SplitJoin<T>(pieces: seq<seq<T>>, a: nat, b: nat): Result<Qkv<T>, MergeError> {
    if forall i :: 0 <= i < |pieces| ==> |pieces[i]| == a + b + b then
      Ok(Qkv(Flatten(Windows(pieces, 0, a)),
             Flatten(Windows(pieces, a, a + b)),
             Flatten(Windows(pieces, a + b, a + b + b))))
    else Err(BadSplit)
  }

  function MergeQkv<T>(shards: seq<seq<T>>, heads: nat, kvHeads: nat): Result<Qkv<T>, MergeError>
    requires shards != []
  {
    var tp := |shards|;
    if kvHeads == 0 || heads % kvHeads != 0 then Err(BadHeads)
    else
      var perKv := heads / kvHeads;
      if |shards[0]| % (perKv + 2) != 0 then Err(BadRows)
      else
        var size, groups := |shards[0]| / (perKv + 2), kvHeads / tp;
        if groups == 0 then Err(BadSplit)
        else SplitJoin(Pieces(shards, groups), Quotient(Times(size, perKv), groups), Quotient(size, groups))
  }

  method MergeAcrossTpQkv<T>(shards: seq<seq<T>>, heads: nat, kvHeads: nat)
    returns (r: Result<Qkv<T>, MergeError>)
    requires shards != []
    ensures r == MergeQkv(shards, heads, kvHeads)
  {
    if kvHeads == 0 || heads % kvHeads != 0 {
      return Err(BadHeads);
    }
    var perKv := heads / kvHeads;
    if |shards[0]| % (perKv + 2) != 0 {
      return Err(BadRows);
    }
    var size := |shards[0]| / (perKv + 2);
    var groups := kvHeads / |shards|;
    if groups == 0 {
      return Err(BadSplit);
    }
    r := SplitAndJoin(shards, groups, Quotient(Times(size, perKv), groups), Quotient(size, groups));
  }

  /** Heads that the kv heads do not divide are refused first, then a first shard that cannot be cut
      into the parts of a group. */
  lemma {:induction false} MergeRefuses<T>(shards: seq<seq<T>>, heads: nat, kvHeads: nat)
    requires shards != []
    ensures MergeQkv(shards, heads, kvHeads) == Err(BadHeads) <==> kvHeads == 0 || heads % kvHeads != 0
    ensures MergeQkv(shards, heads, kvHeads) == Err(BadRows)
       <==> kvHeads > 0 && heads % kvHeads == 0 && |shards[0]| % (heads / kvHeads + 2) != 0
  {
  }

  /** With more shards than kv heads no merge ever succeeds. */
  lemma {:induction false} TooManyShards<T>(shards: seq<seq<T>>, heads: nat, kvHeads: nat)
    requires |shards| > kvHeads
    ensures MergeQkv(shards, heads, kvHeads).Err?
  {
    SmallQuotient(kvHeads, |shards|);
  }

  lemma {:induction false} SmallQuotient(a: nat, b: nat)
    requires a < b
    ensures a / b == 0
  {
  }

  /** The two nested loops: every chunk of every shard, split into its three parts. */
  method SplitAndJoin<T>(shards: seq<seq<T>>, groups: nat, a: nat, b: nat) returns (r: Result<Qkv<T>, MergeError>)
    requires groups > 0
    ensures r == SplitJoin(Pieces(shards, groups), a, b)
  {
    var qs: seq<seq<T>>, ks: seq<seq<T>>, vs: seq<seq<T>> := [], [], [];
    for i := 0 to |shards|
      invariant PartsOf(Pieces(shards[..i], groups), qs, ks, vs, a, b)
    {
      assert shards[..i + 1][..i] == shards[..i];
      PiecesPrefix(shards, i + 1, groups);
      var ok;
      ok, qs, ks, vs := SplitChunks(Chunk(shards[i], groups), qs, ks, vs, a, b, Pieces(shards[..i], groups));
      if !ok {
        PrefixFails(Pieces(shards[..i + 1], groups), Pieces(shards, groups), a, b);
        return Err(BadSplit);
      }
    }
    assert shards[..|shards|] == shards;
    PartsAreWindows(Pieces(shards, groups), qs, ks, vs, a, b);
    return Ok(Qkv(Flatten(qs), Flatten(ks), Flatten(vs)));
  }

  /** One shard's chunks, appended part by part. */
  method SplitChunks<T>(chunks: seq<seq<T>>, qs0: seq<seq<T>>, ks0: seq<seq<T>>, vs0: seq<seq<T>>, a: nat, b: nat,
                        ghost seen: seq<seq<T>>)
    returns (ok: bool, qs: seq<seq<T>>, ks: seq<seq<T>>, vs: seq<seq<T>>)
    requires PartsOf(seen, qs0, ks0, vs0, a, b)
    ensures ok ==> PartsOf(seen + chunks, qs, ks, vs, a, b)
    ensures !ok ==> exists x :: 0 <= x < |seen + chunks| && |(seen + chunks)[x]| != a + b + b
  {
    qs, ks, vs := qs0, ks0, vs0;
    for j := 0 to |chunks|
      invariant PartsOf(seen + chunks[..j], qs, ks, vs, a, b)
    {
      var c := chunks[j];
      if |c| != a + b + b {
        assert (seen + chunks)[|seen| + j] == c;
        return false, qs, ks, vs;
      }
      PartsSnoc(seen + chunks[..j], qs, ks, vs, a, b, c);
      qs := qs + [c[..a]];
      ks := ks + [c[a..a + b]];
      vs := vs + [c[a + b..]];
      assert seen + chunks[..j + 1] == seen + chunks[..j] + [c];
    }
    assert chunks[..|chunks|] == chunks;
    return true, qs, ks, vs;
  }

  lemma {:induction false} PrefixFails<T>(prefix: seq<seq<T>>, all: seq<seq<T>>, a: nat, b: nat)
    requires prefix <= all && exists x :: 0 <= x < |prefix| && |prefix[x]| != a + b + b
    ensures SplitJoin(all, a, b) == Err(BadSplit)
  {
  }

  ghost predicate PartsOf<T>(seen: seq<seq<T>>, qs: seq<seq<T>>, ks: seq<seq<T>>, vs: seq<seq<T>>, a: nat, b: nat) {
    && |qs| == |ks| == |vs| == |seen|
    && forall x :: 0 <= x < |seen| ==>
         |seen[x]| == a + b + b && qs[x] == seen[x][..a] && ks[x] == seen[x][a..a + b]
         && vs[x] == seen[x][a + b..a + b + b]
  }

  lemma {:induction false} PartsSnoc<T>(seen: seq<seq<T>>, qs: seq<seq<T>>, ks: seq<seq<T>>, vs: seq<seq<T>>, a: nat,
        b: nat, c: seq<T>)
    requires PartsOf(seen, qs, ks, vs, a, b) && |c| == a + b + b
    ensures PartsOf(seen + [c], qs + [c[..a]], ks + [c[a..a + b]], vs + [c[a + b..]], a, b)
  {
  }

  lemma {:induction false} PartsAreWindows<T>(seen: seq<seq<T>>, qs: seq<seq<T>>, ks: seq<seq<T>>, vs: seq<seq<T>>,
        a: nat, b: nat)
    requires PartsOf(seen, qs, ks, vs, a, b)
    ensures SplitJoin(seen, a, b) == Ok(Qkv(Flatten(qs), Flatten(ks), Flatten(vs)))
  {
    assert qs == Windows(seen, 0, a);
    assert ks == Windows(seen, a, a + b);
    assert vs == Windows(seen, a + b, a + b + b);
  }

  lemma {:induction false} PiecesPrefix<T>(shards: seq<seq<T>>, i: nat, n: nat)
    requires n > 0 && i <= |shards|
    ensures Pieces(shards[..i], n) <= Pieces(shards, n)
    decreases |shards| - i
  {
    if i == |shards| {
      assert shards[..i] == shards;
    } else {
      assert shards[..i + 1][..i] == shards[..i];
      PiecesPrefix(shards, i + 1, n);
    }
  }

  // ---------------------------------------------------------------- packing, sharding, and the round trip

  function Blocks<T>(qs: seq<seq<T>>, ks: seq<seq<T>>, vs: seq<seq<T>>): seq<seq<T>>
    requires |qs| == |ks| == |vs|
  {
    seq(|qs|, i requires 0 <= i < |qs| => qs[i] + ks[i] + vs[i])
  }

  /** Group by group: the group's query rows, its key rows, its value rows. */
  function Pack<T>(q: seq<T>, k: seq<T>, v: seq<T>, groups: nat, a: nat, b: nat): seq<T>
    requires |q| == groups * a && |k| == |v| == groups * b
  {
    Flatten(Blocks(Cut(q, a, groups), Cut(k, b, groups), Cut(v, b, groups)))
  }

  /** The packed rows cut into `tp` equal contiguous shards. */
  function Shard<T>(rows: seq<T>, tp: nat): (r: seq<seq<T>>)
    requires tp > 0
    ensures |r| == tp
  {
    DivFloor(|rows|, tp);
    Cut(rows, |rows| / tp, tp)
  }

  lemma {:induction false} DivFloor(a: nat, b: nat)
    requires b > 0
    ensures b * (a / b) <= a
  {
  }

  function Each<T>(groups: seq<seq<seq<T>>>): seq<seq<T>> {
    seq(|groups|, i requires 0 <= i < |groups| => Flatten(groups[i]))
  }

  lemma {:induction false} FlattenTwice<T>(groups: seq<seq<seq<T>>>)
    ensures Flatten(Each(groups)) == Flatten(Flatten(groups))
  {
    if groups != [] {
      assert Each(groups)[1..] == Each(groups[1..]);
      FlattenTwice(groups[1..]);
      FlattenAppend(groups[0], Flatten(groups[1..]));
    }
  }

  /** Cutting the joined pieces into shards of equal size gives each group of pieces, joined. */
  lemma {:induction false} ShardOfGroups<T>(groups: seq<seq<seq<T>>>, rows: seq<T>, h: nat)
    requires groups != [] && Uniform(Each(groups), h) && rows == Flatten(Each(groups))
    ensures Shard(rows, |groups|) == Each(groups)
  {
    UniformLength(Each(groups), h);
    DivOfProduct(h, |groups|);
    assert h * |groups| == |groups| * h;
    CutFlatten(Each(groups), h);
  }

  /** Sharding equal blocks and chunking each shard gives the blocks back in order. */
  lemma {:induction false} ShardedPieces<T>(blocks: seq<seq<T>>, w: nat, tp: nat, per: nat)
    requires Uniform(blocks, w) && tp > 0 && per > 0 && |blocks| == tp * per
    ensures Pieces(Shard(Flatten(blocks), tp), per) == blocks
    ensures forall i :: 0 <= i < tp ==> |Shard(Flatten(blocks), tp)[i]| == per * w
  {
    var groups := Cut(blocks, per, tp);
    FlattenCut(blocks, per, tp);
    GroupsUniform(groups, blocks, per, w);
    FlattenTwice(groups);
    ShardOfGroups(groups, Flatten(blocks), Times(per, w));
    PiecesOfEach(groups, per, w);
  }

  lemma {:induction false} GroupsUniform<T>(groups: seq<seq<seq<T>>>, blocks: seq<seq<T>>, per: nat, w: nat)
    requires Uniform(groups, per) && Flatten(groups) == blocks && Uniform(blocks, w)
    ensures forall i :: 0 <= i < |groups| ==> Uniform(groups[i], w)
    ensures Uniform(Each(groups), per * w)
  {
    forall i | 0 <= i < |groups| ensures Uniform(groups[i], w) && |Flatten(groups[i])| == per * w {
      forall j | 0 <= j < |groups[i]| ensures |groups[i][j]| == w {
        FlattenAt(groups, per, i, j);
      }
      UniformLength(groups[i], w);
    }
  }

  lemma {:induction false} PiecesOfEach<T>(groups: seq<seq<seq<T>>>, per: nat, w: nat)
    requires per > 0 && Uniform(groups, per) && forall i :: 0 <= i < |groups| ==> Uniform(groups[i], w)
    ensures Pieces(Each(groups), per) == Flatten(groups)
    decreases |groups|
  {
    if groups != [] {
      var n := |groups| - 1;
      assert Each(groups)[..n] == Each(groups[..n]);
      PiecesOfEach(groups[..n], per, w);
      UniformLength(groups[n], w);
      ChunkEven(Flatten(groups[n]), per, w);
      CutFlatten(groups[n], w);
      assert groups == groups[..n] + [groups[n]];
      FlattenSnoc(groups[..n], groups[n]);
    }
  }

  lemma {:induction false} WindowsOfBlocks<T>(qs: seq<seq<T>>, ks: seq<seq<T>>, vs: seq<seq<T>>, a: nat, b: nat)
    requires |qs| == |ks| == |vs| && Uniform(qs, a) && Uniform(ks, b) && Uniform(vs, b)
    ensures Uniform(Blocks(qs, ks, vs), a + b + b)
    ensures Windows(Blocks(qs, ks, vs), 0, a) == qs
    ensures Windows(Blocks(qs, ks, vs), a, a + b) == ks
    ensures Windows(Blocks(qs, ks, vs), a + b, a + b + b) == vs
  {
    var blocks := Blocks(qs, ks, vs);
    forall i | 0 <= i < |blocks|
      ensures |blocks[i]| == a + b + b && blocks[i][0..a] == qs[i]
        && blocks[i][a..a + b] == ks[i] && blocks[i][a + b..a + b + b] == vs[i]
    {
      assert |qs[i]| == a && |ks[i]| == b && |vs[i]| == b;
    }
  }

  /** Splitting packed blocks recovers exactly the three inputs. */
  lemma {:induction false} SplitPacked<T>(q: seq<T>, k: seq<T>, v: seq<T>, groups: nat, a: nat, b: nat)
    requires |q| == groups * a && |k| == |v| == groups * b
    ensures var blocks := Blocks(Cut(q, a, groups), Cut(k, b, groups), Cut(v, b, groups));
      Uniform(blocks, a + b + b) && SplitJoin(blocks, a, b) == Ok(Qkv(q, k, v))
  {
    FlattenCut(q, a, groups);
    FlattenCut(k, b, groups);
    FlattenCut(v, b, groups);
    WindowsOfBlocks(Cut(q, a, groups), Cut(k, b, groups), Cut(v, b, groups), a, b);
  }

  /** Packing group by group, sharding over `tp` ranks and merging returns q, k and v unchanged,
      for every head count, head size and tp dividing the number of key-value heads. */
  lemma {:induction false} QkvRoundTrip<T>(q: seq<T>, k: seq<T>, v: seq<T>, perKv: nat, kvHeads: nat, headDim: nat,
        tp: nat)
    requires tp > 0 && kvHeads > 0 && kvHeads % tp == 0
    requires |q| == kvHeads * Times(perKv, headDim) && |k| == |v| == kvHeads * headDim
    ensures MergeQkv(Shard(Pack(q, k, v, kvHeads, Times(perKv, headDim), headDim), tp), Times(perKv, kvHeads), kvHeads)
         == Ok(Qkv(q, k, v))
  {
    var per := PerRank(kvHeads, tp);
    var a := Times(perKv, headDim);
    var blocks := Blocks(Cut(q, a, kvHeads), Cut(k, headDim, kvHeads), Cut(v, headDim, kvHeads));
    SplitPacked(q, k, v, kvHeads, a, headDim);
    ShardedPieces(blocks, a + headDim + headDim, tp, per);
    MergeQkvOf(Shard(Flatten(blocks), tp), perKv, kvHeads, headDim, per);
  }

  lemma {:induction false} PerRank(kvHeads: nat, tp: nat) returns (per: nat)
    requires tp > 0 && kvHeads > 0 && kvHeads % tp == 0
    ensures per > 0 && kvHeads == tp * per && kvHeads / tp == per
  {
    per := kvHeads / tp;
    assert kvHeads == tp * per;
    if per == 0 {
      assert tp * per == 0;
    }
  }

  /** On shards of the right height the merger splits chunks at the head boundaries. */
  lemma {:induction false} MergeQkvOf<T>(shards: seq<seq<T>>, perKv: nat, kvHeads: nat, headDim: nat, per: nat)
    requires shards != [] && kvHeads > 0 && per > 0 && kvHeads / |shards| == per
    requires |shards[0]| == per * (perKv * headDim + headDim + headDim)
    ensures MergeQkv(shards, perKv * kvHeads, kvHeads)
         == SplitJoin(Pieces(shards, per), perKv * headDim, headDim)
  {
    MergeSizes(perKv, kvHeads, headDim, per);
  }

  /** The sizes the merger computes back from the shard's row count. */
  lemma {:induction false} MergeSizes(perKv: nat, kvHeads: nat, headDim: nat, per: nat)
    requires kvHeads > 0 && per > 0
    ensures (perKv * kvHeads) % kvHeads == 0 && (perKv * kvHeads) / kvHeads == perKv
    ensures var rows := per * (perKv * headDim + headDim + headDim);
      && rows % (perKv + 2) == 0
      && rows / (perKv + 2) == per * headDim
    ensures (per * headDim) * perKv / per == perKv * headDim
    ensures per * headDim / per == headDim
  {
    DivOfProduct(perKv, kvHeads);
    assert perKv * headDim + headDim + headDim == headDim * (perKv + 2);
    assert per * (headDim * (perKv + 2)) == (per * headDim) * (perKv + 2);
    DivOfProduct(per * headDim, perKv + 2);
    assert (per * headDim) * perKv == (perKv * headDim) * per;
    DivOfProduct(perKv * headDim, per);
    assert per * headDim == headDim * per;
    DivOfProduct(headDim, per);
  }

  /** The vision block's fused weight, read as (3, groups, c) and written as (groups, 3, c),
      is the same group-by-group packing of its three thirds. */
  lemma {:induction false} VisionPackIsGroupPack<T>(rows: seq<T>, groups: nat, c: nat, g: nat, t: nat, j: nat)
    requires |rows| == 3 * (groups * c) && g < groups && t < 3 && j < c
    ensures 0 <= (g * 3 + t) * c + j && 0 <= (t * groups + g) * c + j < |rows|
    ensures var n := groups * c;
      var packed := Pack(rows[..n], rows[n..2 * n], rows[2 * n..], groups, c, c);
      (g * 3 + t) * c + j < |packed| && packed[(g * 3 + t) * c + j] == rows[(t * groups + g) * c + j]
  {
    var n := groups * c;
    var q, k, v := rows[..n], rows[n..2 * n], rows[2 * n..];
    var third := if t == 0 then q else if t == 1 then k else v;
    PackAt(q, k, v, groups, c, g, t, j);
    ThirdIndex(groups, g, t, c, j);
    ThirdAt(rows, n, t, g * c + j);
  }

  /** Where a row of a group's query, key or value part lands in the packing. */
  lemma {:induction false} PackAt<T>(q: seq<T>, k: seq<T>, v: seq<T>, groups: nat, c: nat, g: nat, t: nat, j: nat)
    requires |q| == |k| == |v| == groups * c && g < groups && t < 3 && j < c
    ensures 0 <= g * c + j < groups * c && 0 <= (g * 3 + t) * c + j < |Pack(q, k, v, groups, c, c)|
    ensures Pack(q, k, v, groups, c, c)[(g * 3 + t) * c + j]
         == (if t == 0 then q else if t == 1 then k else v)[g * c + j]
  {
    FlattenCut(q, c, groups);
    FlattenCut(k, c, groups);
    FlattenCut(v, c, groups);
    CutAt(q, c, groups, g, j);
    CutAt(k, c, groups, g, j);
    CutAt(v, c, groups, g, j);
    BlocksAt(Cut(q, c, groups), Cut(k, c, groups), Cut(v, c, groups), c, g, t, j);
  }

  lemma {:induction false} BlocksAt<T>(qs: seq<seq<T>>, ks: seq<seq<T>>, vs: seq<seq<T>>, c: nat, g: nat, t: nat,
        j: nat)
    requires |qs| == |ks| == |vs| && Uniform(qs, c) && Uniform(ks, c) && Uniform(vs, c)
    requires g < |qs| && t < 3 && j < c
    ensures 0 <= (g * 3 + t) * c + j < |Flatten(Blocks(qs, ks, vs))|
    ensures Flatten(Blocks(qs, ks, vs))[(g * 3 + t) * c + j]
         == (if t == 0 then qs[g] else if t == 1 then ks[g] else vs[g])[j]
  {
    WindowsOfBlocks(qs, ks, vs, c, c);
    FlattenAt(Blocks(qs, ks, vs), c + c + c, g, if t == 0 then j else if t == 1 then c + j else c + c + j);
    BlockAt(qs[g], ks[g], vs[g], c, t, j);
    RowIndex(g, t, c, j);
  }

  lemma {:induction false} ThirdAt<T>(rows: seq<T>, n: nat, t: nat, i: nat)
    requires |rows| == 3 * n && t < 3 && i < n
    ensures 0 <= t * n + i < |rows|
    ensures (if t == 0 then rows[..n] else if t == 1 then rows[n..2 * n] else rows[2 * n..])[i] == rows[t * n + i]
  {
  }

  lemma {:induction false} BlockAt<T>(x: seq<T>, y: seq<T>, z: seq<T>, c: nat, t: nat, j: nat)
    requires |x| == |y| == |z| == c && t < 3 && j < c
    ensures (x + y + z)[if t == 0 then j else if t == 1 then c + j else c + c + j]
         == (if t == 0 then x else if t == 1 then y else z)[j]
  {
  }

  lemma {:induction false} RowIndex(g: nat, t: nat, c: nat, j: nat)
    requires t < 3
    ensures (g * 3 + t) * c + j == g * (c + c + c) + (if t == 0 then j else if t == 1 then c + j else c + c + j)
  {
    assert (g * 3 + t) * c == g * (c + c + c) + t * c;
  }

  lemma {:induction false} ThirdIndex(groups: nat, g: nat, t: nat, c: nat, j: nat)
    ensures (t * groups + g) * c + j == t * (groups * c) + (g * c + j)
  {
  }

  // ---------------------------------------------------------------- gate and up

  datatype GateUp<T> = GateUp(gate: seq<T>, up: seq<T>)

  function HalvesJoin<T>(shards: seq<seq<T>>): Result<GateUp<T>, MergeError> {
    if shards == [] then Ok(GateUp([], []))
    else
      var n := |shards| - 1;
      match HalvesJoin(shards[..n])
      case Err(e) => Err(e)
      case Ok(r) =>
        var halves := Chunk(shards[n], 2);
        if |halves| != 2 then Err(BadSplit) else Ok(GateUp(r.gate + halves[0], r.up + halves[1]))
  }

  method MergeAcrossTpGateUp<T>(shards: seq<seq<T>>) returns (r: Result<GateUp<T>, MergeError>)
    ensures r == HalvesJoin(shards)
  {
    var gates: seq<seq<T>>, ups: seq<seq<T>> := [], [];
    for i := 0 to |shards|
      invariant HalvesJoin(shards[..i]) == Ok(GateUp(Flatten(gates), Flatten(ups)))
    {
      assert shards[..i + 1][..i] == shards[..i];
      var halves := Chunk(shards[i], 2);
      if |halves| != 2 {
        HalvesFail(shards, i + 1);
        return Err(BadSplit);
      }
      FlattenSnoc(gates, halves[0]);
      FlattenSnoc(ups, halves[1]);
      gates := gates + [halves[0]];
      ups := ups + [halves[1]];
    }
    assert shards[..|shards|] == shards;
    return Ok(GateUp(Flatten(gates), Flatten(ups)));
  }

  lemma {:induction false} HalvesFail<T>(shards: seq<seq<T>>, i: nat)
    requires i <= |shards| && HalvesJoin(shards[..i]) == Err(BadSplit)
    ensures HalvesJoin(shards) == Err(BadSplit)
    decreases |shards| - i
  {
    if i == |shards| {
      assert shards[..i] == shards;
    } else {
      assert shards[..i + 1][..i] == shards[..i];
      HalvesFail(shards, i + 1);
    }
  }

  function Stacked<T>(gates: seq<seq<T>>, ups: seq<seq<T>>): seq<seq<T>>
    requires |gates| == |ups|
  {
    seq(|gates|, i requires 0 <= i < |gates| => gates[i] + ups[i])
  }

  /** Shards that stack a gate part over an equally tall up part merge to the whole gate and up. */
  lemma {:induction false} GateUpRoundTrip<T>(gates: seq<seq<T>>, ups: seq<seq<T>>)
    requires |gates| == |ups| && forall i :: 0 <= i < |gates| ==> |gates[i]| == |ups[i]|
    ensures HalvesJoin(Stacked(gates, ups)) == Ok(GateUp(Flatten(gates), Flatten(ups)))
    decreases |gates|
  {
    if gates != [] {
      var n := |gates| - 1;
      var shards := Stacked(gates, ups);
      assert shards[..n] == Stacked(gates[..n], ups[..n]);
      GateUpRoundTrip(gates[..n], ups[..n]);
      ChunkPair(gates[n], ups[n]);
      assert gates == gates[..n] + [gates[n]] && ups == ups[..n] + [ups[n]];
      FlattenSnoc(gates[..n], gates[n]);
      FlattenSnoc(ups[..n], ups[n]);
    }
  }

  lemma {:induction false} ChunkPair<T>(x: seq<T>, y: seq<T>)
    requires |x| == |y|
    ensures Chunk(x + y, 2) == [x, y]
  {
    assert [x, y][1..] == [y];
    assert Flatten([y]) == y;
    assert Flatten([x, y]) == x + y;
    ChunkEven(x + y, 2, |x|);
    CutFlatten([x, y], |x|);
  }

  // ---------------------------------------------------------------- expert ranges

  /** Rank `r` of `ep` converts the experts of its own contiguous range. */
  predicate OwnsExpert(experts: nat, ep: nat, r: nat, idx: nat)
    requires ep > 0
  {
    var perRank := experts / ep;
    r * perRank <= idx < (r + 1) * perRank
  }

  /** No expert is converted by two ranks. */
  lemma {:induction false} OwnerIsUnique(experts: nat, ep: nat, r: nat, s: nat, idx: nat)
    requires ep > 0 && OwnsExpert(experts, ep, r, idx) && OwnsExpert(experts, ep, s, idx)
    ensures r == s
  {
    if r < s {
      MulMono(r + 1, s, experts / ep);
    } else if s < r {
      MulMono(s + 1, r, experts / ep);
    }
  }

  /** Only the rank whose number is the index divided by the size of a range converts the expert. */
  lemma {:induction false} OwnerFormula(experts: nat, ep: nat, r: nat, idx: nat)
    requires ep > 0
    ensures OwnsExpert(experts, ep, r, idx) <==> experts / ep > 0 && idx / (experts / ep) == r
  {
    var perRank := experts / ep;
    if perRank == 0 {
      assert (r + 1) * perRank == 0;
    } else {
      var q := idx / perRank;
      assert idx == q * perRank + idx % perRank;
      assert (q + 1) * perRank == q * perRank + perRank;
      if q < r {
        MulMono(q + 1, r, perRank);
      } else if r < q {
        MulMono(r + 1, q, perRank);
      }
    }
  }

  ghost predicate SomeOwner(experts: nat, ep: nat, idx: nat)
    requires ep > 0
  {
    exists r: nat :: r < ep && OwnsExpert(experts, ep, r, idx)
  }

  /** Every expert is converted by some rank exactly when ep divides the number of experts. */
  lemma {:induction false} EveryExpertOwnedIff(experts: nat, ep: nat)
    requires ep > 0
    ensures (forall idx: nat :: idx < experts ==> SomeOwner(experts, ep, idx)) <==> experts % ep == 0
  {
    var perRank := experts / ep;
    assert experts == perRank * ep + experts % ep;
    if experts % ep == 0 {
      forall idx: nat | idx < experts ensures SomeOwner(experts, ep, idx) {
        OwnerOf(perRank, ep, idx);
        assert OwnsExpert(experts, ep, idx / perRank, idx);
      }
    } else {
      forall r: nat | r < ep ensures !OwnsExpert(experts, ep, r, perRank * ep) {
        MulMono(r + 1, ep, perRank);
      }
      assert !SomeOwner(experts, ep, perRank * ep);
    }
  }

  /** Three experts on two ranks: nobody converts the last one. */
  lemma {:induction false} ThreeExpertsTwoRanks()
    ensures !SomeOwner(3, 2, 2)
  {
  }

  lemma {:induction false} OwnerOf(perRank: nat, ep: nat, idx: nat)
    requires idx < perRank * ep
    ensures perRank > 0
    ensures var r := idx / perRank; 0 <= r < ep && r * perRank <= idx < (r + 1) * perRank
  {
    if perRank <= 0 {
      MulMono(perRank, 0, ep);
    }
    var r := idx / perRank;
    assert idx == r * perRank + idx % perRank;
    assert (r + 1) * perRank == r * perRank + perRank;
    if r >= ep {
      MulMono(ep, r, perRank);
    }
  }
}
