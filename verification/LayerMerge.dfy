/** Renumbering pipeline-parallel layers while merging state dicts
    (legacy_model_merger.py, _merge_state_dicts). A block is the state dict of one
    (vpp, pp) stage after its tensor-parallel shards have been merged. */
module LayerMerge {
  import opened Prelude

  /** One key of a stage: its local layer number, if it belongs to a layer, and the named
      tensors it is written as (q, k, v for a fused attention weight, and so on). */
  datatype Entry<T> = Entry(local: Option<nat>, outputs: seq<(string, T)>)

  type Block<T> = seq<Entry<T>>

  datatype Name = LayerName(layer: nat, suffix: string) | PlainName(name: string)

  datatype Write<T> = Write(name: Name, value: T)

  function NameOf(local: Option<nat>, suffix: string, offset: nat): Name {
    match local
    case None => PlainName(suffix)
    case Some(n) => LayerName(n + offset, suffix)
  }

  function OutputWrites<T>(e: Entry<T>, offset: nat): seq<Write<T>> {
    seq(|e.outputs|, i requires 0 <= i < |e.outputs| => Write(NameOf(e.local, e.outputs[i].0, offset), e.outputs[i].1))
  }

  function Writes<T>(b: Block<T>, offset: nat): seq<Write<T>> {
    if b == [] then [] else Writes(b[..|b| - 1], offset) + OutputWrites(b[|b| - 1], offset)
  }

  /** The largest local layer number, and 0 for a stage without layers. */
  function MaxLocal<T>(b: Block<T>): nat {
    if b == [] then 0
    else
      var before := MaxLocal(b[..|b| - 1]);
      match b[|b| - 1].local
      case None => before
      case Some(n) => Max(n, before)
  }

  function Offset<T>(bs: seq<Block<T>>): nat {
    if bs == [] then 0 else Offset(bs[..|bs| - 1]) + MaxLocal(bs[|bs| - 1]) + 1
  }

  function AllWrites<T>(bs: seq<Block<T>>): seq<Write<T>> {
    if bs == [] then []
    else AllWrites(bs[..|bs| - 1]) + Writes(bs[|bs| - 1], Offset(bs[..|bs| - 1]))
  }

  function Store<T>(ws: seq<Write<T>>): map<Name, T> {
    if ws == [] then map[] else Store(ws[..|ws| - 1])[ws[|ws| - 1].name := ws[|ws| - 1].value]
  }

  function StageAt<T>(stages: seq<seq<Block<T>>>, p: nat, v: nat): Block<T> {
    if p < |stages| && v < |stages[p]| then stages[p][v] else []
  }

  /** The stages in merge order: all pp ranks of vpp rank 0, then of vpp rank 1, and so on. */
  function Order<T>(stages: seq<seq<Block<T>>>, v: nat, p: nat): seq<Block<T>>
    decreases v, p
  {
    if p > 0 then Order(stages, v, p - 1) + [StageAt(stages, p - 1, v)]
    else if v > 0 then Order(stages, v - 1, |stages|)
    else []
  }

  /** The merged dict; with `n(p, v)` at least one layer in stage (p, v), it holds every layer tensor
      under the number of layers in all stages before its own plus its local number. */
  method MergeStateDicts<T(!new)>(stages: seq<seq<Block<T>>>, vppSize: nat, ghost n: (nat, nat) -> nat)
    returns (stateDict: map<Name, T>)
    requires forall i :: 0 <= i < |stages| ==> |stages[i]| == vppSize
    ensures stateDict == Store(AllWrites(Order(stages, vppSize, 0)))
    ensures AllStagesHold(stages, vppSize, n) ==> NumberedInOrder(stages, vppSize, n, stateDict)
  {
    if AllStagesHold(stages, vppSize, n) {
      MergedInOrder(stages, vppSize, n);
    }
    stateDict := map[];
    var layersCum := 0;
    for v := 0 to vppSize
      invariant layersCum == Offset(Order(stages, v, 0))
      invariant stateDict == Store(AllWrites(Order(stages, v, 0)))
    {
      for p := 0 to |stages|
        invariant layersCum == Offset(Order(stages, v, p))
        invariant stateDict == Store(AllWrites(Order(stages, v, p)))
      {
        var block := stages[p][v];
        var layersHandled;
        stateDict, layersHandled := WriteStage(stateDict, block, layersCum, AllWrites(Order(stages, v, p)));
        assert Order(stages, v, p + 1) == Order(stages, v, p) + [StageAt(stages, p, v)];
        AllWritesSnoc(Order(stages, v, p), block);
        layersCum := layersCum + layersHandled + 1;
      }
      assert Order(stages, v + 1, 0) == Order(stages, v, |stages|);
    }
  }

  /** One stage: every key is written under its renumbered name; the largest local number is returned. */
  method WriteStage<T>(before: map<Name, T>, block: Block<T>, layersCum: nat, ghost done: seq<Write<T>>)
    returns (stateDict: map<Name, T>, layersHandled: nat)
    requires before == Store(done)
    ensures stateDict == Store(done + Writes(block, layersCum))
    ensures layersHandled == MaxLocal(block)
  {
    stateDict, layersHandled := before, 0;
    ghost var ws := done;
    for k := 0 to |block|
      invariant layersHandled == MaxLocal(block[..k])
      invariant ws == done + Writes(block[..k], layersCum)
      invariant stateDict == Store(ws)
    {
      EntrySnoc(block, k, layersCum, done);
      if block[k].local.Some? {
        layersHandled := Max(block[k].local.value, layersHandled);
      }
      stateDict := WriteOutputs(stateDict, block[k], layersCum, ws);
      ws := ws + OutputWrites(block[k], layersCum);
    }
    assert block[..|block|] == block;
  }

  lemma {:induction false} EntrySnoc<T>(block: Block<T>, k: nat, offset: nat, done: seq<Write<T>>)
    requires k < |block|
    ensures done + Writes(block[..k + 1], offset) == done + Writes(block[..k], offset) + OutputWrites(block[k], offset)
    ensures MaxLocal(block[..k + 1])
         == if block[k].local.Some? then Max(block[k].local.value, MaxLocal(block[..k])) else MaxLocal(block[..k])
  {
    assert block[..k + 1][..k] == block[..k];
  }

  method WriteOutputs<T>(before: map<Name, T>, e: Entry<T>, layersCum: nat, ghost ws: seq<Write<T>>)
    returns (stateDict: map<Name, T>)
    requires before == Store(ws)
    ensures stateDict == Store(ws + OutputWrites(e, layersCum))
  {
    stateDict := before;
    ghost var out := ws;
    for x := 0 to |e.outputs|
      invariant out == ws + OutputWrites(e, layersCum)[..x]
      invariant stateDict == Store(out)
    {
      var name := NameOf(e.local, e.outputs[x].0, layersCum);
      StoreSnoc(out, Write(name, e.outputs[x].1));
      stateDict := stateDict[name := e.outputs[x].1];
      out := out + [Write(name, e.outputs[x].1)];
    }
    assert OutputWrites(e, layersCum)[..|e.outputs|] == OutputWrites(e, layersCum);
  }

  lemma {:induction false} StoreSnoc<T>(ws: seq<Write<T>>, w: Write<T>)
    ensures Store(ws + [w]) == Store(ws)[w.name := w.value]
  {
    assert (ws + [w])[..|ws|] == ws;
  }

  lemma {:induction false} AllWritesSnoc<T>(bs: seq<Block<T>>, b: Block<T>)
    ensures AllWrites(bs + [b]) == AllWrites(bs) + Writes(b, Offset(bs))
    ensures Offset(bs + [b]) == Offset(bs) + MaxLocal(b) + 1
  {
    assert (bs + [b])[..|bs|] == bs;
  }

  // ---------------------------------------------------------------- no layer tensor overwrites another

  /** A write stays unless a later write has the same name. */
  lemma {:induction false} LastWriteWins<T>(ws: seq<Write<T>>, i: nat)
    requires i < |ws| && forall j :: i < j < |ws| ==> ws[j].name != ws[i].name
    ensures ws[i].name in Store(ws) && Store(ws)[ws[i].name] == ws[i].value
    decreases |ws|
  {
    if i < |ws| - 1 {
      LastWriteWins(ws[..|ws| - 1], i);
    }
  }

  ghost predicate LayersDistinct<T>(ws: seq<Write<T>>) {
    forall i, j :: 0 <= i < j < |ws| && ws[i].name.LayerName? ==> ws[i].name != ws[j].name
  }

  ghost predicate LayersWithin<T>(ws: seq<Write<T>>, lo: nat, hi: nat) {
    forall i :: 0 <= i < |ws| && ws[i].name.LayerName? ==> lo <= ws[i].name.layer < hi
  }

  lemma {:induction false} WritesWithin<T>(b: Block<T>, offset: nat)
    ensures LayersWithin(Writes(b, offset), offset, offset + MaxLocal(b) + 1)
    ensures |Writes(b, offset)| == |Writes(b, 0)|
    ensures forall i :: 0 <= i < |Writes(b, 0)| ==> Writes(b, offset)[i] == Shifted(Writes(b, 0)[i], offset)
  {
    if b != [] {
      WritesWithin(b[..|b| - 1], offset);
    }
  }

  function Shifted<T>(w: Write<T>, offset: nat): Write<T> {
    match w.name
    case LayerName(n, s) => Write(LayerName(n + offset, s), w.value)
    case PlainName(_) => w
  }

  lemma {:induction false} ShiftKeepsDistinct<T>(b: Block<T>, offset: nat)
    requires LayersDistinct(Writes(b, 0))
    ensures LayersDistinct(Writes(b, offset))
  {
    WritesWithin(b, offset);
    var ws, vs := Writes(b, 0), Writes(b, offset);
    forall i, j | 0 <= i < j < |vs| && vs[i].name.LayerName? ensures vs[i].name != vs[j].name {
      assert ws[i].name != ws[j].name;
    }
  }

  lemma {:induction false} AllWritesDistinct<T>(bs: seq<Block<T>>)
    requires forall f :: 0 <= f < |bs| ==> LayersDistinct(Writes(bs[f], 0))
    ensures LayersDistinct(AllWrites(bs)) && LayersWithin(AllWrites(bs), 0, Offset(bs))
  {
    if bs != [] {
      var init, last := bs[..|bs| - 1], bs[|bs| - 1];
      AllWritesDistinct(init);
      WritesWithin(last, Offset(init));
      ShiftKeepsDistinct(last, Offset(init));
      DistinctConcat(AllWrites(init), Writes(last, Offset(init)), Offset(init), Offset(bs));
    }
  }

  lemma {:induction false} DistinctConcat<T>(xs: seq<Write<T>>, ys: seq<Write<T>>, mid: nat, hi: nat)
    requires LayersDistinct(xs) && LayersDistinct(ys) && mid <= hi
    requires LayersWithin(xs, 0, mid) && LayersWithin(ys, mid, hi)
    ensures LayersDistinct(xs + ys) && LayersWithin(xs + ys, 0, hi)
  {
    var zs := xs + ys;
    forall i, j | 0 <= i < j < |zs| && zs[i].name.LayerName? ensures zs[i].name != zs[j].name {
      if i < |xs| && j >= |xs| {
        assert zs[j] == ys[j - |xs|] && zs[i] == xs[i];
      } else if i >= |xs| {
        assert zs[i] == ys[i - |xs|] && zs[j] == ys[j - |xs|];
      }
    }
  }

  lemma {:induction false} BlockInAll<T>(bs: seq<Block<T>>, f: nat, w: Write<T>)
    requires f < |bs| && w in Writes(bs[f], Offset(bs[..f]))
    ensures w in AllWrites(bs)
    decreases |bs|
  {
    var init := bs[..|bs| - 1];
    if f < |init| {
      assert init[..f] == bs[..f];
      BlockInAll(init, f, w);
    }
  }

  ghost predicate Holds<T>(m: map<Name, T>, name: Name, t: T) {
    name in m && m[name] == t
  }

  lemma {:induction false} RenumberedStored<T(!new)>(bs: seq<Block<T>>, f: nat, w: Write<T>)
    requires forall g :: 0 <= g < |bs| ==> LayersDistinct(Writes(bs[g], 0))
    requires f < |bs| && w.name.LayerName? && w in Writes(bs[f], Offset(bs[..f]))
    ensures Holds(Store(AllWrites(bs)), w.name, w.value)
  {
    BlockInAll(bs, f, w);
    AllWritesDistinct(bs);
    DistinctMemberStored(AllWrites(bs), w);
  }

  // ---------------------------------------------------------------- what a stage's keys say

  /** Some key of the stage with this local layer number (or none) is written as `t` under `suffix`. */
  ghost predicate Wrote<T>(b: Block<T>, local: Option<nat>, suffix: string, t: T) {
    exists k, x :: 0 <= k < |b| && 0 <= x < |b[k].outputs| && b[k].local == local && b[k].outputs[x] == (suffix, t)
  }

  /** No two outputs of a stage belong to the same layer under the same suffix. */
  ghost predicate DistinctOutputs<T>(b: Block<T>) {
    forall k, x, k', x' :: 0 <= k < |b| && 0 <= x < |b[k].outputs| && 0 <= k' < |b| && 0 <= x' < |b[k'].outputs|
                           && (k != k' || x != x') && b[k].local.Some? && b[k].local == b[k'].local
                           ==> b[k].outputs[x].0 != b[k'].outputs[x'].0
  }

  ghost predicate ComesFrom<T>(w: Write<T>, b: Block<T>, offset: nat, k: int, x: int) {
    && 0 <= k < |b| && 0 <= x < |b[k].outputs|
    && w == Write(if b[k].local.Some? then LayerName(b[k].local.value + offset, b[k].outputs[x].0)
                  else PlainName(b[k].outputs[x].0), b[k].outputs[x].1)
  }

  lemma {:induction false} WriteComesFrom<T>(b: Block<T>, offset: nat, i: nat) returns (k: nat, x: nat)
    requires i < |Writes(b, offset)|
    ensures ComesFrom(Writes(b, offset)[i], b, offset, k, x)
    decreases |b|
  {
    var n := |b| - 1;
    if i < |Writes(b[..n], offset)| {
      k, x := WriteComesFrom(b[..n], offset, i);
    } else {
      k, x := n, i - |Writes(b[..n], offset)|;
    }
  }

  lemma {:induction false} OutputIsWritten<T>(b: Block<T>, offset: nat, k: nat, x: nat) returns (i: nat)
    requires k < |b| && x < |b[k].outputs|
    ensures i < |Writes(b, offset)| && ComesFrom(Writes(b, offset)[i], b, offset, k, x)
    decreases |b|
  {
    var n := |b| - 1;
    if k < n {
      i := OutputIsWritten(b[..n], offset, k, x);
    } else {
      i := |Writes(b[..n], offset)| + x;
    }
  }

  lemma {:induction false} DistinctFromOutputs<T>(b: Block<T>)
    requires DistinctOutputs(b)
    ensures LayersDistinct(Writes(b, 0))
    decreases |b|
  {
    if b != [] {
      var n := |b| - 1;
      var init, last := Writes(b[..n], 0), OutputWrites(b[n], 0);
      DistinctFromOutputs(b[..n]);
      var all: seq<Write<T>> := init + last;
      forall i, j | 0 <= i < j < |all| && all[i].name.LayerName? ensures all[i].name != all[j].name {
        if i < |init| <= j {
          var k, x := WriteComesFrom(b[..n], 0, i);
          assert b[k] == b[..n][k];
        } else if j < |init| {
          assert init[i].name != init[j].name;
        }
      }
    }
  }

  lemma {:induction false} OutputWrite<T(!new)>(b: Block<T>, local: nat, suffix: string, t: T, offset: nat)
    requires Wrote(b, Some(local), suffix, t)
    ensures Write(LayerName(local + offset, suffix), t) in Writes(b, offset)
  {
    var k, x :| 0 <= k < |b| && 0 <= x < |b[k].outputs| && b[k].local == Some(local) && b[k].outputs[x] == (suffix, t);
    var i := OutputIsWritten(b, offset, k, x);
    assert Writes(b, offset)[i] == Write(LayerName(local + offset, suffix), t);
  }

  /** Every layer tensor of every stage is in the merged dict under its renumbered name. */
  lemma {:induction false} EveryLayerTensorKept<T(!new)>(bs: seq<Block<T>>, f: nat, local: nat, suffix: string, t: T)
    requires forall g :: 0 <= g < |bs| ==> DistinctOutputs(bs[g])
    requires f < |bs| && Wrote(bs[f], Some(local), suffix, t)
    ensures Holds(Store(AllWrites(bs)), LayerName(local + Offset(bs[..f]), suffix), t)
  {
    forall g | 0 <= g < |bs| ensures LayersDistinct(Writes(bs[g], 0)) {
      DistinctFromOutputs(bs[g]);
    }
    OutputWrite(bs[f], local, suffix, t, Offset(bs[..f]));
    RenumberedStored(bs, f, Write(LayerName(local + Offset(bs[..f]), suffix), t));
  }

  /** A tensor outside the layers is kept under its own name, as the last stage that has it writes it. */
  lemma {:induction false} PlainTensorKept<T(!new)>(bs: seq<Block<T>>, f: nat, name: string, t: T)
    requires f < |bs| && Wrote(bs[f], None, name, t)
    requires forall u :: Wrote(bs[f], None, name, u) ==> u == t
    requires forall g, u :: f < g < |bs| ==> !Wrote(bs[g], None, name, u)
    ensures Holds(Store(AllWrites(bs)), PlainName(name), t)
    decreases |bs|
  {
    var n := |bs| - 1;
    var init, ws := AllWrites(bs[..n]), Writes(bs[n], Offset(bs[..n]));
    forall i | 0 <= i < |ws| && ws[i].name == PlainName(name) ensures Wrote(bs[n], None, name, ws[i].value) {
      var k, x := WriteComesFrom(bs[n], Offset(bs[..n]), i);
      assert bs[n][k].local == None && bs[n][k].outputs[x] == (name, ws[i].value);
    }
    if f == n {
      var k, x :| 0 <= k < |bs[n]| && 0 <= x < |bs[n][k].outputs|
                  && bs[n][k].local == None && bs[n][k].outputs[x] == (name, t);
      var i := OutputIsWritten(bs[n], Offset(bs[..n]), k, x);
      StoreLater(init, ws, PlainName(name), t, i);
    } else {
      PlainTensorKept(bs[..n], f, name, t);
      StoreEarlier(init, ws, PlainName(name));
    }
  }

  lemma {:induction false} StoreEarlier<T>(xs: seq<Write<T>>, ys: seq<Write<T>>, name: Name)
    requires forall i :: 0 <= i < |ys| ==> ys[i].name != name
    ensures name in Store(xs) ==> Holds(Store(xs + ys), name, Store(xs)[name])
    decreases |ys|
  {
    if ys == [] {
      assert xs + ys == xs;
    } else {
      var n := |ys| - 1;
      StoreEarlier(xs, ys[..n], name);
      assert xs + ys == (xs + ys[..n]) + [ys[n]];
      StoreSnoc(xs + ys[..n], ys[n]);
    }
  }

  lemma {:induction false} StoreLater<T>(xs: seq<Write<T>>, ys: seq<Write<T>>, name: Name, t: T, i: nat)
    requires i < |ys| && ys[i].name == name && forall j :: 0 <= j < |ys| && ys[j].name == name ==> ys[j].value == t
    ensures Holds(Store(xs + ys), name, t)
    decreases |ys|
  {
    var n := |ys| - 1;
    assert xs + ys == (xs + ys[..n]) + [ys[n]];
    StoreSnoc(xs + ys[..n], ys[n]);
    if i < n {
      StoreLater(xs, ys[..n], name, t, i);
    }
  }

  lemma {:induction false} MemberShifts<T(!new)>(b: Block<T>, offset: nat, w: Write<T>)
    requires w in Writes(b, 0)
    ensures Shifted(w, offset) in Writes(b, offset)
  {
    WritesWithin(b, offset);
    var i :| 0 <= i < |Writes(b, 0)| && Writes(b, 0)[i] == w;
    assert Writes(b, offset)[i] == Shifted(w, offset);
  }

  lemma {:induction false} MemberUnshifts<T(!new)>(b: Block<T>, offset: nat, v: Write<T>) returns (u: Write<T>)
    requires v in Writes(b, offset)
    ensures u in Writes(b, 0) && v == Shifted(u, offset)
  {
    WritesWithin(b, offset);
    var i :| 0 <= i < |Writes(b, offset)| && Writes(b, offset)[i] == v;
    u := Writes(b, 0)[i];
  }

  lemma {:induction false} DistinctMemberStored<T>(ws: seq<Write<T>>, w: Write<T>)
    requires LayersDistinct(ws) && w in ws && w.name.LayerName?
    ensures w.name in Store(ws) && Store(ws)[w.name] == w.value
  {
    var k :| 0 <= k < |ws| && ws[k] == w;
    LastWriteWins(ws, k);
  }

  // ---------------------------------------------------------------- which layer numbers are used

  ghost predicate Uses<T(!new)>(ws: seq<Write<T>>, x: nat) {
    exists w :: w in ws && w.name.LayerName? && w.name.layer == x
  }

  /** The keys of stage `b` belong to exactly the local layers 0..n-1, and each is written as something. */
  ghost predicate HoldsLayers<T>(b: Block<T>, n: nat) {
    && (forall k :: 0 <= k < |b| ==> b[k].outputs != [])
    && forall x: nat :: (exists k :: 0 <= k < |b| && b[k].local == Some(x)) <==> x < n
  }

  lemma {:induction false} MaxLocalIsMax<T>(b: Block<T>)
    ensures forall k :: 0 <= k < |b| && b[k].local.Some? ==> b[k].local.value <= MaxLocal(b)
    ensures MaxLocal(b) == 0 || exists k :: 0 <= k < |b| && b[k].local == Some(MaxLocal(b))
    decreases |b|
  {
    if b != [] {
      var n := |b| - 1;
      MaxLocalIsMax(b[..n]);
      forall k | 0 <= k < |b| && b[k].local.Some? ensures b[k].local.value <= MaxLocal(b) {
        if k < n {
          assert b[..n][k] == b[k];
        }
      }
      if MaxLocal(b) != 0 && MaxLocal(b) == MaxLocal(b[..n]) {
        var k :| 0 <= k < n && b[..n][k].local == Some(MaxLocal(b));
        assert b[k].local == Some(MaxLocal(b));
      } else if MaxLocal(b) != 0 {
        assert b[n].local == Some(MaxLocal(b));
      }
    }
  }

  lemma {:induction false} LayersHeld<T(!new)>(b: Block<T>, n: nat)
    requires HoldsLayers(b, n)
    ensures MaxLocal(b) + 1 == Max(n, 1)
  {
    MaxLocalIsMax(b);
    if n > 0 {
      var k :| 0 <= k < |b| && b[k].local == Some(n - 1);
    }
  }

  lemma {:induction false} LayersUsed<T(!new)>(b: Block<T>, n: nat, x: nat)
    requires HoldsLayers(b, n)
    ensures Uses(Writes(b, 0), x) <==> x < n
  {
    if x < n {
      var k :| 0 <= k < |b| && b[k].local == Some(x);
      var i := OutputIsWritten(b, 0, k, 0);
      assert Writes(b, 0)[i] in Writes(b, 0);
    }
    if Uses(Writes(b, 0), x) {
      var w :| w in Writes(b, 0) && w.name.LayerName? && w.name.layer == x;
      var i :| 0 <= i < |Writes(b, 0)| && Writes(b, 0)[i] == w;
      var k, y := WriteComesFrom(b, 0, i);
      assert b[k].local == Some(x);
    }
  }

  function Sum(ns: seq<nat>): nat {
    if ns == [] then 0 else Sum(ns[..|ns| - 1]) + ns[|ns| - 1]
  }

  ghost predicate AllHold<T(!new)>(bs: seq<Block<T>>, ns: seq<nat>) {
    |bs| == |ns| && forall f :: 0 <= f < |bs| ==> HoldsLayers(bs[f], ns[f])
  }

  /** No stage without layers comes before a stage with layers. */
  ghost predicate NoHole(ns: seq<nat>) {
    forall i, j :: 0 <= i < j < |ns| && ns[j] > 0 ==> ns[i] > 0
  }

  lemma {:induction false} OffsetBounds<T(!new)>(bs: seq<Block<T>>, ns: seq<nat>)
    requires AllHold(bs, ns)
    ensures Offset(bs) >= Sum(ns)
    ensures Offset(bs) == Sum(ns) <==> forall f :: 0 <= f < |ns| ==> ns[f] > 0
  {
    if bs != [] {
      OffsetBounds(bs[..|bs| - 1], ns[..|ns| - 1]);
      LayersHeld(bs[|bs| - 1], ns[|ns| - 1]);
      var init := ns[..|ns| - 1];
      assert (forall f :: 0 <= f < |ns| ==> ns[f] > 0)
        <==> (forall f :: 0 <= f < |init| ==> init[f] > 0) && ns[|ns| - 1] > 0 by {
        assert forall f :: 0 <= f < |init| ==> init[f] == ns[f];
      }
    }
  }

  lemma {:induction false} LayersOfStep<T(!new)>(bs: seq<Block<T>>, ns: seq<nat>, x: nat)
    requires AllHold(bs, ns) && bs != []
    ensures var n, offset := |bs| - 1, Offset(bs[..|bs| - 1]);
      Uses(AllWrites(bs), x) <==> Uses(AllWrites(bs[..n]), x) || offset <= x < offset + ns[n]
  {
    var init, last := bs[..|bs| - 1], bs[|bs| - 1];
    UsesConcat(AllWrites(init), Writes(last, Offset(init)), x);
    UsesShifted(last, Offset(init), x);
    if x >= Offset(init) {
      LayersUsed(last, ns[|bs| - 1], x - Offset(init));
    }
  }

  lemma {:induction false} UsesConcat<T(!new)>(xs: seq<Write<T>>, ys: seq<Write<T>>, x: nat)
    ensures Uses(xs + ys, x) <==> Uses(xs, x) || Uses(ys, x)
  {
    forall w | w in xs || w in ys ensures w in xs + ys {
    }
  }

  lemma {:induction false} UsesShifted<T(!new)>(b: Block<T>, offset: nat, x: nat)
    ensures Uses(Writes(b, offset), x) <==> x >= offset && Uses(Writes(b, 0), x - offset)
  {
    if Uses(Writes(b, offset), x) {
      var w :| w in Writes(b, offset) && w.name.LayerName? && w.name.layer == x;
      var u := MemberUnshifts(b, offset, w);
    }
    if x >= offset && Uses(Writes(b, 0), x - offset) {
      var w :| w in Writes(b, 0) && w.name.LayerName? && w.name.layer == x - offset;
      MemberShifts(b, offset, w);
      assert Shifted(w, offset) in Writes(b, offset);
    }
  }

  lemma {:induction false} ContiguousLayers<T(!new)>(bs: seq<Block<T>>, ns: seq<nat>, x: nat)
    requires AllHold(bs, ns) && NoHole(ns)
    ensures Uses(AllWrites(bs), x) <==> x < Sum(ns)
  {
    if bs != [] {
      var n := |bs| - 1;
      LayersOfStep(bs, ns, x);
      ContiguousLayers(bs[..n], ns[..n], x);
      OffsetBounds(bs[..n], ns[..n]);
      if ns[n] > 0 {
        assert forall f :: 0 <= f < n ==> ns[..n][f] > 0;
      }
    }
  }

  lemma {:induction false} HoleOvershoots<T(!new)>(bs: seq<Block<T>>, ns: seq<nat>) returns (x: nat)
    requires AllHold(bs, ns) && !NoHole(ns)
    ensures Uses(AllWrites(bs), x) && x >= Sum(ns)
  {
    var n := |bs| - 1;
    assert forall f :: 0 <= f < n ==> ns[f] == ns[..n][f];
    if ns[n] > 0 {
      if forall f :: 0 <= f < n ==> ns[..n][f] > 0 {
        assert false;
      }
      OffsetBounds(bs[..n], ns[..n]);
      x := Offset(bs[..n]) + ns[n] - 1;
      LayersOfStep(bs, ns, x);
    } else {
      assert !NoHole(ns[..n]) by {
        var i, j :| 0 <= i < j < |ns| && ns[j] > 0 && ns[i] == 0;
        assert ns[..n][i] == ns[i] && ns[..n][j] == ns[j];
      }
      x := HoleOvershoots(bs[..n], ns[..n]);
      LayersOfStep(bs, ns, x);
    }
  }

  /** The merged layers are numbered 0..total-1 exactly when no stage without layers comes
      before one with layers: such a stage still moves the counter on by one. */
  lemma {:induction false} ContiguousIff<T(!new)>(bs: seq<Block<T>>, ns: seq<nat>)
    requires AllHold(bs, ns)
    ensures (forall x: nat :: Uses(AllWrites(bs), x) <==> 0 <= x < Sum(ns)) <==> NoHole(ns)
  {
    if NoHole(ns) {
      forall x: nat ensures Uses(AllWrites(bs), x) <==> x < Sum(ns) {
        ContiguousLayers(bs, ns, x);
      }
    } else {
      var x := HoleOvershoots(bs, ns);
      assert !(Uses(AllWrites(bs), x) <==> 0 <= x < Sum(ns));
    }
  }

  const LAYER_ZERO: Entry<int> := Entry(Some(0), [("w", 7)])

  /** A stage without layers before a stage with layer 0: the merged model has layer 1 and no layer 0. */
  lemma {:induction false} EmptyStageShiftsNumbers()
    ensures AllHold([[], [LAYER_ZERO]], [0, 1])
    ensures AllWrites([[], [LAYER_ZERO]]) == [Write(LayerName(1, "w"), 7)]
    ensures !Uses(AllWrites([[], [LAYER_ZERO]]), 0) && Uses(AllWrites([[], [LAYER_ZERO]]), 1)
  {
    OneLayerHeld();
    EmptyStageWrites();
    assert Write(LayerName(1, "w"), 7) in AllWrites([[], [LAYER_ZERO]]);
  }

  lemma {:induction false} OneLayerHeld()
    ensures HoldsLayers<int>([], 0) && HoldsLayers([LAYER_ZERO], 1)
  {
    assert [LAYER_ZERO][0].local == Some(0);
  }

  lemma {:induction false} EmptyStageWrites()
    ensures AllWrites([[], [LAYER_ZERO]]) == [Write(LayerName(1, "w"), 7)]
  {
    var bs: seq<Block<int>> := [[], [LAYER_ZERO]];
    OneEntry(LAYER_ZERO, 1);
    assert bs[..1] == [[]] && bs[..1][..0] == [];
    assert AllWrites(bs[..1]) == [] && Offset(bs[..1]) == 1;
  }

  lemma {:induction false} OneEntry(e: Entry<int>, offset: nat)
    requires e == Entry(Some(0), [("w", 7)])
    ensures Writes([e], offset) == [Write(LayerName(offset, "w"), 7)] && MaxLocal([e]) == 0
  {
    assert [e][..0] == [];
    assert OutputWrites(e, offset) == [Write(LayerName(offset, "w"), 7)];
  }

  /** With at least one layer per stage, local layer `l` of the f-th stage becomes the layer
      numbered after all layers of the earlier stages. */
  lemma {:induction false} OffsetIsLayerCount<T(!new)>(bs: seq<Block<T>>, ns: seq<nat>, f: nat)
    requires AllHold(bs, ns) && f <= |bs| && forall g :: 0 <= g < |ns| ==> ns[g] > 0
    ensures Offset(bs[..f]) == Sum(ns[..f])
  {
    OffsetBounds(bs[..f], ns[..f]);
  }

  // ---------------------------------------------------------------- every stage at its place

  /** Layers of vpp rank `v` on the pipeline ranks below `p`. */
  function RankLayers(n: (nat, nat) -> nat, v: nat, p: nat): nat {
    if p == 0 then 0 else RankLayers(n, v, p - 1) + n(p - 1, v)
  }

  /** Layers of all stages (p', v') with v' < v, and with v' == v and p' < p. */
  function LayersBefore(n: (nat, nat) -> nat, pps: nat, v: nat, p: nat): nat
    decreases v
  {
    (if v == 0 then 0 else LayersBefore(n, pps, v - 1, pps)) + RankLayers(n, v, p)
  }

  ghost predicate AllStagesHold<T>(stages: seq<seq<Block<T>>>, vppSize: nat, n: (nat, nat) -> nat) {
    && (forall p :: 0 <= p < |stages| ==> |stages[p]| == vppSize)
    && forall p: nat, v: nat :: p < |stages| && v < vppSize ==>
         n(p, v) > 0 && HoldsLayers(stages[p][v], n(p, v)) && DistinctOutputs(stages[p][v])
  }

  /** The layer tensors of a stage are in the dict, numbered from `before` on. */
  ghost predicate NumberedFrom<T(!new)>(b: Block<T>, before: nat, m: map<Name, T>) {
    forall l: nat, suffix, t :: Wrote(b, Some(l), suffix, t) ==> Holds(m, LayerName(l + before, suffix), t)
  }

  ghost predicate NumberedInOrder<T(!new)>(stages: seq<seq<Block<T>>>, vppSize: nat, n: (nat, nat) -> nat,
      m: map<Name, T>)
    requires forall p :: 0 <= p < |stages| ==> |stages[p]| == vppSize
  {
    forall p: nat, v: nat :: p < |stages| && v < vppSize ==>
      NumberedFrom(stages[p][v], LayersBefore(n, |stages|, v, p), m)
  }

  /** Stage (p, v) is the block with number v * |stages| + p. */
  lemma {:induction false} StagePosition<T>(stages: seq<seq<Block<T>>>, vppSize: nat, p: nat, v: nat)
    requires p < |stages| && v < vppSize && forall i :: 0 <= i < |stages| ==> |stages[i]| == vppSize
    ensures var f := Times(v, |stages|) + p;
      && f < |Order(stages, vppSize, 0)| && Order(stages, vppSize, 0)[f] == stages[p][v]
      && Order(stages, vppSize, 0)[..f] == Order(stages, v, p)
  {
    OrderPrefix(stages, v, p + 1, vppSize);
    OrderLength(stages, v, p);
  }

  lemma {:induction false} OrderLength<T>(stages: seq<seq<Block<T>>>, v: nat, p: nat)
    ensures |Order(stages, v, p)| == Times(v, |stages|) + p
    decreases v, p
  {
    if p > 0 {
      OrderLength(stages, v, p - 1);
    } else if v > 0 {
      OrderLength(stages, v - 1, |stages|);
      MulStep(v, |stages|);
    }
  }

  lemma {:induction false} OrderPrefix<T>(stages: seq<seq<Block<T>>>, v: nat, p: nat, vppSize: nat)
    requires p <= |stages| && v < vppSize
    ensures Order(stages, v, p) <= Order(stages, vppSize, 0)
    decreases vppSize - v, |stages| - p
  {
    if p < |stages| {
      OrderPrefix(stages, v, p + 1, vppSize);
    } else if v + 1 < vppSize {
      OrderPrefix(stages, v + 1, 0, vppSize);
    }
  }

  lemma {:induction false} OffsetIsLayersBefore<T(!new)>(stages: seq<seq<Block<T>>>, vppSize: nat, n: (nat, nat) -> nat,
      v: nat, p: nat)
    requires AllStagesHold(stages, vppSize, n) && v < vppSize && p <= |stages|
    ensures Offset(Order(stages, v, p)) == LayersBefore(n, |stages|, v, p)
    decreases v, p
  {
    if p > 0 {
      OffsetIsLayersBefore(stages, vppSize, n, v, p - 1);
      AllWritesSnoc(Order(stages, v, p - 1), stages[p - 1][v]);
      LayersHeld(stages[p - 1][v], n(p - 1, v));
    } else if v > 0 {
      OffsetIsLayersBefore(stages, vppSize, n, v - 1, |stages|);
    }
  }

  lemma {:induction false} OrderDistinct<T>(stages: seq<seq<Block<T>>>, vppSize: nat, n: (nat, nat) -> nat, v: nat,
      p: nat)
    requires AllStagesHold(stages, vppSize, n) && p <= |stages| && (v < vppSize || (v == vppSize && p == 0))
    ensures forall f :: 0 <= f < |Order(stages, v, p)| ==> LayersDistinct(Writes(Order(stages, v, p)[f], 0))
    decreases v, p
  {
    if p > 0 {
      OrderDistinct(stages, vppSize, n, v, p - 1);
      DistinctFromOutputs(stages[p - 1][v]);
    } else if v > 0 {
      OrderDistinct(stages, vppSize, n, v - 1, |stages|);
    }
  }

  lemma {:induction false} BlockNumbered<T(!new)>(bs: seq<Block<T>>, f: nat)
    requires f < |bs| && forall g :: 0 <= g < |bs| ==> LayersDistinct(Writes(bs[g], 0))
    ensures NumberedFrom(bs[f], Offset(bs[..f]), Store(AllWrites(bs)))
  {
    forall l: nat, suffix, t | Wrote(bs[f], Some(l), suffix, t)
      ensures Holds(Store(AllWrites(bs)), LayerName(l + Offset(bs[..f]), suffix), t)
    {
      OutputWrite(bs[f], l, suffix, t, Offset(bs[..f]));
      RenumberedStored(bs, f, Write(LayerName(l + Offset(bs[..f]), suffix), t));
    }
  }

  lemma {:induction false} StageNumbered<T(!new)>(stages: seq<seq<Block<T>>>, vppSize: nat, n: (nat, nat) -> nat,
      p: nat, v: nat)
    requires AllStagesHold(stages, vppSize, n) && p < |stages| && v < vppSize
    ensures NumberedFrom(stages[p][v], LayersBefore(n, |stages|, v, p), Store(AllWrites(Order(stages, vppSize, 0))))
  {
    OrderDistinct(stages, vppSize, n, vppSize, 0);
    StagePosition(stages, vppSize, p, v);
    OffsetIsLayersBefore(stages, vppSize, n, v, p);
    BlockNumbered(Order(stages, vppSize, 0), Times(v, |stages|) + p);
  }

  /** Local layer `l` of stage (p, v) is merged as `l` plus the layers of all stages before it: all
      pipeline ranks of the earlier vpp ranks, then the earlier pipeline ranks of its own. */
  lemma {:induction false} MergedInOrder<T(!new)>(stages: seq<seq<Block<T>>>, vppSize: nat, n: (nat, nat) -> nat)
    requires AllStagesHold(stages, vppSize, n)
    ensures NumberedInOrder(stages, vppSize, n, Store(AllWrites(Order(stages, vppSize, 0))))
  {
    var m := Store(AllWrites(Order(stages, vppSize, 0)));
    forall p: nat, v: nat | p < |stages| && v < vppSize
      ensures NumberedFrom(stages[p][v], LayersBefore(n, |stages|, v, p), m)
    {
      StageNumbered(stages, vppSize, n, p, v);
    }
  }
}
