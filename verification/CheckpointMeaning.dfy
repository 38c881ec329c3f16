/** What the checkpoint's view of a log means, said of the positions of its records: the order
    of the rows, and when the strict loader accepts a file. */
module CheckpointMeaning {
  import opened Prelude
  import opened Permutations
  import opened Checkpoint

  /** The rows stand in the order in which they first occur in the log. */
  lemma {:induction false} FirstSeenOrder(log: seq<Record>, i: nat, j: nat)
    requires i < j < |FirstSeen(log)|
    ensures exists p :: OccursBefore(log, p, FirstSeen(log)[i], FirstSeen(log)[j])
    decreases |log|
  {
    var n := |log| - 1;
    var before := FirstSeen(log[..n]);
    if j < |before| {
      FirstSeenOrder(log[..n], i, j);
      var p :| OccursBefore(log[..n], p, before[i], before[j]);
      assert log[p] == log[..n][p];
      forall q | 0 <= q <= p ensures log[q].sourceRow != before[j] {
        assert log[q] == log[..n][q];
      }
      assert FirstSeen(log)[i] == before[i] && FirstSeen(log)[j] == before[j];
      assert OccursBefore(log, p, before[i], before[j]);
    } else {
      LatestIsLast(log[..n], before[i]);
      LatestIsLast(log[..n], log[n].sourceRow);
      assert before[i] in before;
      var p :| 0 <= p < n && log[..n][p].sourceRow == before[i];
      forall q | 0 <= q <= p ensures log[q].sourceRow != log[n].sourceRow {
        assert log[q] == log[..n][q];
      }
      assert FirstSeen(log)[i] == before[i] && FirstSeen(log)[j] == log[n].sourceRow;
      assert OccursBefore(log, p, FirstSeen(log)[i], FirstSeen(log)[j]);
    }
  }

  /** Row `a` occurs at `p`, and row `b` not up to there. */
  ghost predicate OccursBefore(log: seq<Record>, p: int, a: int, b: int) {
    0 <= p < |log| && log[p].sourceRow == a && forall q :: 0 <= q <= p ==> log[q].sourceRow != b
  }

  // ---------------------------------------------------------------- what the loader accepts

  /** Position `i` is the last one of its row. */
  ghost predicate LastOfRow(log: seq<Record>, i: int) {
    0 <= i < |log| && IsLast(log, i, log[i].sourceRow)
  }

  /** The last record of every row carries the expected metadata and one backend. */
  ghost predicate AllExpected(log: seq<Record>, mode: string, name: string, backend: string) {
    forall i :: LastOfRow(log, i) ==>
      && log[i].meta.schemaVersion == 1 && log[i].meta.mode == mode && log[i].meta.name == name
      && log[i].meta.backend == backend
  }

  ghost predicate HasOrder(log: seq<Record>, o: int) {
    exists i :: LastOfRow(log, i) && log[i].order == o
  }

  /** The sample orders of the last records are the numbers below `n`, no two of them the same. */
  ghost predicate OrdersAre(log: seq<Record>, n: nat) {
    && (forall i, j :: LastOfRow(log, i) && LastOfRow(log, j) && log[i].order == log[j].order ==> i == j)
    && (forall o :: HasOrder(log, o) <==> 0 <= o < n)
  }

  /** A non-empty log whose last records are a full selection of as many rows as the last record of
      the row that occurs first says. */
  ghost predicate LoaderAccepts(log: seq<Record>, mode: string, name: string) {
    && |log| > 0
    && exists f :: IsLast(log, f, log[0].sourceRow) && log[f].meta.numSamples >= 0
         && AllExpected(log, mode, name, log[f].meta.backend) && OrdersAre(log, log[f].meta.numSamples)
  }

  /** The key at each place of the dict, its record, and the position of that record. */
  lemma {:induction false} KeyPosition(log: seq<Record>, k: nat) returns (i: nat)
    requires k < |FirstSeen(log)|
    ensures FirstSeen(log)[k] in Latest(log) && i < |log| && IsLast(log, i, FirstSeen(log)[k]) && LastOfRow(log, i)
    ensures Latest(log)[FirstSeen(log)[k]] == log[i] && OrdersOf(FirstSeen(log), Latest(log))[k] == log[i].order
  {
    var row := FirstSeen(log)[k];
    assert row in FirstSeen(log);
    LatestIsLast(log, row);
    i :| IsLast(log, i, row) && log[i] == Latest(log)[row];
  }

  lemma {:induction false} PositionKey(log: seq<Record>, i: nat) returns (k: nat)
    requires LastOfRow(log, i)
    ensures k < |FirstSeen(log)| && FirstSeen(log)[k] == log[i].sourceRow
    ensures log[i].sourceRow in Latest(log) && Latest(log)[log[i].sourceRow] == log[i]
    ensures OrdersOf(FirstSeen(log), Latest(log))[k] == log[i].order
  {
    var row := log[i].sourceRow;
    LatestIsLast(log, row);
    var j :| IsLast(log, j, row) && log[j] == Latest(log)[row];
    LastIsUnique(log, i, j, row);
    assert row in FirstSeen(log);
    k :| 0 <= k < |FirstSeen(log)| && FirstSeen(log)[k] == row;
  }

  lemma {:induction false} FirstKey(log: seq<Record>)
    requires log != []
    ensures FirstSeen(log) != [] && FirstSeen(log)[0] == log[0].sourceRow
    decreases |log|
  {
    var n := |log| - 1;
    if n > 0 {
      FirstKey(log[..n]);
      assert log[..n][0] == log[0];
    } else {
      assert log[..n] == [];
    }
  }

  lemma {:induction false} FitIff(log: seq<Record>, mode: string, name: string, backend: string)
    ensures AllFit(FirstSeen(log), Latest(log), mode, name, backend) <==> AllExpected(log, mode, name, backend)
  {
    var keys, records := FirstSeen(log), Latest(log);
    if AllFit(keys, records, mode, name, backend) {
      forall i | LastOfRow(log, i) ensures MetaFits(log[i], mode, name, backend) {
        var k := PositionKey(log, i);
        assert keys[k] in records && MetaFits(records[keys[k]], mode, name, backend);
      }
    }
    if AllExpected(log, mode, name, backend) {
      forall k | 0 <= k < |keys| && keys[k] in records ensures MetaFits(records[keys[k]], mode, name, backend) {
        var i := KeyPosition(log, k);
      }
    }
  }

  lemma {:induction false} KeyHasOrder(log: seq<Record>, k: nat)
    requires k < |FirstSeen(log)|
    ensures HasOrder(log, OrdersOf(FirstSeen(log), Latest(log))[k])
  {
    var i := KeyPosition(log, k);
  }

  lemma {:induction false} OrderHasKey(log: seq<Record>, o: int) returns (k: nat)
    requires HasOrder(log, o)
    ensures k < |FirstSeen(log)| && OrdersOf(FirstSeen(log), Latest(log))[k] == o
  {
    var i :| LastOfRow(log, i) && log[i].order == o;
    k := PositionKey(log, i);
  }

  lemma {:induction false} RangeOfDistinct(log: seq<Record>)
    requires var xs := OrdersOf(FirstSeen(log), Latest(log)); Distinct(xs) && InRange(xs, |xs|)
    ensures OrdersAre(log, |FirstSeen(log)|)
  {
    var xs := OrdersOf(FirstSeen(log), Latest(log));
    forall i, j | LastOfRow(log, i) && LastOfRow(log, j) && log[i].order == log[j].order ensures i == j {
      var k := PositionKey(log, i);
      var l := PositionKey(log, j);
      assert xs[k] == xs[l] && k == l;
      LastIsUnique(log, i, j, log[i].sourceRow);
    }
    forall o ensures HasOrder(log, o) <==> 0 <= o < |xs| {
      if HasOrder(log, o) {
        var k := OrderHasKey(log, o);
      }
      if 0 <= o < |xs| {
        var k := OrderIsTaken(xs, o);
        KeyHasOrder(log, k);
      }
    }
  }

  lemma {:induction false} OrderIsTaken(xs: seq<int>, o: nat) returns (k: nat)
    requires Distinct(xs) && InRange(xs, |xs|) && o < |xs|
    ensures k < |xs| && xs[k] == o
  {
    var ys: seq<nat> := seq(|xs|, i requires 0 <= i < |xs| => xs[i]);
    Pigeonhole(ys, |xs|);
    assert o in ys;
    k :| 0 <= k < |ys| && ys[k] == o;
  }

  lemma {:induction false} DistinctOfRange(log: seq<Record>, n: nat)
    requires OrdersAre(log, n)
    ensures var xs := OrdersOf(FirstSeen(log), Latest(log)); Distinct(xs) && InRange(xs, n) && |xs| == n
  {
    var xs := OrdersOf(FirstSeen(log), Latest(log));
    forall k, l | 0 <= k < l < |xs| ensures xs[k] != xs[l] {
      var i := KeyPosition(log, k);
      var j := KeyPosition(log, l);
      assert FirstSeen(log)[k] != FirstSeen(log)[l];
    }
    forall k | 0 <= k < |xs| ensures 0 <= xs[k] < n {
      KeyHasOrder(log, k);
    }
    var ys := seq(n, i requires 0 <= i < n => i as int);
    forall o ensures o in xs <==> o in ys {
      if o in ys {
        var k := OrderHasKey(log, o);
        assert xs[k] == o;
      }
      if o in xs {
        assert 0 <= o < n && ys[o] == o;
      }
    }
    SameMembersSameLength(xs, ys);
  }

  /** The loader accepts a log exactly when its last records are a full selection. */
  lemma {:induction false} AcceptableIff(log: seq<Record>, mode: string, name: string)
    ensures Acceptable(log, mode, name) <==> LoaderAccepts(log, mode, name)
  {
    var keys := FirstSeen(log);
    if log != [] {
      FirstKey(log);
      var f := KeyPosition(log, 0);
      FitIff(log, mode, name, log[f].meta.backend);
      if Acceptable(log, mode, name) {
        RangeOfDistinct(log);
        assert IsLast(log, f, log[0].sourceRow) && log[f].meta.numSamples == |keys|;
      }
      if LoaderAccepts(log, mode, name) {
        var g :| IsLast(log, g, log[0].sourceRow) && log[g].meta.numSamples >= 0
          && AllExpected(log, mode, name, log[g].meta.backend) && OrdersAre(log, log[g].meta.numSamples);
        LastIsUnique(log, f, g, log[0].sourceRow);
        DistinctOfRange(log, log[g].meta.numSamples);
      }
    }
  }
}
