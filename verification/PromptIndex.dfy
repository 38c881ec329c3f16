/** The memoised prompt index of plot_val_trends.py: which source row a validation record came
    from, by exact key or else by the longest indexed key its prompt contains. */
module PromptIndex {
  import opened Prelude

  const MIN_CONTAINED: nat := 24

  datatype Entry = Entry(key: string, dataSource: string, source: string, groundTruth: string, path: string)

  datatype Query = Query(key: string, groundTruth: string, explicit: string)

  type Table = map<string, seq<Entry>>

  /** `small in big` on Python strings. */
  predicate Contains(big: string, small: string) {
    exists i :: 0 <= i <= |big| && small <= big[i..]
  }

  // ---------------------------------------------------------------- keys by length

  function InsertByLength(k: string, ks: seq<string>): (r: seq<string>)
    ensures multiset(r) == multiset(ks) + multiset{k}
  {
    if ks == [] then [k]
    else if |k| > |ks[0]| then [k] + ks
    else
      assert ks == [ks[0]] + ks[1..];
      [ks[0]] + InsertByLength(k, ks[1..])
  }

  /** sorted(keys, key=len, reverse=True): longest first, earlier keys first among equals. */
  function SortByLength(ks: seq<string>): (r: seq<string>)
    ensures multiset(r) == multiset(ks)
  {
    if ks == [] then []
    else
      assert ks == ks[..|ks| - 1] + [ks[|ks| - 1]];
      InsertByLength(ks[|ks| - 1], SortByLength(ks[..|ks| - 1]))
  }

  ghost predicate LongestFirst(ks: seq<string>) {
    forall i, j :: 0 <= i < j < |ks| ==> |ks[i]| >= |ks[j]|
  }

  lemma {:induction false} InsertKeepsOrder(k: string, ks: seq<string>)
    requires LongestFirst(ks)
    ensures LongestFirst(InsertByLength(k, ks))
  {
    if ks != [] && |k| <= |ks[0]| {
      InsertKeepsOrder(k, ks[1..]);
      var r := InsertByLength(k, ks[1..]);
      forall i | 0 <= i < |r| ensures |ks[0]| >= |r[i]| {
        assert r[i] in multiset(r);
        assert r[i] in ks[1..] || r[i] == k;
      }
      ConsLongest(ks[0], r);
    }
  }

  lemma {:induction false} ConsLongest(k: string, r: seq<string>)
    requires LongestFirst(r) && forall i :: 0 <= i < |r| ==> |k| >= |r[i]|
    ensures LongestFirst([k] + r)
  {
  }

  lemma {:induction false} SortIsLongestFirst(ks: seq<string>)
    ensures LongestFirst(SortByLength(ks))
  {
    if ks != [] {
      SortIsLongestFirst(ks[..|ks| - 1]);
      InsertKeepsOrder(ks[|ks| - 1], SortByLength(ks[..|ks| - 1]));
    }
  }

  lemma {:induction false} SortKeepsMembers(ks: seq<string>)
    ensures forall k :: k in SortByLength(ks) <==> k in ks
  {
    forall k ensures k in SortByLength(ks) <==> k in ks {
      assert k in SortByLength(ks) <==> k in multiset(SortByLength(ks));
      assert k in ks <==> k in multiset(ks);
    }
  }

  /** Containment means: some stretch of the text is the key, character by character. */
  lemma {:induction false} ContainsIff(big: string, small: string)
    ensures Contains(big, small)
       <==> exists i, j :: 0 <= i <= j <= |big| && big[i..j] == small
  {
    if Contains(big, small) {
      var i :| 0 <= i <= |big| && small <= big[i..];
      assert big[i..i + |small|] == small;
    }
    if i, j :| 0 <= i <= j <= |big| && big[i..j] == small {
      assert big[i..][..j - i] == small;
    }
  }

  // ---------------------------------------------------------------- an uncached lookup

  function FirstContained(keys: seq<string>, query: string): Option<string> {
    if keys == [] then None
    else if |keys[0]| >= MIN_CONTAINED && Contains(query, keys[0]) then Some(keys[0])
    else FirstContained(keys[1..], query)
  }

  function Candidates(table: Table, keys: seq<string>, query: string): seq<Entry> {
    if query in table && table[query] != [] then table[query]
    else if query == "" then []
    else
      match FirstContained(keys, query)
      case None => []
      case Some(k) => if k in table then table[k] else []
  }

  function WithTruth(es: seq<Entry>, truth: string): (r: seq<Entry>)
    ensures forall e :: e in r <==> e in es && e.groundTruth == truth
  {
    if es == [] then []
    else (if es[0].groundTruth == truth then [es[0]] else []) + WithTruth(es[1..], truth)
  }

  function Preferred(es: seq<Entry>, truth: string): seq<Entry> {
    if truth != "" && |es| > 1 && WithTruth(es, truth) != [] then WithTruth(es, truth) else es
  }

  function Answer(es: seq<Entry>, explicit: string): Option<Entry> {
    if es == [] then None
    else
      var source := if explicit != "" then explicit else es[0].dataSource;
      if source == "" then None else Some(es[0].(dataSource := source))
  }

  function Lookup(table: Table, keys: seq<string>, q: Query): Option<Entry> {
    Answer(Preferred(Candidates(table, keys, q.key), q.groundTruth), q.explicit)
  }

  function Lookups(table: Table, keys: seq<string>, qs: seq<Query>): (r: seq<Option<Entry>>)
    ensures |r| == |qs| && forall i :: 0 <= i < |qs| ==> r[i] == Lookup(table, keys, qs[i])
  {
    seq(|qs|, i requires 0 <= i < |qs| => Lookup(table, keys, qs[i]))
  }

  // ---------------------------------------------------------------- what a lookup means

  /** The table's keys are listed longest first, and every list of entries is non-empty. */
  ghost predicate WellFormed(table: Table, keys: seq<string>) {
    && LongestFirst(keys)
    && (forall k :: k in keys <==> k in table)
    && (forall k :: k in table ==> table[k] != [] && forall e :: e in table[k] ==> e.key == k)
  }

  ghost predicate Usable(k: string, table: Table, query: string) {
    k in table && |k| >= MIN_CONTAINED && Contains(query, k)
  }

  lemma {:induction false} FirstContainedIsLongest(keys: seq<string>, query: string)
    requires LongestFirst(keys)
    ensures var r := FirstContained(keys, query);
      && (r.Some? ==> r.value in keys && |r.value| >= MIN_CONTAINED && Contains(query, r.value))
      && (r.Some? ==> forall k :: k in keys && |k| >= MIN_CONTAINED && Contains(query, k) ==> |k| <= |r.value|)
      && (r.None? ==> forall k :: k in keys && |k| >= MIN_CONTAINED ==> !Contains(query, k))
  {
    if keys != [] {
      FirstContainedIsLongest(keys[1..], query);
      forall k | k in keys ensures k == keys[0] || k in keys[1..] {
      }
      forall k | k in keys ensures |k| <= |keys[0]| {
      }
    }
  }

  /** The key a record is matched under: its own if indexed, else a longest usable one. */
  ghost predicate MatchedUnder(k: string, table: Table, query: string) {
    if query in table then k == query
    else query != "" && Usable(k, table, query) && forall u :: Usable(u, table, query) ==> |u| <= |k|
  }

  /** The entry chosen among those of one key: one with the record's ground truth if there is any. */
  ghost predicate ChosenFrom(e: Entry, es: seq<Entry>, truth: string) {
    && e in es
    && (truth != "" && (exists x :: x in es && x.groundTruth == truth) ==> e.groundTruth == truth)
    && (exists i :: 0 <= i < |es| && es[i] == e
          && (truth == "" || (forall x :: x in es ==> x.groundTruth != truth) ==> i == 0)
          && (truth != "" && e.groundTruth == truth ==> forall j :: 0 <= j < i ==> es[j].groundTruth != truth))
  }

  lemma {:induction false} WithTruthFirst(es: seq<Entry>, truth: string)
    requires WithTruth(es, truth) != []
    ensures exists i :: 0 <= i < |es| && es[i] == WithTruth(es, truth)[0]
              && forall j :: 0 <= j < i ==> es[j].groundTruth != truth
  {
    if es[0].groundTruth != truth {
      WithTruthFirst(es[1..], truth);
      var i :| 0 <= i < |es[1..]| && es[1..][i] == WithTruth(es[1..], truth)[0]
               && forall j :: 0 <= j < i ==> es[1..][j].groundTruth != truth;
      forall j | 0 <= j < i + 1 ensures es[j].groundTruth != truth {
        if j > 0 {
          assert es[1..][j - 1] == es[j];
        }
      }
      assert es[i + 1] == WithTruth(es, truth)[0];
    }
  }

  lemma {:induction false} PreferredIsChosen(es: seq<Entry>, truth: string)
    requires es != []
    ensures Preferred(es, truth) != [] && ChosenFrom(Preferred(es, truth)[0], es, truth)
  {
    var r := Preferred(es, truth)[0];
    if truth != "" && |es| > 1 && WithTruth(es, truth) != [] {
      WithTruthFirst(es, truth);
      assert r in WithTruth(es, truth);
    } else {
      assert es[0] == r;
      if truth != "" && exists x :: x in es && x.groundTruth == truth {
        var x :| x in es && x.groundTruth == truth;
        assert x in WithTruth(es, truth);
        assert es == [es[0]];
      }
    }
  }

  /** The record names no data source and neither does the entry it matches. */
  ghost predicate SourceUnknown(table: Table, q: Query) {
    q.explicit == ""
    && exists k, e ::
         MatchedUnder(k, table, q.key) && k in table && ChosenFrom(e, table[k], q.groundTruth) && e.dataSource == ""
  }

  /** A lookup returns, with its data source filled in, the chosen entry of the matched key, and
      returns nothing only when no key matches or no data source is known. */
  lemma {:induction false} LookupMeaning(table: Table, keys: seq<string>, q: Query)
    requires WellFormed(table, keys)
    ensures match Lookup(table, keys, q)
      case Some(r) =>
        exists k, e :: MatchedUnder(k, table, q.key) && k in table && ChosenFrom(e, table[k], q.groundTruth)
          && r == e.(dataSource := if q.explicit != "" then q.explicit else e.dataSource) && r.dataSource != ""
      case None => (forall k :: !MatchedUnder(k, table, q.key)) || SourceUnknown(table, q)
  {
    var c := Candidates(table, keys, q.key);
    FirstContainedIsLongest(keys, q.key);
    if c == [] {
      NoMatch(table, keys, q.key);
    } else {
      var k := if q.key in table then q.key else FirstContained(keys, q.key).value;
      assert MatchedUnder(k, table, q.key) && c == table[k];
      PreferredIsChosen(c, q.groundTruth);
      var e := Preferred(c, q.groundTruth)[0];
      assert ChosenFrom(e, table[k], q.groundTruth);
    }
  }

  lemma {:induction false} NoMatch(table: Table, keys: seq<string>, query: string)
    requires WellFormed(table, keys) && Candidates(table, keys, query) == []
    ensures forall k :: !MatchedUnder(k, table, query)
  {
    FirstContainedIsLongest(keys, query);
  }

  // ---------------------------------------------------------------- ties between contained keys

  /** The entries' keys in order of first appearance, as a Python dict keeps them. */
  function KeysOf(entries: seq<Entry>): (r: seq<string>)
    ensures forall k :: k in r <==> exists i :: 0 <= i < |entries| && entries[i].key == k
  {
    if entries == [] then []
    else
      var n := |entries| - 1;
      var before := KeysOf(entries[..n]);
      assert forall i :: 0 <= i < n ==> entries[..n][i] == entries[i];
      if entries[n].key in before then before else before + [entries[n].key]
  }

  ghost predicate IsContained(k: string, query: string) {
    |k| >= 24 && Contains(query, k)
  }

  /** The entry at `i` has a contained key that no other contained key beats: none is longer, and none
      as long comes earlier. */
  ghost predicate BestContained(entries: seq<Entry>, i: int, query: string) {
    && 0 <= i < |entries| && IsContained(entries[i].key, query)
    && forall j :: 0 <= j < |entries| && IsContained(entries[j].key, query) ==>
         |entries[j].key| < |entries[i].key| || (|entries[j].key| == |entries[i].key| && j >= i)
  }

  /** One more key wins the search exactly when it is contained and longer than the winner so far. */
  lemma {:induction false} InsertedFound(k: string, ks: seq<string>, query: string)
    requires LongestFirst(ks)
    ensures var was := FirstContained(ks, query);
      FirstContained(InsertByLength(k, ks), query)
        == if IsContained(k, query) && (was.None? || |k| > |was.value|) then Some(k) else was
  {
    FirstContainedIsLongest(ks, query);
    if ks != [] && |k| <= |ks[0]| {
      InsertedFound(k, ks[1..], query);
      assert InsertByLength(k, ks)[1..] == InsertByLength(k, ks[1..]);
    } else {
      assert InsertByLength(k, ks)[1..] == ks;
      FoundInKeys(ks, query);
    }
  }

  lemma {:induction false} FoundInKeys(ks: seq<string>, query: string)
    requires LongestFirst(ks)
    ensures var r := FirstContained(ks, query); r.Some? ==> r.value in ks && |r.value| <= |ks[0]|
  {
    FirstContainedIsLongest(ks, query);
  }

  ghost predicate Found(entries: seq<Entry>, r: Option<string>, query: string) {
    match r
    case Some(k) => exists i :: BestContained(entries, i, query) && entries[i].key == k
    case None => forall i :: 0 <= i < |entries| ==> !IsContained(entries[i].key, query)
  }

  lemma {:induction false} OldBest(entries: seq<Entry>, e: Entry, was: Option<string>, query: string)
    requires Found(entries, was, query)
    requires IsContained(e.key, query) ==> was.Some? && |e.key| <= |was.value|
    ensures Found(entries + [e], was, query)
  {
    var all := entries + [e];
    if was.Some? {
      var i :| BestContained(entries, i, query) && entries[i].key == was.value;
      assert BestContained(all, i, query);
    }
  }

  lemma {:induction false} NewBest(entries: seq<Entry>, e: Entry, was: Option<string>, query: string)
    requires Found(entries, was, query) && IsContained(e.key, query) && (was.None? || |e.key| > |was.value|)
    ensures Found(entries + [e], Some(e.key), query)
  {
    assert BestContained(entries + [e], |entries|, query);
  }

  lemma {:induction false} SeenIsNoLonger(entries: seq<Entry>, k: string, was: Option<string>, query: string)
    requires Found(entries, was, query) && k in KeysOf(entries) && IsContained(k, query)
    ensures was.Some? && |k| <= |was.value|
  {
    var j :| 0 <= j < |entries| && entries[j].key == k;
    assert IsContained(entries[j].key, query);
  }

  lemma {:induction false} KeysSnoc(entries: seq<Entry>, e: Entry)
    ensures KeysOf(entries + [e]) == if e.key in KeysOf(entries) then KeysOf(entries) else KeysOf(entries) + [e.key]
  {
    assert (entries + [e])[..|entries|] == entries;
  }

  lemma {:induction false} SortSnoc(ks: seq<string>, k: string)
    ensures SortByLength(ks + [k]) == InsertByLength(k, SortByLength(ks))
  {
    assert (ks + [k])[..|ks|] == ks;
  }

  /** Among the contained keys the search takes the longest, and among those the one that the entries
      name first. */
  lemma {:induction false} SearchMeaning(entries: seq<Entry>, query: string)
    ensures Found(entries, FirstContained(SortByLength(KeysOf(entries)), query), query)
    decreases |entries|
  {
    if entries != [] {
      var before, e := entries[..|entries| - 1], entries[|entries| - 1];
      SearchMeaning(before, query);
      assert entries == before + [e];
      SearchOneMore(before, e, query);
    }
  }

  lemma {:induction false} SearchOneMore(entries: seq<Entry>, e: Entry, query: string)
    requires Found(entries, FirstContained(SortByLength(KeysOf(entries)), query), query)
    ensures Found(entries + [e], FirstContained(SortByLength(KeysOf(entries + [e])), query), query)
  {
    var ks := KeysOf(entries);
    var was := FirstContained(SortByLength(ks), query);
    KeysSnoc(entries, e);
    if e.key in ks {
      if IsContained(e.key, query) {
        SeenIsNoLonger(entries, e.key, was, query);
      }
      OldBest(entries, e, was, query);
    } else {
      SortSnoc(ks, e.key);
      SortIsLongestFirst(ks);
      InsertedFound(e.key, SortByLength(ks), query);
      if IsContained(e.key, query) && (was.None? || |e.key| > |was.value|) {
        NewBest(entries, e, was, query);
      } else {
        OldBest(entries, e, was, query);
      }
    }
  }

  // ---------------------------------------------------------------- building the table

  /** The entries with key `k`, in their order and with their repetitions. */
  function Under(entries: seq<Entry>, k: string): seq<Entry> {
    if entries == [] then []
    else
      var n := |entries| - 1;
      Under(entries[..n], k) + (if entries[n].key == k then [entries[n]] else [])
  }

  ghost predicate Indexes(table: Table, entries: seq<Entry>) {
    && (forall k :: k in table <==> Under(entries, k) != [])
    && forall k :: k in table ==> table[k] == Under(entries, k)
  }

  lemma {:induction false} UnderSnoc(entries: seq<Entry>, e: Entry, k: string)
    ensures Under(entries + [e], k) == Under(entries, k) + (if e.key == k then [e] else [])
  {
    assert (entries + [e])[..|entries|] == entries;
  }

  lemma {:induction false} IndexesMore(table: Table, entries: seq<Entry>, e: Entry)
    requires Indexes(table, entries)
    ensures Indexes(table[e.key := (if e.key in table then table[e.key] else []) + [e]], entries + [e])
  {
    var t := table[e.key := (if e.key in table then table[e.key] else []) + [e]];
    forall k
      ensures k in t <==> Under(entries + [e], k) != []
      ensures k in t ==> t[k] == Under(entries + [e], k)
    {
      UnderSnoc(entries, e, k);
    }
  }

  lemma {:induction false} UnderHasKey(entries: seq<Entry>, k: string, e: Entry)
    requires e in Under(entries, k)
    ensures e in entries && e.key == k
  {
    var n := |entries| - 1;
    if e in Under(entries[..n], k) {
      UnderHasKey(entries[..n], k, e);
    }
  }

  lemma {:induction false} IndexesWellFormed(table: Table, entries: seq<Entry>, keys: seq<string>)
    requires Indexes(table, entries) && LongestFirst(keys) && forall k :: k in keys <==> k in table
    ensures WellFormed(table, keys)
  {
    forall k, e | k in table && e in table[k] ensures e.key == k {
      UnderHasKey(entries, k, e);
    }
  }

  lemma {:induction false} OneBest(entries: seq<Entry>, i: int, j: int, query: string)
    requires BestContained(entries, i, query) && BestContained(entries, j, query)
    ensures i == j
  {
  }

  /** In an index built from `entries` the candidates are the entries of the exact key if there are
      any, else those of the best contained key. */
  lemma {:induction false} CandidatesMeaning(entries: seq<Entry>, table: Table, query: string)
    requires Indexes(table, entries)
    ensures var c := Candidates(table, SortByLength(KeysOf(entries)), query);
      && (Under(entries, query) != [] ==> c == Under(entries, query))
      && (Under(entries, query) == [] && query != "" ==>
            forall i :: BestContained(entries, i, query) ==> c == Under(entries, entries[i].key))
      && (Under(entries, query) == [] && (query == "" || forall i :: !BestContained(entries, i, query)) ==> c == [])
  {
    var r := FirstContained(SortByLength(KeysOf(entries)), query);
    SearchMeaning(entries, query);
    forall i | BestContained(entries, i, query) ensures r == Some(entries[i].key) && entries[i].key in table {
      var j :| BestContained(entries, j, query) && entries[j].key == r.value;
      OneBest(entries, i, j, query);
      UnderHasEntry(entries, entries[i].key, i);
    }
  }

  lemma {:induction false} UnderHasEntry(entries: seq<Entry>, k: string, i: nat)
    requires i < |entries| && entries[i].key == k
    ensures Under(entries, k) != []
    decreases |entries|
  {
    if i < |entries| - 1 {
      UnderHasEntry(entries[..|entries| - 1], k, i);
    }
  }

  lemma {:induction false} KeysAreIndexed(table: Table, entries: seq<Entry>)
    requires Indexes(table, entries)
    ensures forall k :: k in KeysOf(entries) <==> k in table
  {
    forall k ensures k in KeysOf(entries) <==> k in table {
      if k in KeysOf(entries) {
        var i :| 0 <= i < |entries| && entries[i].key == k;
        UnderHasEntry(entries, k, i);
      }
      if k in table {
        UnderHasKey(entries, k, Under(entries, k)[0]);
      }
    }
  }

  lemma {:induction false} IndexesNothing()
    ensures Indexes(map[], [])
  {
  }

  // ---------------------------------------------------------------- the memoising object

  class SourceIndex {
    var byKey: Table
    var keysByLength: seq<string>
    var cache: map<Query, Option<Entry>>

    /** The cache never disagrees with an uncached lookup. */
    ghost predicate Valid()
      reads this
    {
      && WellFormed(byKey, keysByLength)
      && forall q :: q in cache ==> cache[q] == Lookup(byKey, keysByLength, q)
    }

    constructor (entries: seq<Entry>)
      ensures Valid() && forall k :: k in byKey <==> Under(entries, k) != []
      ensures forall k :: k in byKey ==> byKey[k] == Under(entries, k)
      ensures keysByLength == SortByLength(KeysOf(entries))
    {
      var table, order := Build(entries);
      KeysAreIndexed(table, entries);
      SortKeepsMembers(order);
      SortIsLongestFirst(order);
      IndexesWellFormed(table, entries, SortByLength(order));
      byKey := table;
      keysByLength := SortByLength(order);
      cache := map[];
    }

    /** The entries under each key, and the keys as they first appear. */
    static method Build(entries: seq<Entry>) returns (table: Table, order: seq<string>)
      ensures Indexes(table, entries) && order == KeysOf(entries)
    {
      table, order := map[], [];
      IndexesNothing();
      ghost var seen: seq<Entry> := [];
      for i := 0 to |entries|
        invariant seen == entries[..i] && Indexes(table, seen) && order == KeysOf(seen)
      {
        table, order := Add(table, order, entries[i], seen);
        seen := seen + [entries[i]];
      }
      assert seen == entries;
    }

    static method Add(table0: Table, order0: seq<string>, entry: Entry, ghost before: seq<Entry>)
      returns (table: Table, order: seq<string>)
      requires Indexes(table0, before) && order0 == KeysOf(before)
      ensures Indexes(table, before + [entry]) && order == KeysOf(before + [entry])
    {
      IndexesMore(table0, before, entry);
      KeysAreIndexed(table0, before);
      KeysSnoc(before, entry);
      if entry.key in table0 {
        table, order := table0[entry.key := table0[entry.key] + [entry]], order0;
      } else {
        table, order := table0[entry.key := [entry]], order0 + [entry.key];
      }
    }

    method Match(q: Query) returns (result: Option<Entry>)
      requires Valid()
      modifies this`cache
      ensures Valid()
      ensures result == Lookup(byKey, keysByLength, q)
      ensures q in cache && forall p :: p in old(cache) ==> p in cache && cache[p] == old(cache[p])
    {
      if q in cache {
        return cache[q];
      }
      var candidates := FindCandidates(q.key);
      result := Choose(candidates, q.groundTruth, q.explicit);
      cache := cache[q := result];
    }

    /** The first candidate with the record's ground truth if there is any, else the first. */
    static method Choose(found: seq<Entry>, truth: string, explicit: string) returns (result: Option<Entry>)
      ensures result == Answer(Preferred(found, truth), explicit)
    {
      var candidates := found;
      if truth != "" && |candidates| > 1 {
        var sameTruth := WithTruth(candidates, truth);
        if sameTruth != [] {
          candidates := sameTruth;
        }
      }
      result := None;
      if candidates != [] {
        var item := candidates[0];
        var source := if explicit != "" then explicit else item.dataSource;
        if source != "" {
          result := Some(Entry(item.key, source, item.source, item.groundTruth, item.path));
        }
      }
    }

    /** The entries of the exact key, else of the first contained key in length order. */
    method FindCandidates(query: string) returns (candidates: seq<Entry>)
      requires WellFormed(byKey, keysByLength)
      ensures candidates == Candidates(byKey, keysByLength, query)
    {
      candidates := if query in byKey then byKey[query] else [];
      if candidates == [] && query != "" {
        var i := 0;
        while i < |keysByLength|
          invariant 0 <= i <= |keysByLength|
          invariant FirstContained(keysByLength, query) == FirstContained(keysByLength[i..], query)
        {
          var k := keysByLength[i];
          assert keysByLength[i..][1..] == keysByLength[i + 1..];
          if |k| >= MIN_CONTAINED && Contains(query, k) {
            return byKey[k];
          }
          i := i + 1;
        }
      }
    }

    /** For any sequence of lookups, repeated or not, each answer is the uncached one. */
    method MatchAll(qs: seq<Query>) returns (rs: seq<Option<Entry>>)
      requires Valid()
      modifies this`cache
      ensures Valid() && rs == Lookups(byKey, keysByLength, qs)
    {
      rs := [];
      for i := 0 to |qs|
        invariant Valid() && rs == Lookups(byKey, keysByLength, qs[..i])
      {
        assert qs[..i + 1] == qs[..i] + [qs[i]];
        var r := Match(qs[i]);
        rs := rs + [r];
      }
      assert qs[..|qs|] == qs;
    }
  }
}
