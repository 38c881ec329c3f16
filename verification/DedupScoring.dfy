/** Offline re-scoring of validation cases (plot_val_trends.py): each case is decomposed without
    the judge, every distinct summary pair is judged once in batches, and the rewards are put
    together afterwards. The result must be what the per-case report computes. */
module DedupScoring {
  import opened Prelude
  import opened Assignment
  import opened Reward

  type SummaryPairT = (string, string)

  datatype Metrics = Metrics(c: Option<real>, r2: Option<real>, r3: Option<real>, r4: Option<real>, reward: Option<real>)

  const NO_METRICS := Metrics(None, None, None, None, None)

  class Case {
    const route: Route
    const output: Reply
    const truth: Reply
    var metrics: Metrics
    var r4Pair: Option<SummaryPairT>

    constructor (s: string, o: Reply, t: Reply)
      ensures route == RouteOf(s) && output == o && truth == t && metrics == NO_METRICS && r4Pair == None
    {
      route, output, truth := RouteOf(s), o, t;
      metrics, r4Pair := NO_METRICS, None;
    }
  }

  // ---------------------------------------------------------------- decomposing one case

  datatype Parts = Parts(metrics: Metrics, pair: Option<SummaryPairT>)

  ghost function BoxParts(c: Option<real>, x: Pieces, o: Oracles): Parts {
    var m := Metrics(c, Some(EntryR2(x.pred, x.gt)), Some(EntryR3(x.pred, x.gt, o)), None, None);
    match SummaryPair(x.p, x.g)
    case None => Parts(m.(r4 := Some(0.0)), None)
    case Some(p) => Parts(m, Some(p))
  }

  ghost function PartsOf(route: Route, x: Pieces, o: Oracles): Result<Parts, Error> {
    match route
    case BboxRoute =>
      var c := AnswerGate(x.p, x.g);
      if x.gt == [] then
        Ok(Parts(Metrics(Some(c), None, None, None, Some(c * (if x.pred == [] then 1.0 else 0.2))), None))
      else Ok(BoxParts(Some(c), x, o))
    case DetectionRoute => Ok(BoxParts(None, x, o))
    case _ => Err(UnknownSource)
  }

  /** Everything but the judge's score. The objects are read first on every route, reply before
      ground truth; the entries only on the routes the report reads them on. */
  ghost function Decomposed(route: Route, sol: Reply, gt: Reply, o: Oracles): Result<Parts, Error> {
    match Both(sol.fields, gt.fields)
    case Err(e) => Err(e)
    case Ok((p, g)) =>
      match route
      case AnswerRoute =>
        (match JsonAnswerScore(sol, gt)
         case Err(e) => Err(e)
         case Ok(c) => Ok(Parts(Metrics(Some(c), None, None, None, Some(c)), None)))
      case HungarianRoute =>
        (match BoxesScore(sol, gt, o.solve)
         case Err(e) => Err(e)
         case Ok(r2) => Ok(Parts(Metrics(None, Some(r2), None, None, Some(r2)), None)))
      case _ =>
        match Both(gt.entries, sol.entries)
        case Err(e) => Err(e)
        case Ok((ge, pe)) => PartsOf(route, Pieces(p, g, pe, ge), o)
  }

  /** Filling in the judge's score and the total. */
  function Finished(route: Route, m: Metrics, pair: Option<SummaryPairT>, judge: SummaryPairT -> real): Metrics {
    var n := if m.r4.None? && pair.Some? then m.(r4 := Some(judge(pair.value))) else m;
    if n.r4.None? then n
    else if route.BboxRoute? && n.c.Some? && n.r2.Some? && n.r3.Some? then
      n.(reward := Some(ConsistencyFormula(n.c.value, n.r2.value, n.r3.value, n.r4.value)))
    else if route.DetectionRoute? && n.r2.Some? && n.r3.Some? then
      n.(reward := Some(DetectionFormula(n.r2.value, n.r3.value, n.r4.value)))
    else n
  }

  function OfDetails(d: Details): Metrics {
    Metrics(d.c, d.r2, d.r3, d.r4, Some(d.reward))
  }

  predicate ValidScore(x: real) {
    0.0 <= x <= 1.0
  }

  ghost predicate JudgeOf(o: Oracles, judge: SummaryPairT -> real) {
    forall p: SummaryPairT :: judge(p) == o.judge(p.0, p.1)
  }

  /** What one decomposition and one report have in common once both objects have been read. */
  ghost predicate SameReport(route: Route, r: Result<Parts, Error>, d: Result<Details, Error>,
        judge: SummaryPairT -> real) {
    match r
    case Err(e) => d == Err(e)
    case Ok(parts) =>
      && (d.Ok? <==> (parts.pair.Some? ==> ValidScore(judge(parts.pair.value))))
      && (d.Ok? ==> Finished(route, parts.metrics, parts.pair, judge) == OfDetails(d.value))
  }

  lemma {:induction false} JudgedPair(p: Option<Fields>, g: Option<Fields>, o: Oracles, judge: SummaryPairT -> real)
    requires JudgeOf(o, judge)
    ensures R4(p, g, o.judge)
         == match SummaryPair(p, g)
            case None => Ok(0.0)
            case Some(x) => if ValidScore(judge(x)) then Ok(judge(x)) else Err(InvalidScore)
  {
  }

  lemma {:induction false} BboxPiecesMatch(x: Pieces, o: Oracles, judge: SummaryPairT -> real)
    requires JudgeOf(o, judge)
    ensures SameReport(BboxRoute, PartsOf(BboxRoute, x, o), DetailsOf(BboxRoute, x, o), judge)
  {
    JudgedPair(x.p, x.g, o, judge);
  }

  lemma {:induction false} DetectionPiecesMatch(x: Pieces, o: Oracles, judge: SummaryPairT -> real)
    requires JudgeOf(o, judge)
    ensures SameReport(DetectionRoute, PartsOf(DetectionRoute, x, o), DetailsOf(DetectionRoute, x, o), judge)
  {
    JudgedPair(x.p, x.g, o, judge);
  }

  lemma {:induction false} PiecesMatch(route: Route, x: Pieces, o: Oracles, judge: SummaryPairT -> real)
    requires JudgeOf(o, judge) && !route.AnswerRoute? && !route.HungarianRoute?
    ensures SameReport(route, PartsOf(route, x, o), DetailsOf(route, x, o), judge)
  {
    match route
    case BboxRoute => BboxPiecesMatch(x, o, judge);
    case DetectionRoute => DetectionPiecesMatch(x, o, judge);
    case _ =>
  }

  predicate ObjectsRead(sol: Reply, gt: Reply) {
    sol.fields.Read? && gt.fields.Read?
  }

  /** When both objects can be read, decomposing and finishing a case gives exactly the report's
      details, and the report fails exactly when decomposing fails, with the same error, or the
      judge's score of the case's own pair is invalid. When one cannot, decomposing always fails,
      and the report exactly when it fails without these objects or the route is a spatial one. */
  lemma {:induction false} DecomposedMatchesDetails(route: Route, sol: Reply, gt: Reply, o: Oracles,
      judge: SummaryPairT -> real)
    requires JudgeOf(o, judge)
    ensures ObjectsRead(sol, gt) ==> SameReport(route, Decomposed(route, sol, gt, o), DetailsOn(route, sol, gt, o), judge)
    ensures !ObjectsRead(sol, gt) ==> Decomposed(route, sol, gt, o).Err?
    ensures !ObjectsRead(sol, gt) ==>
      (DetailsOn(route, sol, gt, o).Ok? <==> (route.AnswerRoute? && JsonAnswerScore(sol, gt).Ok?)
                                             || (route.HungarianRoute? && BoxesScore(sol, gt, o.solve).Ok?))
  {
    if ObjectsRead(sol, gt) && sol.entries.Read? && gt.entries.Read? && !route.AnswerRoute? && !route.HungarianRoute? {
      PiecesMatch(route, Pieces(sol.fields.value, gt.fields.value, sol.entries.value, gt.entries.value), o, judge);
    }
  }

  const NESTED_REPLY := Reply(Raises("RecursionError"), Raises("RecursionError"), Raises("RecursionError"), Read(None), None)
  const TRUTH_B := Reply(Read(Some(Fields(Some("b"), None))), Read([]), Read([]), Read(Some("b")), None)

  /** A reply nested too deeply for the JSON reader, on an answer route: the report gives it 0 from
      the answer alone, the decomposition raises. */
  lemma {:induction false} DecomposingCanRaise(o: Oracles)
    ensures DetailsOn(AnswerRoute, NESTED_REPLY, TRUTH_B, o) == Ok(Details(Some(0.0), None, None, None, 0.0))
    ensures Decomposed(AnswerRoute, NESTED_REPLY, TRUTH_B, o) == Err(Raised("RecursionError"))
  {
  }

  /** The assignment solver keeps its promise on every pair of box lists. */
  ghost predicate GoodSolver(o: Oracles) {
    forall gt, pred :: Solves(o, gt, pred)
  }

  method DecomposeCase(c: Case, o: Oracles) returns (r: Result<(), Error>)
    requires GoodSolver(o) && c.metrics == NO_METRICS && c.r4Pair == None
    modifies c
    ensures r.Ok? ==> DecomposedAs(c, o)
    ensures r.Err? ==> DecomposeFails(c, o, r.error)
  {
    var objects := Both(c.output.fields, c.truth.fields);
    if objects.Err? {
      return Err(objects.error);
    }
    if c.route.AnswerRoute? {
      var score := JsonAnswerScore(c.output, c.truth);
      if score.Err? {
        return Err(score.error);
      }
      c.metrics := c.metrics.(c := Some(score.value), reward := Some(score.value));
      return Ok(());
    }
    if c.route.HungarianRoute? {
      var r2 := BoxesScore(c.output, c.truth, o.solve);
      if r2.Err? {
        return Err(r2.error);
      }
      c.metrics := c.metrics.(r2 := Some(r2.value), reward := Some(r2.value));
      return Ok(());
    }
    var lists := Both(c.truth.entries, c.output.entries);
    if lists.Err? {
      return Err(lists.error);
    }
    var (pred, gt) := objects.value;
    var (gtEntries, predEntries) := lists.value;
    if c.route.BboxRoute? {
      var gate := AnswerGate(pred, gt);
      c.metrics := c.metrics.(c := Some(gate));
      if |gtEntries| == 0 {
        c.metrics := c.metrics.(reward := Some(gate * (if |predEntries| == 0 then 1.0 else 0.2)));
        return Ok(());
      }
    } else if !c.route.DetectionRoute? {
      return Err(UnknownSource);
    }
    assert Solves(o, BoxesOf(gtEntries), BoxesOf(predEntries));
    var r2, r3 := ComputeParts(predEntries, gtEntries, o);
    c.metrics := c.metrics.(r2 := Some(r2), r3 := Some(r3));
    match SummaryPair(pred, gt) {
      case None => c.metrics := c.metrics.(r4 := Some(0.0));
      case Some(p) => c.r4Pair := Some(p);
    }
    return Ok(());
  }

  // ---------------------------------------------------------------- judging each distinct pair once

  /** The distinct pairs of the cases, in order of first appearance. */
  method UniquePairs(cases: seq<Case>) returns (unique: seq<SummaryPairT>)
    ensures forall i, j :: 0 <= i < j < |unique| ==> unique[i] != unique[j]
    ensures forall p :: p in unique <==> exists i :: 0 <= i < |cases| && cases[i].r4Pair == Some(p)
  {
    var seen: set<SummaryPairT> := {};
    unique := [];
    for i := 0 to |cases|
      invariant forall p :: p in seen <==> p in unique
      invariant forall x, y :: 0 <= x < y < |unique| ==> unique[x] != unique[y]
      invariant forall p :: p in unique <==> exists k :: 0 <= k < i && cases[k].r4Pair == Some(p)
    {
      if cases[i].r4Pair.Some? && cases[i].r4Pair.value !in seen {
        seen := seen + {cases[i].r4Pair.value};
        unique := unique + [cases[i].r4Pair.value];
      }
    }
  }

  /** Every distinct pair gets the judge's own score, whatever the batch size; an invalid score
      of any of them is an error. */
  method JudgePairs(unique: seq<SummaryPairT>, judge: SummaryPairT -> real, batchSize: nat)
    returns (r: Result<map<SummaryPairT, real>, Error>)
    requires batchSize > 0
    ensures r.Ok? <==> forall i :: 0 <= i < |unique| ==> ValidScore(judge(unique[i]))
    ensures r.Ok? ==> forall p :: p in unique ==> p in r.value && r.value[p] == judge(p)
    ensures r.Err? ==> r.error == InvalidScore
  {
    var scores: map<SummaryPairT, real> := map[];
    var start := 0;
    while start < |unique|
      invariant 0 <= start <= |unique|
      invariant forall i :: 0 <= i < start ==> ValidScore(judge(unique[i]))
      invariant forall i :: 0 <= i < start ==> unique[i] in scores
      invariant forall p :: p in scores ==> scores[p] == judge(p)
      decreases |unique| - start
    {
      var end := Min(start + batchSize, |unique|);
      var batch := unique[start..end];
      var judged := seq(|batch|, i requires 0 <= i < |batch| => judge(batch[i]));
      for i := 0 to |batch|
        invariant forall k :: 0 <= k < start + i ==> ValidScore(judge(unique[k]))
        invariant forall k :: 0 <= k < start + i ==> unique[k] in scores
        invariant forall p :: p in scores ==> scores[p] == judge(p)
      {
        if !ValidScore(judged[i]) {
          assert !ValidScore(judge(unique[start + i]));
          return Err(InvalidScore);
        }
        scores := scores[batch[i] := judged[i]];
      }
      start := end;
    }
    return Ok(scores);
  }

  ghost predicate Separate(cases: seq<Case>) {
    forall i, j :: 0 <= i < j < |cases| ==> cases[i] != cases[j]
  }

  /** Deduplicated batched scoring leaves each case with what judging its own pair would give. */
  method ScoreR4Locally(cases: seq<Case>, judge: SummaryPairT -> real, batchSize: nat) returns (r: Result<(), Error>)
    requires batchSize > 0 && Separate(cases)
    modifies cases
    ensures r.Ok? <==> forall i :: 0 <= i < |cases| && old(cases[i].r4Pair).Some? ==> ValidScore(judge(old(cases[i].r4Pair).value))
    ensures r.Ok? ==> forall i :: 0 <= i < |cases| ==>
      cases[i].metrics == Finished(cases[i].route, old(cases[i].metrics), old(cases[i].r4Pair), judge)
    ensures forall i :: 0 <= i < |cases| ==> cases[i].r4Pair == old(cases[i].r4Pair)
    ensures r.Err? ==> r.error == InvalidScore && forall i :: 0 <= i < |cases| ==> cases[i].metrics == old(cases[i].metrics)
  {
    var unique := UniquePairs(cases);
    var judged := JudgePairs(unique, judge, batchSize);
    if judged.Err? {
      var k :| 0 <= k < |unique| && !ValidScore(judge(unique[k]));
      assert unique[k] in unique;
      return Err(judged.error);
    }
    var scores := judged.value;
    forall i | 0 <= i < |cases| && cases[i].r4Pair.Some?
      ensures cases[i].r4Pair.value in scores && scores[cases[i].r4Pair.value] == judge(cases[i].r4Pair.value)
      ensures ValidScore(judge(cases[i].r4Pair.value))
    {
      assert cases[i].r4Pair.value in unique;
      var k :| 0 <= k < |unique| && unique[k] == cases[i].r4Pair.value;
    }
    for i := 0 to |cases|
      invariant forall k :: 0 <= k < |cases| ==> cases[k].r4Pair == old(cases[k].r4Pair)
      invariant forall k :: 0 <= k < i ==>
        cases[k].metrics == Finished(cases[k].route, old(cases[k].metrics), old(cases[k].r4Pair), judge)
      invariant forall k :: i <= k < |cases| ==> cases[k].metrics == old(cases[k].metrics)
    {
      var c := cases[i];
      var before := c.metrics;
      FinishCase(c, scores, judge);
      assert c.metrics == Finished(c.route, before, c.r4Pair, judge);
    }
    return Ok(());
  }

  method FinishCase(c: Case, scores: map<SummaryPairT, real>, ghost judge: SummaryPairT -> real)
    requires c.r4Pair.Some? ==> c.r4Pair.value in scores && scores[c.r4Pair.value] == judge(c.r4Pair.value)
    modifies c`metrics
    ensures c.metrics == Finished(c.route, old(c.metrics), c.r4Pair, judge)
  {
    if c.metrics.r4.None? && c.r4Pair.Some? {
      c.metrics := c.metrics.(r4 := Some(scores[c.r4Pair.value]));
    }
    var m := c.metrics;
    if m.r4.None? {
      return;
    }
    if c.route.BboxRoute? && m.c.Some? && m.r2.Some? && m.r3.Some? {
      c.metrics := m.(reward := Some(ConsistencyFormula(m.c.value, m.r2.value, m.r3.value, m.r4.value)));
    } else if c.route.DetectionRoute? && m.r2.Some? && m.r3.Some? {
      c.metrics := m.(reward := Some(DetectionFormula(m.r2.value, m.r3.value, m.r4.value)));
    }
  }

  ghost predicate Untouched(c: Case)
    reads c
  {
    c.metrics == NO_METRICS && c.r4Pair == None
  }

  ghost function ReportOf(c: Case, o: Oracles): Result<Details, Error> {
    DetailsOn(c.route, c.output, c.truth, o)
  }

  ghost predicate DecomposedAs(c: Case, o: Oracles)
    reads c
  {
    Decomposed(c.route, c.output, c.truth, o) == Ok(Parts(c.metrics, c.r4Pair))
  }

  /** What the decomposition left in a case is enough to finish its report. */
  ghost predicate OnlyJudgeMissing(c: Case, o: Oracles, judge: SummaryPairT -> real)
    reads c
  {
    var d := ReportOf(c, o);
    && (d.Ok? <==> (c.r4Pair.Some? ==> ValidScore(judge(c.r4Pair.value))))
    && (d.Ok? ==> Finished(c.route, c.metrics, c.r4Pair, judge) == OfDetails(d.value))
  }

  lemma {:induction false} DecomposedIsEnough(c: Case, o: Oracles, judge: SummaryPairT -> real)
    requires JudgeOf(o, judge) && DecomposedAs(c, o)
    ensures OnlyJudgeMissing(c, o, judge) && ObjectsRead(c.output, c.truth)
  {
    DecomposedMatchesDetails(c.route, c.output, c.truth, o, judge);
  }

  lemma {:induction false} DecomposeErrs(c: Case, o: Oracles, judge: SummaryPairT -> real, e: Error)
    requires JudgeOf(o, judge) && DecomposeFails(c, o, e)
    ensures ReportOf(c, o) == Err(e) || !ObjectsRead(c.output, c.truth)
  {
    DecomposedMatchesDetails(c.route, c.output, c.truth, o, judge);
  }

  lemma {:induction false} AllDecomposed(cases: seq<Case>, o: Oracles, judge: SummaryPairT -> real)
    requires JudgeOf(o, judge) && forall i :: 0 <= i < |cases| ==> DecomposedAs(cases[i], o)
    ensures forall i :: 0 <= i < |cases| ==>
      OnlyJudgeMissing(cases[i], o, judge) && ObjectsRead(cases[i].output, cases[i].truth)
  {
    forall i | 0 <= i < |cases|
      ensures OnlyJudgeMissing(cases[i], o, judge) && ObjectsRead(cases[i].output, cases[i].truth)
    {
      DecomposedIsEnough(cases[i], o, judge);
    }
  }

  ghost predicate DecomposeFails(c: Case, o: Oracles, e: Error) {
    Decomposed(c.route, c.output, c.truth, o) == Err(e)
  }

  method DecomposeAll(cases: seq<Case>, o: Oracles) returns (r: Result<(), Error>, ghost failed: nat)
    requires Separate(cases) && GoodSolver(o)
    requires forall i :: 0 <= i < |cases| ==> Untouched(cases[i])
    modifies cases
    ensures r.Ok? ==> forall i :: 0 <= i < |cases| ==> DecomposedAs(cases[i], o)
    ensures r.Err? ==> failed < |cases| && DecomposeFails(cases[failed], o, r.error)
  {
    failed := 0;
    for i := 0 to |cases|
      invariant forall k :: 0 <= k < i ==> DecomposedAs(cases[k], o)
      invariant forall k :: i <= k < |cases| ==> Untouched(cases[k])
    {
      r := DecomposeCase(cases[i], o);
      if r.Err? {
        return r, i;
      }
    }
    return Ok(()), 0;
  }

  /** The whole fast path: for any cases and any batch size it succeeds exactly when every case's
      own report would and every case's objects can be read, and then every case carries exactly
      its report's sub-scores and total. */
  method RescoreAll(cases: seq<Case>, o: Oracles, judge: SummaryPairT -> real, batchSize: nat) returns (r: Result<(),
        Error>)
    requires batchSize > 0 && Separate(cases) && JudgeOf(o, judge) && GoodSolver(o)
    requires forall i :: 0 <= i < |cases| ==> Untouched(cases[i])
    modifies cases
    ensures r.Ok? <==> forall i :: 0 <= i < |cases| ==>
      ReportOf(cases[i], o).Ok? && ObjectsRead(cases[i].output, cases[i].truth)
    ensures r.Ok? ==> forall i :: 0 <= i < |cases| ==> cases[i].metrics == OfDetails(ReportOf(cases[i], o).value)
  {
    ghost var failed;
    r, failed := DecomposeAll(cases, o);
    if r.Err? {
      DecomposeErrs(cases[failed], o, judge, r.error);
      return;
    }
    AllDecomposed(cases, o, judge);
    r := ScoreR4Locally(cases, judge, batchSize);
  }
}
