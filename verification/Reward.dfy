/** The composite rewards of json_answer_reward.py: label score R3, summary score R4,
    classes three and four, routing by data source, and the training gate.

    What the parsers and regular expressions read out of a reply is given as a `Reply`; a parser
    may raise, for example on a coordinate too large for a float or on JSON nested too deeply.
    The square root, scipy's solver, the summary judge and the option judge are `Oracles`. */
module Reward {
  import opened Prelude
  import opened Boxes
  import opened Assignment
  import SummaryScoring

  datatype Keyword = AddKw | DeleteKw | RotateKw | ReplaceKw | MoveKw | BackgroundKw

  /** Action keywords of a label and its bracketed vectors of two or three numbers. */
  datatype Label = Label(keywords: set<Keyword>, vectors: seq<seq<real>>)

  datatype Entry = Entry(box: Box, tag: Label)

  /** Of the parsed JSON object: the normalised answer, and the summary when it is a string. */
  datatype Fields = Fields(answer: Option<string>, summary: Option<string>)

  datatype Parse<+A> = Read(value: A) | Raises(what: string)

  /** One text as the various parsers see it; they need not agree with each other. */
  datatype Reply = Reply(
    fields: Parse<Option<Fields>>,      // _parse_json_obj
    entries: Parse<seq<Entry>>,         // _parse_bbox_entries
    boxes: Parse<seq<Box>>,             // _parse_boxes_from_json
    jsonAnswer: Parse<Option<string>>,  // _extract_json_answer, or _parse_gt_answer for ground truth
    lastSentence: Option<string>)       // last sentence of the thinking, if there is one

  datatype Error = UnknownSource | InvalidScore | NoOptions | InvalidSupport | Raised(what: string)

  /** Two parsers called one after the other. */
  function Both<A>(first: Parse<A>, second: Parse<A>): Result<(A, A), Error> {
    match first
    case Raises(what) => Err(Raised(what))
    case Read(x) =>
      match second
      case Raises(what) => Err(Raised(what))
      case Read(y) => Ok((x, y))
  }

  datatype Support = Support(option: string, unclear: real)

  datatype Oracles = Oracles(
    sqrt: real -> real,
    solve: Solver,
    judge: (string, string) -> real,
    support: (string, string, string) -> Support)

  function BoxesOf(es: seq<Entry>): (r: seq<Box>)
    ensures |r| == |es|
  {
    seq(|es|, i requires 0 <= i < |es| => es[i].box)
  }

  // ---------------------------------------------------------------- R3

  function Dot(a: seq<real>, b: seq<real>): real
    requires |a| == |b|
  {
    if a == [] then 0.0 else a[0] * b[0] + Dot(a[1..], b[1..])
  }

  /** The label's first vector as a direction: a point is taken relative to the box centre,
      with the vertical axis turned upward. */
  function Direction(e: Entry): (r: Option<seq<real>>) {
    if e.tag.vectors == [] then None
    else
      var v := e.tag.vectors[0];
      if |v| == 2 then
        Some([v[0] - (e.box.x1 + e.box.x2) / 2.0, (e.box.y1 + e.box.y2) / 2.0 - v[1]])
      else if |v| == 3 then Some(v)
      else None
  }

  function Cosine(g: seq<real>, p: seq<real>, sqrt: real -> real): (r: real)
    requires |g| == |p|
    ensures 0.0 <= r <= 1.0
  {
    var norm := sqrt(Dot(g, g)) * sqrt(Dot(p, p));
    if norm >= 0.000000000001 then MaxR(0.0, MinR(1.0, Dot(g, p) / norm)) else 0.0
  }

  /** How well the predicted move direction follows the wanted one. */
  function DirectionCoefficient(gt: Entry, pred: Entry, sqrt: real -> real): (r: real)
    ensures 0.0 <= r <= 1.0
  {
    match Direction(gt)
    case None => 1.0
    case Some(g) =>
      match Direction(pred)
      case None => 0.0
      case Some(p) =>
        if |g| == |p| then Cosine(g, p, sqrt)
        else if |g| >= 2 && |p| >= 2 then MaxR(0.0, Cosine(g[..2], p[..2], sqrt) - 0.1)
        else 0.0
  }

  function LabelScore(gt: Entry, pred: Entry, sqrt: real -> real): real {
    var want, got := gt.tag.keywords, pred.tag.keywords;
    if want == {} || !(got <= want) then 0.0
    else
      var turn := if MoveKw in want && MoveKw in got then DirectionCoefficient(gt, pred, sqrt) - 1.0 else 0.0;
      (|got| as real + turn) / |want| as real
  }

  /** A move needs exactly one vector; anything else must have none. */
  predicate BadFormat(l: Label) {
    if MoveKw in l.keywords then |l.vectors| != 1 else |l.vectors| > 0
  }

  ghost predicate AnyBadFormat(es: seq<Entry>) {
    exists i :: 0 <= i < |es| && BadFormat(es[i].tag)
  }

  predicate MatchesFit(ms: seq<Match>, gt: seq<Entry>, pred: seq<Entry>) {
    forall i :: 0 <= i < |ms| ==> ms[i].gt < |gt| && ms[i].pred < |pred|
  }

  function PairScore(m: Match, gt: seq<Entry>, pred: seq<Entry>, sqrt: real -> real): real
    requires m.gt < |gt| && m.pred < |pred|
  {
    LabelScore(gt[m.gt], pred[m.pred], sqrt) * m.iou
  }

  function PairScores(ms: seq<Match>, gt: seq<Entry>, pred: seq<Entry>, sqrt: real -> real): seq<real>
    requires MatchesFit(ms, gt, pred)
  {
    seq(|ms|, i requires 0 <= i < |ms| => PairScore(ms[i], gt, pred, sqrt))
  }

  ghost function R3(gt: seq<Entry>, pred: seq<Entry>, ms: seq<Match>, sqrt: real -> real): real
    requires MatchesFit(ms, gt, pred)
  {
    if AnyBadFormat(pred) then -1.0
    else if ms == [] then 0.0
    else SumR(PairScores(ms, gt, pred, sqrt)) / |ms| as real
  }

  method ScoreR3(gt: seq<Entry>, pred: seq<Entry>, ms: seq<Match>, sqrt: real -> real) returns (r: real)
    requires MatchesFit(ms, gt, pred)
    ensures r == R3(gt, pred, ms, sqrt)
  {
    for i := 0 to |pred|
      invariant forall j :: 0 <= j < i ==> !BadFormat(pred[j].tag)
    {
      var hasMove := MoveKw in pred[i].tag.keywords;
      var count := |pred[i].tag.vectors|;
      if hasMove && count == 0 {
        return -1.0;
      }
      if !hasMove && count > 0 {
        return -1.0;
      }
      if hasMove && count > 1 {
        return -1.0;
      }
    }
    if ms == [] {
      return 0.0;
    }
    var scores: seq<real> := [];
    for i := 0 to |ms|
      invariant |scores| == i
      invariant forall j :: 0 <= j < i ==> scores[j] == PairScore(ms[j], gt, pred, sqrt)
    {
      scores := scores + [LabelScore(gt[ms[i].gt], pred[ms[i].pred], sqrt) * ms[i].iou];
    }
    assert scores == PairScores(ms, gt, pred, sqrt);
    return SumR(scores) / |scores| as real;
  }

  // ---------------------------------------------------------------- R4

  predicate IsBlank(s: string) {
    forall i :: 0 <= i < |s| ==> s[i] in " \t\n\r"
  }

  /** The pair of summaries the judge is asked about, if it is asked at all. */
  function SummaryPair(pred: Option<Fields>, gt: Option<Fields>): Option<(string, string)> {
    if pred.Some? && gt.Some? && pred.value.summary.Some? && gt.value.summary.Some?
       && !IsBlank(pred.value.summary.value) && !IsBlank(gt.value.summary.value)
    then Some((pred.value.summary.value, gt.value.summary.value))
    else None
  }

  function R4(pred: Option<Fields>, gt: Option<Fields>, judge: (string, string) -> real): (r: Result<real, Error>)
    ensures r.Ok? ==> 0.0 <= r.value <= 1.0
  {
    match SummaryPair(pred, gt)
    case None => Ok(0.0)
    case Some((p, g)) =>
      var score := judge(p, g);
      if 0.0 <= score <= 1.0 then Ok(score) else Err(InvalidScore)
  }

  // ---------------------------------------------------------------- the reward classes

  predicate SameAnswer(a: Option<string>, b: Option<string>) {
    a.Some? && b.Some? && a == b
  }

  function AnswerOf(f: Option<Fields>): Option<string> {
    if f.Some? then f.value.answer else None
  }

  /** Class one: the ground truth is read first, and the reply only if it has an answer. */
  function JsonAnswerScore(sol: Reply, gt: Reply): Result<real, Error> {
    match gt.jsonAnswer
    case Raises(what) => Err(Raised(what))
    case Read(None) => Ok(0.0)
    case Read(want) =>
      match sol.jsonAnswer
      case Raises(what) => Err(Raised(what))
      case Read(got) => Ok(if SameAnswer(got, want) then 1.0 else 0.0)
  }

  function AnswerGate(pred: Option<Fields>, gt: Option<Fields>): real {
    if SameAnswer(AnswerOf(pred), AnswerOf(gt)) then 1.0 else 0.0
  }

  /** Class two on the boxes of two texts, ground truth first. */
  function BoxesScore(sol: Reply, gt: Reply, solve: Solver): Result<real, Error> {
    match Both(gt.boxes, sol.boxes)
    case Err(e) => Err(e)
    case Ok((g, p)) => Ok(HungarianScore(g, p, solve))
  }

  function EntryMatch(gt: seq<Entry>, pred: seq<Entry>, solve: Solver): seq<Match> {
    HungarianMatch(BoxesOf(gt), BoxesOf(pred), solve)
  }

  /** The solver does what scipy promises on these boxes. */
  ghost predicate Solves(o: Oracles, gt: seq<Box>, pred: seq<Box>) {
    Best(gt, pred, o.solve(IouMatrix(gt, pred)))
  }

  lemma {:induction false} EntryMatchFits(gt: seq<Entry>, pred: seq<Entry>, o: Oracles)
    requires Solves(o, BoxesOf(gt), BoxesOf(pred))
    ensures MatchesFit(EntryMatch(gt, pred, o.solve), gt, pred)
    ensures forall i :: 0 <= i < |EntryMatch(gt, pred, o.solve)| ==>
              0.0 <= EntryMatch(gt, pred, o.solve)[i].iou <= 1.0
  {
    IouMatrixUnit(BoxesOf(gt), BoxesOf(pred));
  }

  ghost function EntryR3(pred: seq<Entry>, gt: seq<Entry>, o: Oracles): real {
    var ms := EntryMatch(gt, pred, o.solve);
    if MatchesFit(ms, gt, pred) then R3(gt, pred, ms, o.sqrt) else 0.0
  }

  ghost function EntryR2(pred: seq<Entry>, gt: seq<Entry>): real {
    R2(BoxesOf(gt), BoxesOf(pred))
  }

  function ConsistencyFormula(c: real, r2: real, r3: real, r4: real): real {
    c * (0.1 + 0.25 * r2 + 0.25 * r3 + 0.4 * r4)
  }

  function DetectionFormula(r2: real, r3: real, r4: real): real {
    0.25 * r2 + 0.25 * r3 + 0.5 * r4
  }

  /** What both spatial classes read out of the two texts. */
  datatype Pieces = Pieces(p: Option<Fields>, g: Option<Fields>, pred: seq<Entry>, gt: seq<Entry>)

  /** The objects first, then the entry lists, ground truth before reply each time. */
  function ReadPieces(sol: Reply, gt: Reply): Result<Pieces, Error> {
    match Both(gt.fields, sol.fields)
    case Err(e) => Err(e)
    case Ok((g, p)) =>
      match Both(gt.entries, sol.entries)
      case Err(e) => Err(e)
      case Ok((ge, pe)) => Ok(Pieces(p, g, pe, ge))
  }

  /** Class three behind an open gate. */
  ghost function OpenGateScore(x: Pieces, o: Oracles): Result<real, Error> {
    if x.gt == [] then Ok(if x.pred == [] then 1.0 else 0.2)
    else
      match R4(x.p, x.g, o.judge)
      case Err(e) => Err(e)
      case Ok(r4) => Ok(ConsistencyFormula(AnswerGate(x.p, x.g), EntryR2(x.pred, x.gt), EntryR3(x.pred, x.gt, o), r4))
  }

  /** Class three. The entries are read only behind the answer gate, and R4 is asked only for a
      non-empty ground truth. */
  ghost function ConsistencyScore(sol: Reply, gt: Reply, o: Oracles): Result<real, Error> {
    match Both(gt.fields, sol.fields)
    case Err(e) => Err(e)
    case Ok((g, p)) =>
      if AnswerGate(p, g) == 0.0 then Ok(0.0)
      else
        match ReadPieces(sol, gt)
        case Err(e) => Err(e)
        case Ok(x) => OpenGateScore(x, o)
  }

  /** Class four: no gate, no special case. */
  ghost function DetectionOf(x: Pieces, o: Oracles): Result<real, Error> {
    match R4(x.p, x.g, o.judge)
    case Err(e) => Err(e)
    case Ok(r4) => Ok(DetectionFormula(EntryR2(x.pred, x.gt), EntryR3(x.pred, x.gt, o), r4))
  }

  ghost function DetectionScore(sol: Reply, gt: Reply, o: Oracles): Result<real, Error> {
    match ReadPieces(sol, gt)
    case Err(e) => Err(e)
    case Ok(x) => DetectionOf(x, o)
  }

  method ComputeParts(pred: seq<Entry>, gt: seq<Entry>, o: Oracles) returns (r2: real, r3: real)
    requires Solves(o, BoxesOf(gt), BoxesOf(pred))
    ensures r2 == EntryR2(pred, gt) && r3 == EntryR3(pred, gt, o)
  {
    EntryMatchFits(gt, pred, o);
    r2 := ScoreR2(BoxesOf(gt), BoxesOf(pred));
    var ms := ComputeHungarianMatch(BoxesOf(gt), BoxesOf(pred), o.solve);
    r3 := ScoreR3(gt, pred, ms, o.sqrt);
  }

  /** The solver keeps its promise on the entries of two texts, when both can be read. */
  ghost predicate SolvesReplies(o: Oracles, gt: Reply, sol: Reply) {
    gt.entries.Read? && sol.entries.Read? ==> Solves(o, BoxesOf(gt.entries.value), BoxesOf(sol.entries.value))
  }

  method ScoreSpatialConsistencyBbox(sol: Reply, gt: Reply, o: Oracles) returns (r: Result<real, Error>)
    requires SolvesReplies(o, gt, sol)
    ensures r == ConsistencyScore(sol, gt, o)
  {
    var objects := Both(gt.fields, sol.fields);
    if objects.Err? {
      return Err(objects.error);
    }
    var c := AnswerGate(objects.value.1, objects.value.0);
    if c == 0.0 {
      return Ok(0.0);
    }
    var lists := Both(gt.entries, sol.entries);
    if lists.Err? {
      return Err(lists.error);
    }
    var (gtEntries, predEntries) := lists.value;
    if |gtEntries| == 0 {
      return Ok(if |predEntries| == 0 then 1.0 else 0.2);
    }
    var r2, r3 := ComputeParts(predEntries, gtEntries, o);
    match R4(objects.value.1, objects.value.0, o.judge) {
      case Err(e) => return Err(e);
      case Ok(r4) => return Ok(ConsistencyFormula(c, r2, r3, r4));
    }
  }

  method ScoreSpatialDetection(sol: Reply, gt: Reply, o: Oracles) returns (r: Result<real, Error>)
    requires SolvesReplies(o, gt, sol)
    ensures r == DetectionScore(sol, gt, o)
  {
    var pieces := ReadPieces(sol, gt);
    if pieces.Err? {
      return Err(pieces.error);
    }
    var x := pieces.value;
    var r2, r3 := ComputeParts(x.pred, x.gt, o);
    match R4(x.p, x.g, o.judge) {
      case Err(e) => return Err(e);
      case Ok(r4) => return Ok(DetectionFormula(r2, r3, r4));
    }
  }

  // ---------------------------------------------------------------- ranges

  lemma {:induction false} LabelScoreRange(gt: Entry, pred: Entry, sqrt: real -> real)
    ensures 0.0 <= LabelScore(gt, pred, sqrt) <= 1.0
  {
    var want, got := gt.tag.keywords, pred.tag.keywords;
    if want != {} && got <= want {
      SubsetCard(got, want);
      var turn := if MoveKw in want && MoveKw in got then DirectionCoefficient(gt, pred, sqrt) - 1.0 else 0.0;
      if MoveKw in got {
        SubsetCard({MoveKw}, got);
      }
      DivBounds(|got| as real + turn, |want| as real);
    }
  }

  lemma {:induction false} SumBounds(xs: seq<real>)
    requires forall i :: 0 <= i < |xs| ==> 0.0 <= xs[i] <= 1.0
    ensures 0.0 <= SumR(xs) <= |xs| as real
    ensures SumR(xs) == |xs| as real <==> forall i :: 0 <= i < |xs| ==> xs[i] == 1.0
  {
    if xs != [] {
      SumBounds(xs[1..]);
      if forall i :: 0 <= i < |xs[1..]| ==> xs[1..][i] == 1.0 {
        forall i | 1 <= i < |xs| ensures xs[i] == 1.0 {
          assert xs[1..][i - 1] == xs[i];
        }
      }
    }
  }

  /** R3 is -1 on a badly formatted prediction; otherwise it is an average of values in [0,1]. */
  lemma {:induction false} R3Range(gt: seq<Entry>, pred: seq<Entry>, ms: seq<Match>, sqrt: real -> real)
    requires MatchesFit(ms, gt, pred) && forall i :: 0 <= i < |ms| ==> 0.0 <= ms[i].iou <= 1.0
    ensures AnyBadFormat(pred) ==> R3(gt, pred, ms, sqrt) == -1.0
    ensures !AnyBadFormat(pred) ==> 0.0 <= R3(gt, pred, ms, sqrt) <= 1.0
    ensures R3(gt, pred, ms, sqrt) == 1.0 <==>
      !AnyBadFormat(pred) && ms != [] && forall i :: 0 <= i < |ms| ==> PairScore(ms[i], gt, pred, sqrt) == 1.0
  {
    var ps := PairScores(ms, gt, pred, sqrt);
    forall i | 0 <= i < |ms| ensures 0.0 <= ps[i] <= 1.0 {
      LabelScoreRange(gt[ms[i].gt], pred[ms[i].pred], sqrt);
      MulMonoR(LabelScore(gt[ms[i].gt], pred[ms[i].pred], sqrt), ms[i].iou, 1.0, 1.0);
    }
    SumBounds(ps);
    if ms != [] {
      DivBounds(SumR(ps), |ms| as real);
    }
    assert (forall i :: 0 <= i < |ms| ==> PairScore(ms[i], gt, pred, sqrt) == 1.0)
      <==> (forall i :: 0 <= i < |ps| ==> ps[i] == 1.0) by {
      assert forall i :: 0 <= i < |ms| ==> ps[i] == PairScore(ms[i], gt, pred, sqrt);
    }
  }

  lemma {:induction false} EntryR3Range(pred: seq<Entry>, gt: seq<Entry>, o: Oracles)
    requires Solves(o, BoxesOf(gt), BoxesOf(pred))
    ensures EntryR3(pred, gt, o) == -1.0 || 0.0 <= EntryR3(pred, gt, o) <= 1.0
  {
    EntryMatchFits(gt, pred, o);
    R3Range(gt, pred, EntryMatch(gt, pred, o.solve), o.sqrt);
  }

  lemma {:induction false} ConsistencyFormulaRange(r2: real, r3: real, r4: real)
    requires 0.0 <= r2 <= 1.0 && (r3 == -1.0 || 0.0 <= r3 <= 1.0) && 0.0 <= r4 <= 1.0
    ensures -0.15 <= ConsistencyFormula(1.0, r2, r3, r4) <= 1.0
    ensures ConsistencyFormula(1.0, r2, r3, r4) == 1.0 <==> r2 == 1.0 && r3 == 1.0 && r4 == 1.0
  {
  }

  lemma {:induction false} DetectionFormulaRange(r2: real, r3: real, r4: real)
    requires 0.0 <= r2 <= 1.0 && (r3 == -1.0 || 0.0 <= r3 <= 1.0) && 0.0 <= r4 <= 1.0
    ensures -0.25 <= DetectionFormula(r2, r3, r4) <= 1.0
    ensures DetectionFormula(r2, r3, r4) == 1.0 <==> r2 == 1.0 && r3 == 1.0 && r4 == 1.0
  {
  }

  /** Everything a spatial class looks at is right. */
  ghost predicate AllRight(x: Pieces, o: Oracles) {
    EntryR2(x.pred, x.gt) == 1.0 && EntryR3(x.pred, x.gt, o) == 1.0 && R4(x.p, x.g, o.judge) == Ok(1.0)
  }

  lemma {:induction false} OpenGateRange(x: Pieces, o: Oracles)
    requires Solves(o, BoxesOf(x.gt), BoxesOf(x.pred)) && x.gt != [] && AnswerGate(x.p, x.g) == 1.0
    ensures OpenGateScore(x, o).Ok? ==> -0.15 <= OpenGateScore(x, o).value <= 1.0
    ensures OpenGateScore(x, o) == Ok(1.0) <==> AllRight(x, o)
  {
    R2Laws(BoxesOf(x.gt), BoxesOf(x.pred));
    EntryR3Range(x.pred, x.gt, o);
    if R4(x.p, x.g, o.judge).Ok? {
      ConsistencyFormulaRange(EntryR2(x.pred, x.gt), EntryR3(x.pred, x.gt, o), R4(x.p, x.g, o.judge).value);
    }
  }

  /** Class three on a non-empty ground truth: in [-0.15, 1], and 1 only with everything right. */
  lemma {:induction false} ConsistencyRange(sol: Reply, gt: Reply, o: Oracles)
    requires SolvesReplies(o, gt, sol) && (gt.entries.Read? ==> gt.entries.value != [])
    ensures ConsistencyScore(sol, gt, o).Ok? ==> -0.15 <= ConsistencyScore(sol, gt, o).value <= 1.0
    ensures ConsistencyScore(sol, gt, o) == Ok(1.0)
       <==> ReadPieces(sol, gt).Ok?
            && var x := ReadPieces(sol, gt).value; AnswerGate(x.p, x.g) == 1.0 && AllRight(x, o)
  {
    if ReadPieces(sol, gt).Ok? {
      var x := ReadPieces(sol, gt).value;
      if AnswerGate(x.p, x.g) == 1.0 {
        OpenGateRange(x, o);
      }
    }
  }

  /** Class four: in [-0.25, 1], and 1 only with everything right. */
  lemma {:induction false} DetectionRange(sol: Reply, gt: Reply, o: Oracles)
    requires SolvesReplies(o, gt, sol)
    ensures DetectionScore(sol, gt, o).Ok? ==> -0.25 <= DetectionScore(sol, gt, o).value <= 1.0
    ensures DetectionScore(sol, gt, o) == Ok(1.0)
       <==> ReadPieces(sol, gt).Ok? && AllRight(ReadPieces(sol, gt).value, o)
  {
    if ReadPieces(sol, gt).Ok? {
      var x := ReadPieces(sol, gt).value;
      R2Laws(BoxesOf(x.gt), BoxesOf(x.pred));
      EntryR3Range(x.pred, x.gt, o);
      if R4(x.p, x.g, o.judge).Ok? {
        DetectionFormulaRange(EntryR2(x.pred, x.gt), EntryR3(x.pred, x.gt, o), R4(x.p, x.g, o.judge).value);
      }
    }
  }

  // ---------------------------------------------------------------- reproducing the ground truth

  ghost predicate IsSqrt(sqrt: real -> real) {
    forall x: real :: x >= 0.0 ==> sqrt(x) >= 0.0 && sqrt(x) * sqrt(x) == x
  }

  lemma {:induction false} DotSelf(v: seq<real>)
    ensures Dot(v, v) >= 0.0
  {
    if v != [] {
      DotSelf(v[1..]);
    }
  }

  /** A label that can earn full marks: some keyword, the right number of vectors, and for a
      move a direction that is not (nearly) zero. */
  predicate WellLabelled(e: Entry) {
    && e.tag.keywords != {}
    && !BadFormat(e.tag)
    && (MoveKw in e.tag.keywords && Direction(e).Some?
        ==> Dot(Direction(e).value, Direction(e).value) >= 0.000000000001)
  }

  lemma {:induction false} CosineSelf(v: seq<real>, sqrt: real -> real)
    requires IsSqrt(sqrt)
    ensures Cosine(v, v, sqrt) == (if Dot(v, v) >= 0.000000000001 then 1.0 else 0.0)
  {
    DotSelf(v);
    var d := Dot(v, v);
    assert sqrt(d) * sqrt(d) == d;
    if d >= 0.000000000001 {
      DivBounds(d, d);
    }
  }

  lemma {:induction false} SelfLabelScore(e: Entry, sqrt: real -> real)
    requires IsSqrt(sqrt) && !BadFormat(e.tag)
    ensures LabelScore(e, e, sqrt) == 1.0 <==> WellLabelled(e)
  {
    if e.tag.keywords != {} {
      if Direction(e).Some? {
        CosineSelf(Direction(e).value, sqrt);
      }
      var n := |e.tag.keywords| as real;
      assert n > 0.0;
      DivBounds(n, n);
      if MoveKw in e.tag.keywords {
        SubsetCard({MoveKw}, e.tag.keywords);
        DivBounds(n + (DirectionCoefficient(e, e, sqrt) - 1.0), n);
      }
    }
  }

  /** Repeating the ground truth's entries earns R3 = 1 exactly when every label is well formed. */
  lemma {:induction false} SelfR3(es: seq<Entry>, o: Oracles)
    requires IsSqrt(o.sqrt) && es != [] && DistinctProper(BoxesOf(es)) && Solves(o, BoxesOf(es), BoxesOf(es))
    ensures EntryR3(es, es, o) == 1.0 <==> forall i :: 0 <= i < |es| ==> WellLabelled(es[i])
  {
    var bs := BoxesOf(es);
    var m := o.solve(IouMatrix(bs, bs));
    var ms := EntryMatch(es, es, o.solve);
    EntryMatchFits(es, es, o);
    R3Range(es, es, ms, o.sqrt);
    OnlyIdentityIsBest(bs, m);
    if !AnyBadFormat(es) {
      forall i | 0 <= i < |ms| ensures PairScore(ms[i], es, es, o.sqrt) == 1.0 <==> WellLabelled(es[m[i].row]) {
        SelfPairScore(ms[i], es, m[i].row, o.sqrt);
      }
      SelfCovers(es, m);
    }
  }

  lemma {:induction false} SelfPairScore(x: Match, es: seq<Entry>, k: nat, sqrt: real -> real)
    requires IsSqrt(sqrt) && k < |es| && !AnyBadFormat(es) && x == Match(k, k, 1.0)
    ensures PairScore(x, es, es, sqrt) == 1.0 <==> WellLabelled(es[k])
  {
    SelfLabelScore(es[k], sqrt);
  }

  lemma {:induction false} SelfCovers(es: seq<Entry>, m: seq<Pair>)
    requires forall i :: 0 <= i < |m| ==> m[i].row < |es|
    requires forall k :: 0 <= k < |es| ==> Pair(k, k) in m
    ensures (forall i :: 0 <= i < |m| ==> WellLabelled(es[m[i].row]))
       <==> (forall k :: 0 <= k < |es| ==> WellLabelled(es[k]))
  {
    if forall i :: 0 <= i < |m| ==> WellLabelled(es[m[i].row]) {
      forall k | 0 <= k < |es| ensures WellLabelled(es[k]) {
        var i :| 0 <= i < |m| && m[i] == Pair(k, k);
        assert WellLabelled(es[m[i].row]);
      }
    }
  }

  /** The judge's fast path: a summary against itself is an exact match. */
  ghost predicate JudgesSelfExact(judge: (string, string) -> real) {
    forall s: string :: !IsBlank(s) ==> judge(s, s) == 1.0
  }

  /** The judge is the summary classifier, asked about one pair. */
  ghost predicate JudgedBy(judge: (string, string) -> real, normalize: string -> string,
      classify: SummaryScoring.Pair -> SummaryScoring.Choice)
  {
    forall p, g :: SummaryScoring.Single((p, g), normalize, classify).Ok? ==>
      judge(p, g) == SummaryScoring.Single((p, g), normalize, classify).value.score
  }

  /** The classifier's fast path makes it such a judge, if normalising leaves something of every
      non-blank summary. */
  lemma {:induction false} ClassifierJudgesSelfExact(judge: (string, string) -> real, normalize: string -> string,
      classify: SummaryScoring.Pair -> SummaryScoring.Choice)
    requires JudgedBy(judge, normalize, classify) && forall s: string :: !IsBlank(s) ==> normalize(s) != ""
    ensures JudgesSelfExact(judge)
  {
    forall s: string | !IsBlank(s) ensures judge(s, s) == 1.0 {
      assert SummaryScoring.Single((s, s), normalize, classify) == Ok(SummaryScoring.EXACT_MATCH);
    }
  }

  /** A ground truth that can be read and whose boxes are distinct and proper. */
  ghost predicate Reproducible(r: Reply, o: Oracles) {
    && r.fields.Read? && r.entries.Read? && r.entries.value != [] && DistinctProper(BoxesOf(r.entries.value))
    && IsSqrt(o.sqrt) && JudgesSelfExact(o.judge) && SolvesReplies(o, r, r)
  }

  ghost predicate AllWellLabelled(es: seq<Entry>) {
    forall i :: 0 <= i < |es| ==> WellLabelled(es[i])
  }

  lemma {:induction false} ReproducedAllRightIff(r: Reply, o: Oracles)
    requires Reproducible(r, o)
    ensures ReadPieces(r, r) == Ok(Pieces(r.fields.value, r.fields.value, r.entries.value, r.entries.value))
    ensures AllRight(ReadPieces(r, r).value, o)
       <==> AllWellLabelled(r.entries.value) && SummaryPair(r.fields.value, r.fields.value).Some?
  {
    R2Laws(BoxesOf(r.entries.value), BoxesOf(r.entries.value));
    SelfR3(r.entries.value, o);
  }

  /** A reply that repeats a ground truth with distinct proper boxes scores 1 in class four
      exactly when every label is well formed and the summary is a non-blank string. */
  lemma {:induction false} ReproducedDetectionIff(r: Reply, o: Oracles)
    requires Reproducible(r, o)
    ensures DetectionScore(r, r, o) == Ok(1.0)
      <==> AllWellLabelled(r.entries.value) && SummaryPair(r.fields.value, r.fields.value).Some?
  {
    ReproducedAllRightIff(r, o);
    DetectionRange(r, r, o);
  }

  /** The same in class three, where the answer must be present as well. */
  lemma {:induction false} ReproducedConsistencyIff(r: Reply, o: Oracles)
    requires Reproducible(r, o)
    ensures ConsistencyScore(r, r, o) == Ok(1.0)
      <==> AllWellLabelled(r.entries.value) && SummaryPair(r.fields.value, r.fields.value).Some?
           && r.fields.value.value.answer.Some?
  {
    ReproducedAllRightIff(r, o);
    ConsistencyRange(r, r, o);
  }

  // ---------------------------------------------------------------- routing

  const JSON_ANSWER_SOURCES: set<string> := {
    "spatial_consistency_pos", "spatial_consistency_pos_train",
    "spatial_consistency_neg", "spatial_consistency_neg_train",
    "vst_caption", "spatialscore", "spatialcorpus_vi", "viewspatial", "vst_oor"}

  const HUNGARIAN_IOU_SOURCES: set<string> := {"humanref_cot"}

  const SPATIAL_CONSISTENCY_BBOX_SOURCES: set<string> := {
    "spatial_consistency_bbox_pos", "spatial_consistency_bbox_pos_train",
    "spatial_consistency_bbox_neg", "spatial_consistency_bbox_neg_train",
    "inconsistent_qwen_eval", "inconsistent_qwen", "consistent_qwen_eval", "consistent_qwen",
    "inconsistent_cot_local_eval"}

  const SPATIAL_DETECTION_SOURCES: set<string> := {
    "spatial_detection", "spatial_detection_train", "detection_qwen_eval", "detection_qwen"}

  const REASONING_GATE_SOURCES: set<string> := {
    "spatial_consistency_pos", "spatial_consistency_pos_train",
    "spatial_consistency_neg", "spatial_consistency_neg_train",
    "spatial_consistency_bbox_pos", "spatial_consistency_bbox_pos_train",
    "spatial_consistency_bbox_neg", "spatial_consistency_bbox_neg_train",
    "consistent_qwen_eval", "consistent_qwen", "inconsistent_qwen_eval", "inconsistent_qwen",
    "inconsistent_cot_local_eval"}

  lemma {:induction false} RoutesAreDisjoint()
    ensures JSON_ANSWER_SOURCES !! HUNGARIAN_IOU_SOURCES !! SPATIAL_CONSISTENCY_BBOX_SOURCES !! SPATIAL_DETECTION_SOURCES
    ensures REASONING_GATE_SOURCES <= JSON_ANSWER_SOURCES + SPATIAL_CONSISTENCY_BBOX_SOURCES
  {
  }

  /** The training entry's route order: detection, bbox, Hungarian, answer. */
  ghost function ComputeScore(source: string, sol: Reply, gt: Reply, o: Oracles): Result<real, Error> {
    if source in SPATIAL_DETECTION_SOURCES then DetectionScore(sol, gt, o)
    else if source in SPATIAL_CONSISTENCY_BBOX_SOURCES then ConsistencyScore(sol, gt, o)
    else if source in HUNGARIAN_IOU_SOURCES then BoxesScore(sol, gt, o.solve)
    else if source in JSON_ANSWER_SOURCES then JsonAnswerScore(sol, gt)
    else Err(UnknownSource)
  }

  datatype Details = Details(c: Option<real>, r2: Option<real>, r3: Option<real>, r4: Option<real>, reward: real)

  datatype Route = AnswerRoute | HungarianRoute | BboxRoute | DetectionRoute | NoRoute

  /** The report's route order: answer, Hungarian, bbox, detection. */
  function RouteOf(source: string): Route {
    if source in JSON_ANSWER_SOURCES then AnswerRoute
    else if source in HUNGARIAN_IOU_SOURCES then HungarianRoute
    else if source in SPATIAL_CONSISTENCY_BBOX_SOURCES then BboxRoute
    else if source in SPATIAL_DETECTION_SOURCES then DetectionRoute
    else NoRoute
  }

  /** The report on what was read: all sub-scores, even behind a closed gate. */
  ghost function DetailsOf(route: Route, x: Pieces, o: Oracles): Result<Details, Error> {
    match route
    case BboxRoute =>
      var c := AnswerGate(x.p, x.g);
      if x.gt == [] then Ok(Details(Some(c), None, None, None, c * (if x.pred == [] then 1.0 else 0.2)))
      else
        var r2, r3 := EntryR2(x.pred, x.gt), EntryR3(x.pred, x.gt, o);
        (match R4(x.p, x.g, o.judge)
         case Err(e) => Err(e)
         case Ok(r4) => Ok(Details(Some(c), Some(r2), Some(r3), Some(r4), ConsistencyFormula(c, r2, r3, r4))))
    case DetectionRoute =>
      var r2, r3 := EntryR2(x.pred, x.gt), EntryR3(x.pred, x.gt, o);
      (match R4(x.p, x.g, o.judge)
       case Err(e) => Err(e)
       case Ok(r4) => Ok(Details(None, Some(r2), Some(r3), Some(r4), DetectionFormula(r2, r3, r4))))
    case _ => Err(UnknownSource)
  }

  /** The reporting entry. It reads objects and entries before it looks at the spatial routes, and
      before it refuses an unknown source. */
  ghost function DetailsOn(route: Route, sol: Reply, gt: Reply, o: Oracles): Result<Details, Error> {
    match route
    case AnswerRoute =>
      (match JsonAnswerScore(sol, gt)
       case Err(e) => Err(e)
       case Ok(c) => Ok(Details(Some(c), None, None, None, c)))
    case HungarianRoute =>
      (match BoxesScore(sol, gt, o.solve)
       case Err(e) => Err(e)
       case Ok(r2) => Ok(Details(None, Some(r2), None, None, r2)))
    case _ =>
      match ReadPieces(sol, gt)
      case Err(e) => Err(e)
      case Ok(x) => DetailsOf(route, x, o)
  }

  ghost function ComputeDetails(source: string, sol: Reply, gt: Reply, o: Oracles): Result<Details, Error> {
    DetailsOn(RouteOf(source), sol, gt, o)
  }

  ghost function ScoreOn(route: Route, sol: Reply, gt: Reply, o: Oracles): Result<real, Error> {
    match route
    case AnswerRoute => JsonAnswerScore(sol, gt)
    case HungarianRoute => BoxesScore(sol, gt, o.solve)
    case BboxRoute => ConsistencyScore(sol, gt, o)
    case DetectionRoute => DetectionScore(sol, gt, o)
    case NoRoute => Err(UnknownSource)
  }

  /** The two opposite route orders choose the same route, because no source is in two routes. */
  lemma {:induction false} RouteOrderDoesNotMatter(source: string, sol: Reply, gt: Reply, o: Oracles)
    ensures ComputeScore(source, sol, gt, o) == ScoreOn(RouteOf(source), sol, gt, o)
    ensures RouteOf(source).BboxRoute? <==> source in SPATIAL_CONSISTENCY_BBOX_SOURCES
  {
    RoutesAreDisjoint();
  }

  ghost predicate SameOutcome(score: Result<real, Error>, details: Result<Details, Error>) {
    match details
    case Ok(d) => score == Ok(d.reward)
    case Err(e) => score == Err(e)
  }

  /** The gate is closed, so training returns 0, and the report goes on to something that fails:
      an entry list that cannot be read, or the judge of a non-empty ground truth. */
  ghost predicate FailsBehindClosedGate(sol: Reply, gt: Reply, o: Oracles) {
    && sol.fields.Read? && gt.fields.Read? && AnswerGate(sol.fields.value, gt.fields.value) == 0.0
    && (gt.entries.Raises? || sol.entries.Raises?
        || (gt.entries.value != [] && R4(sol.fields.value, gt.fields.value, o.judge).Err?))
  }

  lemma {:induction false} AgreeOnBboxIff(sol: Reply, gt: Reply, o: Oracles)
    ensures SameOutcome(ConsistencyScore(sol, gt, o), DetailsOn(BboxRoute, sol, gt, o))
       <==> !FailsBehindClosedGate(sol, gt, o)
  {
  }

  lemma {:induction false} AgreeOnRouteIff(route: Route, sol: Reply, gt: Reply, o: Oracles)
    ensures SameOutcome(ScoreOn(route, sol, gt, o), DetailsOn(route, sol, gt, o))
       <==> !(route.BboxRoute? && FailsBehindClosedGate(sol, gt, o)) && !(route.NoRoute? && ReadPieces(sol, gt).Err?)
  {
    match route
    case BboxRoute => AgreeOnBboxIff(sol, gt, o);
    case AnswerRoute =>
    case HungarianRoute =>
    case DetectionRoute =>
    case NoRoute =>
  }

  /** Training score and report agree, errors included, exactly when the report does not fail behind
      a closed answer gate and, for a source in no route, does not fail to read a text first. */
  lemma {:induction false} ScoreAgreesWithDetailsIff(source: string, sol: Reply, gt: Reply, o: Oracles)
    ensures SameOutcome(ComputeScore(source, sol, gt, o), ComputeDetails(source, sol, gt, o))
       <==> !(source in SPATIAL_CONSISTENCY_BBOX_SOURCES && FailsBehindClosedGate(sol, gt, o))
            && !(RouteOf(source).NoRoute? && ReadPieces(sol, gt).Err?)
  {
    RouteOrderDoesNotMatter(source, sol, gt, o);
    AgreeOnRouteIff(RouteOf(source), sol, gt, o);
  }

  const TRUTH_A := Reply(Read(Some(Fields(Some("a"), None))), Read([]), Read([]), Read(Some("a")), None)
  const HUGE_COORDINATE := Reply(Read(Some(Fields(Some("b"), None))), Raises("OverflowError"), Raises("OverflowError"),
                                 Read(Some("b")), None)

  /** A wrong answer with a coordinate too large for a float: training returns 0, the report raises. */
  lemma {:induction false} ReportCanRaise(o: Oracles)
    ensures ComputeScore("consistent_qwen", HUGE_COORDINATE, TRUTH_A, o) == Ok(0.0)
    ensures ComputeDetails("consistent_qwen", HUGE_COORDINATE, TRUTH_A, o) == Err(Raised("OverflowError"))
  {
    RouteOrderDoesNotMatter("consistent_qwen", HUGE_COORDINATE, TRUTH_A, o);
    assert "a" != "b";
  }

  // ---------------------------------------------------------------- the training gate

  datatype Gated = Gated(score: real, r1: real, gate: real, applied: bool, malformed: bool, unclear: real)

  function AnswerCorrectness(source: string, sol: Reply, gt: Reply): Result<Option<real>, Error> {
    if source in JSON_ANSWER_SOURCES then
      match JsonAnswerScore(sol, gt)
      case Err(e) => Err(e)
      case Ok(c) => Ok(Some(c))
    else if source in SPATIAL_CONSISTENCY_BBOX_SOURCES then
      match Both(gt.fields, sol.fields)
      case Err(e) => Err(e)
      case Ok((g, p)) => Ok(Some(AnswerGate(p, g)))
    else Ok(None)
  }

  function Upper(s: string): string {
    seq(|s|, i requires 0 <= i < |s| => if 'a' <= s[i] <= 'z' then s[i] - 32 as char else s[i])
  }

  function ExpectedOption(answer: Option<string>): string {
    if answer.Some? then Upper(answer.value) else "NONE"
  }

  /** The gate reads the answer through its own extractor, not through R1's parser. */
  function GateOf(option: string, answer: Option<string>): real {
    if option == "U" || option == ExpectedOption(answer) then 1.0 else 0.0
  }

  ghost function TrainingScore(source: string, sol: Reply, gt: Reply, options: Option<(string, string)>, o: Oracles)
    : Result<Gated, Error>
  {
    var plain := ComputeScore(source, sol, gt, o);
    if source !in REASONING_GATE_SOURCES then
      match plain
      case Err(e) => Err(e)
      case Ok(v) => Ok(Gated(v, 1.0, 1.0, false, false, 0.0))
    else
      match AnswerCorrectness(source, sol, gt)
      case Err(e) => Err(e)
      case Ok(r1) => GatedScore(r1, plain, sol, options, o)
  }

  /** On a gated source: R1 first, then the judged last sentence, then the plain score. */
  function GatedScore(r1: Option<real>, plain: Result<real, Error>, sol: Reply, options: Option<(string, string)>,
      o: Oracles)
    : Result<Gated, Error>
  {
    if r1 == Some(0.0) then Ok(Gated(0.0, 0.0, 0.0, false, false, 0.0))
    else if sol.lastSentence.None? then Ok(Gated(0.0, 1.0, 0.0, true, true, 0.0))
    else if options.None? then Err(NoOptions)
    else
      var s := o.support(sol.lastSentence.value, options.value.0, options.value.1);
      var option := Upper(s.option);
      if (option != "A" && option != "B" && option != "U") || !(0.0 <= s.unclear <= 1.0) then Err(InvalidSupport)
      else
        match sol.jsonAnswer
        case Raises(what) => Err(Raised(what))
        case Read(answer) =>
          if GateOf(option, answer) == 0.0 then Ok(Gated(0.0, 1.0, 0.0, true, false, s.unclear))
          else
            match plain
            case Err(e) => Err(e)
            case Ok(v) => Ok(Gated(v, 1.0, 1.0, true, false, s.unclear))
  }

  /** A wrong answer zeroes the plain score as well, so the gate never hides a positive reward. */
  lemma {:induction false} WrongAnswerScoresZero(source: string, sol: Reply, gt: Reply, o: Oracles)
    requires AnswerCorrectness(source, sol, gt) == Ok(Some(0.0))
    ensures ComputeScore(source, sol, gt, o) == Ok(0.0)
  {
    RoutesAreDisjoint();
  }

  ghost predicate GatedRight(g: Gated, plain: Result<real, Error>) {
    && (g.r1 == 0.0 || g.r1 == 1.0) && (g.gate == 0.0 || g.gate == 1.0)
    && (g.r1 == 0.0 ==> plain == Ok(0.0))
    && (g.r1 == 0.0 || g.gate == 0.0 ==> g.score == 0.0)
    && (g.r1 == 1.0 && g.gate == 1.0 ==> plain == Ok(g.score))
    && (plain.Ok? ==> g.score == g.r1 * g.gate * plain.value)
  }

  lemma {:induction false} GatedScoreRight(r1: Option<real>, plain: Result<real, Error>, sol: Reply,
        options: Option<(string, string)>, o: Oracles)
    requires r1 == Some(0.0) || r1 == Some(1.0)
    requires r1 == Some(0.0) ==> plain == Ok(0.0)
    requires GatedScore(r1, plain, sol, options, o).Ok?
    ensures GatedRight(GatedScore(r1, plain, sol, options, o).value, plain)
    ensures r1 == Some(GatedScore(r1, plain, sol, options, o).value.r1)
  {
  }

  lemma {:induction false} GatedSourcesHaveR1(source: string, sol: Reply, gt: Reply)
    requires source in REASONING_GATE_SOURCES && AnswerCorrectness(source, sol, gt).Ok?
    ensures AnswerCorrectness(source, sol, gt).value == Some(0.0) || AnswerCorrectness(source, sol, gt).value == Some(1.0)
  {
    RoutesAreDisjoint();
  }

  /** Whenever training returns, its score is R1 times the gate times the plain score; with the
      gate open the plain score exists, and with it closed the result is 0 whatever it would be. */
  lemma {:induction false} TrainingIsGatedScore(source: string, sol: Reply, gt: Reply, options: Option<(string,
        string)>, o: Oracles)
    requires TrainingScore(source, sol, gt, options, o).Ok?
    ensures var g := TrainingScore(source, sol, gt, options, o).value;
      && GatedRight(g, ComputeScore(source, sol, gt, o))
      && (source in REASONING_GATE_SOURCES ==> AnswerCorrectness(source, sol, gt) == Ok(Some(g.r1)))
      && (source !in REASONING_GATE_SOURCES ==> ComputeScore(source, sol, gt, o) == Ok(g.score))
  {
    if source in REASONING_GATE_SOURCES {
      GatedSourcesHaveR1(source, sol, gt);
      var r1, plain := AnswerCorrectness(source, sol, gt).value, ComputeScore(source, sol, gt, o);
      if r1 == Some(0.0) {
        WrongAnswerScoresZero(source, sol, gt, o);
      }
      GatedScoreRight(r1, plain, sol, options, o);
    }
  }
}
