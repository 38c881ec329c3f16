/** What the reward functions give on every input, written out: the gate, the formulas, the label
    score and its direction coefficient. */
module RewardMeaning {
  import opened Prelude
  import opened Boxes
  import opened Assignment
  import opened Reward

  // ---------------------------------------------------------------- answers and the reasoning gate

  /** Class one is 1 exactly when both texts give an answer and the answers are equal. */
  lemma {:induction false} AnswerScoreMeaning(sol: Reply, gt: Reply)
    requires sol.jsonAnswer.Read? && gt.jsonAnswer.Read?
    ensures var want, got := gt.jsonAnswer.value, sol.jsonAnswer.value;
      JsonAnswerScore(sol, gt) == Ok(if want.Some? && got.Some? && want.value == got.value then 1.0 else 0.0)
  {
  }

  /** R1 of the spatial routes, from the two parsed objects. */
  lemma {:induction false} AnswerGateMeaning(p: Option<Fields>, g: Option<Fields>)
    ensures AnswerGate(p, g) == 1.0 || AnswerGate(p, g) == 0.0
    ensures AnswerGate(p, g) == 1.0 <==>
      p.Some? && g.Some? && p.value.answer.Some? && g.value.answer.Some? && p.value.answer.value == g.value.answer.value
  {
  }

  /** Both texts give an answer, and the same one. */
  predicate SameAnswer(a: Option<string>, b: Option<string>) {
    a.Some? && b.Some? && a.value == b.value
  }

  function AnswerIn(f: Option<Fields>): Option<string> {
    if f.Some? then f.value.answer else None
  }

  /** R1 compares the extracted answers on the answer routes and the objects' answers on the spatial
      consistency route; the other sources have none. */
  lemma {:induction false} R1Meaning(source: string, sol: Reply, gt: Reply)
    requires sol.jsonAnswer.Read? && gt.jsonAnswer.Read? && sol.fields.Read? && gt.fields.Read?
    ensures AnswerCorrectness(source, sol, gt)
         == if source in JSON_ANSWER_SOURCES then
              Ok(Some(if SameAnswer(sol.jsonAnswer.value, gt.jsonAnswer.value) then 1.0 else 0.0))
            else if source in SPATIAL_CONSISTENCY_BBOX_SOURCES then
              Ok(Some(if SameAnswer(AnswerIn(sol.fields.value), AnswerIn(gt.fields.value)) then 1.0 else 0.0))
            else Ok(None)
  {
  }

  predicate IsA(s: string) {
    s == "A" || s == "a"
  }

  predicate IsB(s: string) {
    s == "B" || s == "b"
  }

  predicate IsU(s: string) {
    s == "U" || s == "u"
  }

  /** The judge says the sentence supports the reply's own option, or that it is unclear. */
  predicate Supports(option: string, answer: Option<string>) {
    IsU(option) || (answer.Some? && ((IsA(option) && IsA(answer.value)) || (IsB(option) && IsB(answer.value))))
  }

  lemma {:induction false} UpperOf(s: string)
    ensures Upper(s) == "A" <==> IsA(s)
    ensures Upper(s) == "B" <==> IsB(s)
    ensures Upper(s) == "U" <==> IsU(s)
  {
    if |s| == 1 {
      assert s == [s[0]] && Upper(s) == [Upper(s)[0]];
      assert "A"[0] == 'A' && "B"[0] == 'B' && "U"[0] == 'U' && "a"[0] == 'a' && "b"[0] == 'b' && "u"[0] == 'u';
    }
  }

  /** What training returns behind an open gate: the plain score, or its error. */
  predicate GateOpen(t: Result<Gated, Error>, plain: Result<real, Error>, unclear: real) {
    match plain
    case Err(e) => t == Err(e)
    case Ok(v) => t == Ok(Gated(v, 1.0, 1.0, true, false, unclear))
  }

  predicate GateClosed(t: Result<Gated, Error>, unclear: real) {
    t == Ok(Gated(0.0, 1.0, 0.0, true, false, unclear))
  }

  /** On a gated source with a right answer and a valid judgement of the last sentence, the gate opens
      exactly when the judge is unclear or names the reply's own option; otherwise the score is 0. */
  lemma {:induction false} GateOpensIff(source: string, sol: Reply, gt: Reply, options: (string, string), o: Oracles)
    requires source in REASONING_GATE_SOURCES && AnswerCorrectness(source, sol, gt) == Ok(Some(1.0))
    requires sol.lastSentence.Some? && sol.jsonAnswer.Read?
    requires var s := o.support(sol.lastSentence.value, options.0, options.1);
      0.0 <= s.unclear <= 1.0 && (IsA(s.option) || IsB(s.option) || IsU(s.option))
    ensures var s := o.support(sol.lastSentence.value, options.0, options.1);
      var t := TrainingScore(source, sol, gt, Some(options), o);
      if Supports(s.option, sol.jsonAnswer.value) then GateOpen(t, ComputeScore(source, sol, gt, o), s.unclear)
      else GateClosed(t, s.unclear)
  {
    var s := o.support(sol.lastSentence.value, options.0, options.1);
    UpperOf(s.option);
    if sol.jsonAnswer.value.Some? {
      UpperOf(sol.jsonAnswer.value.value);
    }
    var plain := ComputeScore(source, sol, gt, o);
    GatedWritten(plain, sol, options, o);
  }

  lemma {:induction false} GatedWritten(plain: Result<real, Error>, sol: Reply, options: (string, string), o: Oracles)
    requires sol.lastSentence.Some? && sol.jsonAnswer.Read?
    requires var s := o.support(sol.lastSentence.value, options.0, options.1);
      0.0 <= s.unclear <= 1.0 && (IsA(s.option) || IsB(s.option) || IsU(s.option))
    ensures var s := o.support(sol.lastSentence.value, options.0, options.1);
      var t := GatedScore(Some(1.0), plain, sol, Some(options), o);
      if Supports(s.option, sol.jsonAnswer.value) then GateOpen(t, plain, s.unclear) else GateClosed(t, s.unclear)
  {
    var s := o.support(sol.lastSentence.value, options.0, options.1);
    UpperOf(s.option);
    if sol.jsonAnswer.value.Some? {
      UpperOf(sol.jsonAnswer.value.value);
    }
  }

  /** Before the judge is asked: a wrong answer scores 0 with R1 of 0, a reply without a last sentence
      scores 0 as malformed, and a question without options is an error. */
  lemma {:induction false} BeforeTheJudge(source: string, sol: Reply, gt: Reply, options: Option<(string, string)>,
      o: Oracles)
    requires source in REASONING_GATE_SOURCES && AnswerCorrectness(source, sol, gt).Ok?
    ensures var t := TrainingScore(source, sol, gt, options, o);
      && (AnswerCorrectness(source, sol, gt).value == Some(0.0) ==> t == Ok(Gated(0.0, 0.0, 0.0, false, false, 0.0)))
      && (AnswerCorrectness(source, sol, gt).value == Some(1.0) && sol.lastSentence.None? ==>
            t == Ok(Gated(0.0, 1.0, 0.0, true, true, 0.0)))
      && (AnswerCorrectness(source, sol, gt).value == Some(1.0) && sol.lastSentence.Some? && options.None? ==>
            t == Err(NoOptions))
  {
  }

  /** A judgement that names none of A, B and U, or whose probability is out of range, is an error. */
  lemma {:induction false} BadJudgement(source: string, sol: Reply, gt: Reply, options: (string, string), o: Oracles)
    requires source in REASONING_GATE_SOURCES && AnswerCorrectness(source, sol, gt) == Ok(Some(1.0))
    requires sol.lastSentence.Some?
    requires var s := o.support(sol.lastSentence.value, options.0, options.1);
      !(0.0 <= s.unclear <= 1.0) || !(IsA(s.option) || IsB(s.option) || IsU(s.option))
    ensures TrainingScore(source, sol, gt, Some(options), o) == Err(InvalidSupport)
  {
    UpperOf(o.support(sol.lastSentence.value, options.0, options.1).option);
  }

  // ---------------------------------------------------------------- R4 and the formulas

  predicate HasText(f: Option<Fields>) {
    f.Some? && f.value.summary.Some?
    && exists i :: 0 <= i < |f.value.summary.value| && f.value.summary.value[i] !in " \t\n\r"
  }

  /** The judge is asked about reply and ground truth, in this order, exactly when both have a summary
      with text; otherwise R4 is 0. */
  lemma {:induction false} R4Meaning(p: Option<Fields>, g: Option<Fields>, judge: (string, string) -> real)
    ensures !(HasText(p) && HasText(g)) ==> R4(p, g, judge) == Ok(0.0)
    ensures HasText(p) && HasText(g) ==>
      var score := judge(p.value.summary.value, g.value.summary.value);
      R4(p, g, judge) == if 0.0 <= score <= 1.0 then Ok(score) else Err(InvalidScore)
  {
  }

  lemma {:induction false} ConsistencyWeights(r2: real, r3: real, r4: real)
    ensures ConsistencyFormula(1.0, r2, r3, r4) == 0.1 + r2 / 4.0 + r3 / 4.0 + r4 * 2.0 / 5.0
  {
  }

  lemma {:induction false} DetectionWeights(r2: real, r3: real, r4: real)
    ensures DetectionFormula(r2, r3, r4) == r2 / 4.0 + r3 / 4.0 + r4 / 2.0
  {
  }

  /** A ground truth with entries, behind an open gate: a tenth, a quarter of R2, a quarter of R3 and
      two fifths of R4. */
  lemma {:induction false} OpenGateValue(x: Pieces, o: Oracles)
    requires AnswerGate(x.p, x.g) == 1.0 && x.gt != [] && R4(x.p, x.g, o.judge).Ok?
    ensures OpenGateScore(x, o) == Ok(0.1 + EntryR2(x.pred, x.gt) / 4.0 + EntryR3(x.pred, x.gt, o) / 4.0
                                      + R4(x.p, x.g, o.judge).value * 2.0 / 5.0)
  {
    ConsistencyWeights(EntryR2(x.pred, x.gt), EntryR3(x.pred, x.gt, o), R4(x.p, x.g, o.judge).value);
  }

  /** Class three on readable texts: 0 for a wrong answer, 1 or 0.2 for an empty ground truth, and the
      weighted sum otherwise, with an error exactly when the judge's score is one. */
  lemma {:induction false} ConsistencyValue(sol: Reply, gt: Reply, o: Oracles)
    requires ReadPieces(sol, gt).Ok?
    ensures var x := ReadPieces(sol, gt).value;
      && x == Pieces(sol.fields.value, gt.fields.value, sol.entries.value, gt.entries.value)
      && (AnswerGate(x.p, x.g) == 0.0 ==> ConsistencyScore(sol, gt, o) == Ok(0.0))
      && (AnswerGate(x.p, x.g) == 1.0 ==> ConsistencyScore(sol, gt, o) == OpenGateScore(x, o))
      && (x.gt == [] ==> OpenGateScore(x, o) == Ok(if x.pred == [] then 1.0 else 0.2))
      && (x.gt != [] && R4(x.p, x.g, o.judge).Err? ==> OpenGateScore(x, o).Err?)
  {
  }

  /** Class four on readable texts: a quarter of R2, a quarter of R3 and half of R4. */
  lemma {:induction false} DetectionValue(x: Pieces, o: Oracles)
    requires R4(x.p, x.g, o.judge).Ok?
    ensures DetectionOf(x, o) == Ok(EntryR2(x.pred, x.gt) / 4.0 + EntryR3(x.pred, x.gt, o) / 4.0
                                    + R4(x.p, x.g, o.judge).value / 2.0)
  {
    DetectionWeights(EntryR2(x.pred, x.gt), EntryR3(x.pred, x.gt, o), R4(x.p, x.g, o.judge).value);
  }

  /** The sub-scores of a report are what their names say. */
  lemma {:induction false} ReportedParts(route: Route, sol: Reply, gt: Reply, o: Oracles)
    requires (route.BboxRoute? || route.DetectionRoute?) && ReadPieces(sol, gt).Ok? && DetailsOn(route, sol, gt, o).Ok?
    ensures var x, d := ReadPieces(sol, gt).value, DetailsOn(route, sol, gt, o).value;
      && (route.BboxRoute? ==> d.c == Some(AnswerGate(x.p, x.g)))
      && (route.DetectionRoute? ==> d.c == None)
      && (route.BboxRoute? && x.gt == [] ==> d.r2 == None && d.r3 == None && d.r4 == None)
      && (route.DetectionRoute? || x.gt != [] ==>
            d.r2 == Some(EntryR2(x.pred, x.gt)) && d.r3 == Some(EntryR3(x.pred, x.gt, o))
            && R4(x.p, x.g, o.judge).Ok? && d.r4 == Some(R4(x.p, x.g, o.judge).value))
  {
  }

  // ---------------------------------------------------------------- labels

  /** A label scores 0 when the ground truth names no keyword or the reply names one that it does not. */
  lemma {:induction false} LabelScoreZero(gt: Entry, pred: Entry, sqrt: real -> real)
    requires gt.tag.keywords == {} || exists k :: k in pred.tag.keywords && k !in gt.tag.keywords
    ensures LabelScore(gt, pred, sqrt) == 0.0
  {
  }

  /** Otherwise it is the share of the named keywords, a hit on move counting as much as its direction fits. */
  lemma {:induction false} LabelScoreMeaning(gt: Entry, pred: Entry, sqrt: real -> real)
    requires gt.tag.keywords != {} && forall k :: k in pred.tag.keywords ==> k in gt.tag.keywords
    ensures var want, got := gt.tag.keywords, pred.tag.keywords;
      LabelScore(gt, pred, sqrt) * |want| as real
      == |got - {MoveKw}| as real + (if MoveKw in got then DirectionCoefficient(gt, pred, sqrt) else 0.0)
  {
    var want, got := gt.tag.keywords, pred.tag.keywords;
    var c := DirectionCoefficient(gt, pred, sqrt);
    WithoutMove(got);
    QuotientTimes(|got| as real + (if MoveKw in got then c - 1.0 else 0.0), |want| as real);
  }

  lemma {:induction false} WithoutMove(got: set<Keyword>)
    ensures |got - {MoveKw}| == |got| - (if MoveKw in got then 1 else 0)
  {
    if MoveKw in got {
      assert got == (got - {MoveKw}) + {MoveKw};
    } else {
      assert got - {MoveKw} == got;
    }
  }

  lemma {:induction false} QuotientTimes(a: real, b: real)
    requires b > 0.0
    ensures a / b * b == a
  {
  }

  /** A point is taken relative to the box centre with the vertical axis pointing up; three numbers
      are a direction as they stand. */
  lemma {:induction false} DirectionMeaning(e: Entry)
    ensures e.tag.vectors == [] ==> Direction(e) == None
    ensures e.tag.vectors != [] && |e.tag.vectors[0]| == 2 ==>
      && Direction(e).Some? && |Direction(e).value| == 2
      && 2.0 * Direction(e).value[0] == 2.0 * e.tag.vectors[0][0] - (e.box.x1 + e.box.x2)
      && 2.0 * Direction(e).value[1] == (e.box.y1 + e.box.y2) - 2.0 * e.tag.vectors[0][1]
    ensures e.tag.vectors != [] && |e.tag.vectors[0]| == 3 ==> Direction(e) == Some(e.tag.vectors[0])
  {
  }

  lemma {:induction false} DotMeaning(a: seq<real>, b: seq<real>)
    requires |a| == |b|
    ensures |a| == 2 ==> Dot(a, b) == a[0] * b[0] + a[1] * b[1]
    ensures |a| == 3 ==> Dot(a, b) == a[0] * b[0] + a[1] * b[1] + a[2] * b[2]
  {
    if |a| == 2 || |a| == 3 {
      assert Dot(a, b) == a[0] * b[0] + Dot(a[1..], b[1..]);
      assert Dot(a[1..], b[1..]) == a[1] * b[1] + Dot(a[1..][1..], b[1..][1..]);
      if |a| == 3 {
        assert Dot(a[1..][1..], b[1..][1..]) == a[2] * b[2] + Dot(a[1..][1..][1..], b[1..][1..][1..]);
      }
    }
  }

  /** The clipped cosine: 0 for directions without length and for obtuse angles, never above 1, and
      otherwise the inner product over the two lengths. */
  lemma {:induction false} CosineMeaning(g: seq<real>, p: seq<real>, sqrt: real -> real)
    requires |g| == |p|
    ensures var norm := sqrt(Dot(g, g)) * sqrt(Dot(p, p));
      && (norm < 0.000000000001 ==> Cosine(g, p, sqrt) == 0.0)
      && (norm >= 0.000000000001 && Dot(g, p) <= 0.0 ==> Cosine(g, p, sqrt) == 0.0)
      && (norm >= 0.000000000001 && Dot(g, p) >= norm ==> Cosine(g, p, sqrt) == 1.0)
      && (norm >= 0.000000000001 && 0.0 <= Dot(g, p) <= norm ==> Cosine(g, p, sqrt) * norm == Dot(g, p))
  {
    var norm := sqrt(Dot(g, g)) * sqrt(Dot(p, p));
    if norm >= 0.000000000001 {
      ClippedQuotient(Dot(g, p), norm);
    }
  }

  lemma {:induction false} ClippedQuotient(d: real, n: real)
    requires n > 0.0
    ensures d <= 0.0 ==> MaxR(0.0, MinR(1.0, d / n)) == 0.0
    ensures d >= n ==> MaxR(0.0, MinR(1.0, d / n)) == 1.0
    ensures 0.0 <= d <= n ==> MaxR(0.0, MinR(1.0, d / n)) * n == d
  {
    var q := d / n;
    QuotientTimes(d, n);
    if d <= 0.0 && q > 0.0 {
      PositiveProductR(q, n);
    }
    if d >= n && q < 1.0 {
      PositiveProductR(1.0 - q, n);
      assert (1.0 - q) * n == n - d;
    }
    if 0.0 <= d <= n {
      DivBounds(d, n);
    }
  }

  /** Full marks without a wanted direction, none without a given one, the cosine for equal dimensions,
      and for different ones the cosine of the first two components less a tenth, but not below 0. */
  lemma {:induction false} DirectionCoefficientMeaning(gt: Entry, pred: Entry, sqrt: real -> real)
    ensures var g, p, c := Direction(gt), Direction(pred), DirectionCoefficient(gt, pred, sqrt);
      && (g.None? ==> c == 1.0)
      && (g.Some? && p.None? ==> c == 0.0)
      && (g.Some? && p.Some? && |g.value| == |p.value| ==> c == Cosine(g.value, p.value, sqrt))
      && (g.Some? && p.Some? && |g.value| != |p.value| ==>
            |g.value| >= 2 && |p.value| >= 2 && c == MaxR(0.0, Cosine(g.value[..2], p.value[..2], sqrt) - 0.1))
  {
  }

  // ---------------------------------------------------------------- R3

  /** R3 is -1 exactly when some predicted label has a move without exactly one vector, or a vector
      without a move, whatever was matched. */
  lemma {:induction false} FormatGateIff(gt: seq<Entry>, pred: seq<Entry>, ms: seq<Match>, sqrt: real -> real)
    requires MatchesFit(ms, gt, pred) && forall i :: 0 <= i < |ms| ==> 0.0 <= ms[i].iou <= 1.0
    ensures R3(gt, pred, ms, sqrt) == -1.0 <==>
      exists i :: 0 <= i < |pred|
        && (if MoveKw in pred[i].tag.keywords then |pred[i].tag.vectors| != 1 else |pred[i].tag.vectors| >= 1)
  {
    R3Range(gt, pred, ms, sqrt);
    if AnyBadFormat(pred) {
      var i :| 0 <= i < |pred| && BadFormat(pred[i].tag);
    }
  }

  /** Otherwise it is the mean of label score times IoU over the matches, ground truth label against
      predicted label, and 0 without matches. */
  lemma {:induction false} R3IsMean(gt: seq<Entry>, pred: seq<Entry>, ms: seq<Match>, sqrt: real -> real,
      scores: seq<real>)
    requires MatchesFit(ms, gt, pred) && !AnyBadFormat(pred) && |scores| == |ms|
    requires forall i :: 0 <= i < |ms| ==> scores[i] == LabelScore(gt[ms[i].gt], pred[ms[i].pred], sqrt) * ms[i].iou
    ensures R3(gt, pred, ms, sqrt) == if ms == [] then 0.0 else SumR(scores) / |ms| as real
  {
    var ps := PairScores(ms, gt, pred, sqrt);
    forall i | 0 <= i < |ms| ensures scores[i] == ps[i] {
      assert ps[i] == PairScore(ms[i], gt, pred, sqrt);
    }
    assert scores == ps;
  }

  lemma {:induction false} OneMatch(g: Entry, p: Entry, o: Oracles)
    requires Solves(o, BoxesOf([g]), BoxesOf([p]))
    ensures EntryMatch([g], [p], o.solve) == [Match(0, 0, Iou(g.box, p.box))]
  {
    var m := o.solve(IouMatrix(BoxesOf([g]), BoxesOf([p])));
    assert |m| == 1 && m[0] == Pair(0, 0);
    IouMatrixAt(BoxesOf([g]), BoxesOf([p]), Pair(0, 0));
  }

  lemma {:induction false} R3OfOne(g: Entry, p: Entry, share: real, iou: real, sqrt: real -> real)
    requires !BadFormat(p.tag) && share == LabelScore(g, p, sqrt)
    ensures R3([g], [p], [Match(0, 0, iou)], sqrt) == share * iou
  {
    R3IsMean([g], [p], [Match(0, 0, iou)], sqrt, [share * iou]);
    SumOfOne(share * iou);
  }

  lemma {:induction false} SumOfOne(x: real)
    ensures SumR([x]) == x
  {
    assert [x][1..] == [];
  }

  lemma {:induction false} EntryR3Of(pred: seq<Entry>, gt: seq<Entry>, o: Oracles, ms: seq<Match>)
    requires ms == EntryMatch(gt, pred, o.solve) && MatchesFit(ms, gt, pred)
    ensures EntryR3(pred, gt, o) == R3(gt, pred, ms, o.sqrt)
  {
  }

  /** One wanted and one predicted entry: the label score times the IoU of the two boxes. */
  lemma {:induction false} OneAgainstOne(g: Entry, p: Entry, share: real, iou: real, o: Oracles)
    requires Solves(o, BoxesOf([g]), BoxesOf([p])) && !BadFormat(p.tag)
    requires share == LabelScore(g, p, o.sqrt) && iou == Iou(g.box, p.box)
    ensures EntryR3([p], [g], o) == share * iou
  {
    OneMatch(g, p, o);
    EntryR3Of([p], [g], o, [Match(0, 0, iou)]);
    R3OfOne(g, p, share, iou, o.sqrt);
  }
}
