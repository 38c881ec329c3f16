/** Batched summary scoring (reward_model.py): fast paths for blank and equal summaries, one
    classifier batch for the rest, results scattered back to their places. Normalisation and the
    classifier, pair by pair, are parameters. */
module SummaryScoring {
  import opened Prelude

  datatype SummaryScore = SummaryScore(score: real, probabilities: seq<real>, choiceMass: real)

  /** What the classifier returns for one pair: label probabilities and the mass they stand for. */
  datatype Choice = Choice(probabilities: seq<real>, mass: real)

  datatype Error = BadProbabilities | BadScore

  const NO_MATCH := SummaryScore(0.0, [0.0, 0.0, 0.0, 1.0], 1.0)
  const EXACT_MATCH := SummaryScore(1.0, [1.0, 0.0, 0.0, 0.0], 1.0)
  const TOLERANCE := 0.00001

  type Pair = (string, string)

  function Abs(x: real): real {
    if x < 0.0 then -x else x
  }

  /** Four probabilities in [0,1] that sum to 1 up to math.isclose. */
  predicate ValidProbabilities(ps: seq<real>) {
    && |ps| == 4 && (forall i :: 0 <= i < |ps| ==> 0.0 <= ps[i] <= 1.0)
    && Abs(SumR(ps) - 1.0) <= MaxR(TOLERANCE * MaxR(Abs(SumR(ps)), 1.0), TOLERANCE)
  }

  function Weighted(ps: seq<real>): real
    requires |ps| == 4
  {
    ps[0] + 0.5 * ps[1] + 0.25 * ps[2]
  }

  function Classified(x: Choice): (r: Result<SummaryScore, Error>)
    ensures r.Ok? ==> 0.0 <= r.value.score <= 1.0
  {
    if !ValidProbabilities(x.probabilities) then Err(BadProbabilities)
    else if Weighted(x.probabilities) > 1.0 then Err(BadScore)
    else Ok(SummaryScore(Weighted(x.probabilities), x.probabilities, x.mass))
  }

  predicate FastPath(p: Pair, normalize: string -> string) {
    normalize(p.0) == "" || normalize(p.1) == "" || normalize(p.0) == normalize(p.1)
  }

  /** The score of one pair on its own. */
  function Single(p: Pair, normalize: string -> string, classify: Pair -> Choice): (r: Result<SummaryScore, Error>)
    ensures r.Ok? ==> 0.0 <= r.value.score <= 1.0
  {
    if normalize(p.0) == "" || normalize(p.1) == "" then Ok(NO_MATCH)
    else if normalize(p.0) == normalize(p.1) then Ok(EXACT_MATCH)
    else Classified(classify(p))
  }

  /** Scoring pair after pair, stopping at the first error. */
  function Pointwise(ps: seq<Pair>, normalize: string -> string, classify: Pair -> Choice)
    : Result<seq<SummaryScore>, Error>
  {
    if ps == [] then Ok([])
    else
      var n := |ps| - 1;
      match Pointwise(ps[..n], normalize, classify)
      case Err(e) => Err(e)
      case Ok(done) =>
        match Single(ps[n], normalize, classify)
        case Err(e) => Err(e)
        case Ok(x) => Ok(done + [x])
  }

  lemma {:induction false} PointwiseOk(ps: seq<Pair>, rs: seq<SummaryScore>, normalize: string -> string,
        classify: Pair -> Choice)
    requires |rs| == |ps| && forall i :: 0 <= i < |ps| ==> Single(ps[i], normalize, classify) == Ok(rs[i])
    ensures Pointwise(ps, normalize, classify) == Ok(rs)
    decreases |ps|
  {
    if ps != [] {
      var n := |ps| - 1;
      PointwiseOk(ps[..n], rs[..n], normalize, classify);
      assert rs == rs[..n] + [rs[n]];
    } else {
      assert rs == [];
    }
  }

  lemma {:induction false} PointwiseErr(ps: seq<Pair>, k: nat, e: Error, normalize: string -> string,
        classify: Pair -> Choice)
    requires k < |ps| && Single(ps[k], normalize, classify) == Err(e)
    requires forall i :: 0 <= i < k ==> Single(ps[i], normalize, classify).Ok?
    ensures Pointwise(ps, normalize, classify) == Err(e)
    decreases |ps|
  {
    var n := |ps| - 1;
    if k < n {
      PointwiseErr(ps[..n], k, e, normalize, classify);
    } else {
      var rs := seq(n, i requires 0 <= i < n => Single(ps[i], normalize, classify).value);
      PointwiseOk(ps[..n], rs, normalize, classify);
    }
  }

  /** Every slot outside `open` holds what its pair scores alone. */
  ghost predicate SettledOutside(ps: seq<Pair>, rs: seq<SummaryScore>, open: seq<nat>,
                                 normalize: string -> string, classify: Pair -> Choice)
    requires |rs| == |ps|
  {
    forall i :: 0 <= i < |ps| && i !in open ==> Single(ps[i], normalize, classify) == Ok(rs[i])
  }

  ghost predicate SlowPathOnly(ps: seq<Pair>, pending: seq<nat>, normalize: string -> string) {
    && (forall x, y :: 0 <= x < y < |pending| ==> pending[x] < pending[y])
    && forall x :: 0 <= x < |pending| ==> pending[x] < |ps| && !FastPath(ps[pending[x]], normalize)
  }

  /** Filling the fast paths: what remains open is exactly the slow-path pairs, in order. */
  method FillFastPaths(pairs: seq<Pair>, normalize: string -> string, ghost classify: Pair -> Choice,
        results: array<SummaryScore>)
    returns (pending: seq<nat>)
    requires results.Length == |pairs| && forall i :: 0 <= i < |pairs| ==> results[i] == NO_MATCH
    modifies results
    ensures SlowPathOnly(pairs, pending, normalize)
    ensures SettledOutside(pairs, results[..], pending, normalize, classify)
  {
    pending := [];
    for index := 0 to |pairs|
      invariant SlowPathOnly(pairs, pending, normalize)
      invariant forall x :: 0 <= x < |pending| ==> pending[x] < index
      invariant forall i :: index <= i < |pairs| ==> results[i] == NO_MATCH
      invariant forall i :: 0 <= i < index && i !in pending ==> Single(pairs[i], normalize, classify) == Ok(results[i])
    {
      var (pred, gt) := pairs[index];
      var normalizedPred, normalizedGt := normalize(pred), normalize(gt);
      if normalizedPred == "" || normalizedGt == "" {
        continue;
      }
      if normalizedPred == normalizedGt {
        results[index] := EXACT_MATCH;
        continue;
      }
      pending := pending + [index];
    }
  }

  /** The first invalid classification is the error scoring pair after pair would stop at. */
  lemma {:induction false} FirstErrorAgrees(pairs: seq<Pair>, rs: seq<SummaryScore>, pending: seq<nat>, offset: nat,
        e: Error,
                         normalize: string -> string, classify: Pair -> Choice)
    requires |rs| == |pairs| && offset < |pending| && SlowPathOnly(pairs, pending, normalize)
    requires SettledOutside(pairs, rs, pending[offset..], normalize, classify)
    requires Single(pairs[pending[offset]], normalize, classify) == Err(e)
    ensures Pointwise(pairs, normalize, classify) == Err(e)
  {
    forall i | 0 <= i < pending[offset] ensures Single(pairs[i], normalize, classify).Ok? {
      LaterThan(pending, offset, i);
    }
    PointwiseErr(pairs, pending[offset], e, normalize, classify);
  }

  lemma {:induction false} SettleNext(pairs: seq<Pair>, rs: seq<SummaryScore>, pending: seq<nat>, offset: nat,
        x: SummaryScore,
                   normalize: string -> string, classify: Pair -> Choice)
    requires |rs| == |pairs| && offset < |pending| && pending[offset] < |pairs|
    requires SettledOutside(pairs, rs, pending[offset..], normalize, classify)
    requires Single(pairs[pending[offset]], normalize, classify) == Ok(x)
    ensures SettledOutside(pairs, rs[pending[offset] := x], pending[offset + 1..], normalize, classify)
  {
    assert pending[offset..] == [pending[offset]] + pending[offset + 1..];
  }

  /** The batched form gives exactly what scoring each pair alone gives, errors included. */
  method ScoreSummariesDetailed(pairs: seq<Pair>, normalize: string -> string, classify: Pair -> Choice)
    returns (r: Result<seq<SummaryScore>, Error>)
    ensures r == Pointwise(pairs, normalize, classify)
  {
    if |pairs| == 0 {
      return Ok([]);
    }
    var results := new SummaryScore[|pairs|](_ => NO_MATCH);
    var pending := FillFastPaths(pairs, normalize, classify, results);
    var choices := seq(|pending|, x requires 0 <= x < |pending| && pending[x] < |pairs| => classify(pairs[pending[x]]));
    assert pending[0..] == pending;
    for offset := 0 to |pending|
      invariant SettledOutside(pairs, results[..], pending[offset..], normalize, classify)
    {
      var index := pending[offset];
      match Classified(choices[offset]) {
        case Err(e) =>
          FirstErrorAgrees(pairs, results[..], pending, offset, e, normalize, classify);
          return Err(e);
        case Ok(score) =>
          SettleNext(pairs, results[..], pending, offset, score, normalize, classify);
          ghost var before := results[..];
          results[index] := score;
          assert results[..] == before[index := score];
      }
    }
    assert pending[|pending|..] == [];
    PointwiseOk(pairs, results[..], normalize, classify);
    return Ok(results[..]);
  }

  lemma {:induction false} LaterThan(pending: seq<nat>, offset: nat, i: nat)
    requires offset < |pending| && i < pending[offset]
    requires forall x, y :: 0 <= x < y < |pending| ==> pending[x] < pending[y]
    ensures i !in pending[offset..]
  {
    var tail := pending[offset..];
    forall x | 0 <= x < |tail| ensures tail[x] != i {
      assert tail[x] == pending[offset + x];
    }
  }

  // ---------------------------------------------------------------- the classifier's own normalisation

  function Largest(xs: seq<real>): real
    requires xs != []
  {
    if |xs| == 1 then xs[0] else MaxR(xs[0], Largest(xs[1..]))
  }

  function Exps(xs: seq<real>, shift: real, exp: real -> real): seq<real> {
    seq(|xs|, i requires 0 <= i < |xs| => exp(xs[i] - shift))
  }

  /** Conditional probabilities of the labels from their log-probabilities. */
  function NormalizeChoices(xs: seq<real>, exp: real -> real): Option<seq<real>>
    requires xs != []
  {
    var es := Exps(xs, Largest(xs), exp);
    if SumR(es) <= 0.0 then None else Some(seq(|es|, i requires 0 <= i < |es| => es[i] / SumR(es)))
  }

  lemma {:induction false} SumAtLeastEach(xs: seq<real>)
    requires forall i :: 0 <= i < |xs| ==> xs[i] > 0.0
    ensures forall i :: 0 <= i < |xs| ==> xs[i] <= SumR(xs)
    ensures xs != [] ==> SumR(xs) > 0.0
  {
    if xs != [] {
      SumAtLeastEach(xs[1..]);
      forall i | 1 <= i < |xs| ensures xs[i] <= SumR(xs) {
        assert xs[1..][i - 1] == xs[i];
      }
      if xs[1..] == [] {
        assert SumR(xs[1..]) == 0.0;
      }
    }
  }

  lemma {:induction false} SumScaled(xs: seq<real>, d: real)
    requires d > 0.0
    ensures SumR(seq(|xs|, i requires 0 <= i < |xs| => xs[i] / d)) == SumR(xs) / d
  {
    var ys := seq(|xs|, i requires 0 <= i < |xs| => xs[i] / d);
    if xs != [] {
      SumScaled(xs[1..], d);
      assert ys[1..] == seq(|xs[1..]|, i requires 0 <= i < |xs[1..]| => xs[1..][i] / d);
    }
  }

  lemma {:induction false} FractionBounds(a: real, b: real)
    requires 0.0 < a <= b
    ensures 0.0 < a / b <= 1.0 && b / b == 1.0
  {
    var r := a / b;
    assert r * b == a;
    assert (1.0 - r) * b == b - a;
  }

  /** Normalised log-probabilities always pass the validator and score within [0,1], so with a
      positive exponential the classifier path never fails. */
  lemma {:induction false} NormalizedNeverFails(xs: seq<real>, exp: real -> real, mass: real)
    requires |xs| == 4 && forall x: real :: exp(x) > 0.0
    ensures NormalizeChoices(xs, exp).Some? && Classified(Choice(NormalizeChoices(xs, exp).value, mass)).Ok?
  {
    var es := Exps(xs, Largest(xs), exp);
    SumAtLeastEach(es);
    var total := SumR(es);
    var ps := NormalizeChoices(xs, exp).value;
    SumScaled(es, total);
    forall i | 0 <= i < 4 ensures 0.0 < ps[i] <= 1.0 {
      FractionBounds(es[i], total);
    }
    FractionBounds(total, total);
    assert SumR(ps) == 1.0;
    SumOfFour(ps);
  }

  lemma {:induction false} SumOfFour(ps: seq<real>)
    requires |ps| == 4
    ensures SumR(ps) == ps[0] + ps[1] + ps[2] + ps[3]
  {
    assert ps[1..][1..][1..][1..] == [];
    assert SumR(ps[1..][1..][1..]) == ps[3];
    assert SumR(ps[1..][1..]) == ps[2] + ps[3];
  }

  // ---------------------------------------------------------------- what one score means

  /** Four fractions whose sum is 1 up to one part in a hundred thousand of the larger of the two. */
  predicate Probabilities(ps: seq<real>) {
    && |ps| == 4 && (forall i :: 0 <= i < 4 ==> 0.0 <= ps[i] <= 1.0)
    && var sum := ps[0] + ps[1] + ps[2] + ps[3]; 0.99999 <= sum && 0.99999 * sum <= 1.0
  }

  /** A blank side scores 0 as a sure D, equal texts score 1 as a sure A. Otherwise the classifier's
      probabilities count A once, B half, C a quarter and D not at all, and an answer whose numbers
      are no probabilities, or whose score would pass 1, is refused. */
  lemma {:induction false} SingleMeaning(p: Pair, normalize: string -> string, classify: Pair -> Choice)
    ensures var (a, b) := (normalize(p.0), normalize(p.1));
      var ps, mass := classify(p).probabilities, classify(p).mass;
      && (a == "" || b == "" ==> Single(p, normalize, classify) == Ok(SummaryScore(0.0, [0.0, 0.0, 0.0, 1.0], 1.0)))
      && (a != "" && a == b ==> Single(p, normalize, classify) == Ok(SummaryScore(1.0, [1.0, 0.0, 0.0, 0.0], 1.0)))
      && (a != "" && b != "" && a != b ==>
            (if Probabilities(ps) && 4.0 * ps[0] + 2.0 * ps[1] + ps[2] <= 4.0 then
               exists x :: 4.0 * x == 4.0 * ps[0] + 2.0 * ps[1] + ps[2] && ScoredAs(p, x, normalize, classify)
             else Single(p, normalize, classify).Err?))
  {
    var ps := classify(p).probabilities;
    if |ps| == 4 {
      SumOfFour(ps);
      CloseToOne(ps);
      assert Weighted(ps) * 4.0 == 4.0 * ps[0] + 2.0 * ps[1] + ps[2];
    }
    if normalize(p.0) != "" && normalize(p.1) != "" && normalize(p.0) != normalize(p.1) && Probabilities(ps)
       && 4.0 * ps[0] + 2.0 * ps[1] + ps[2] <= 4.0 {
      assert ScoredAs(p, Weighted(ps), normalize, classify);
    }
  }

  ghost predicate ScoredAs(p: Pair, x: real, normalize: string -> string, classify: Pair -> Choice) {
    Single(p, normalize, classify) == Ok(SummaryScore(x, classify(p).probabilities, classify(p).mass))
  }

  lemma {:induction false} CloseToOne(ps: seq<real>)
    requires |ps| == 4
    ensures ValidProbabilities(ps) <==> Probabilities(ps)
  {
    SumOfFour(ps);
  }

  // ---------------------------------------------------------------- what normalisation means

  ghost predicate Adds(exp: real -> real, x: real, y: real) {
    exp(x) > 0.0 && exp(x) * exp(y) == exp(x + y)
  }

  ghost predicate Exponential(exp: real -> real) {
    forall x, y :: Adds(exp, x, y)
  }

  lemma {:induction false} ShiftBack(x: real, shift: real, exp: real -> real)
    requires Exponential(exp)
    ensures exp(x - shift) * exp(shift) == exp(x)
  {
    assert Adds(exp, x - shift, shift);
    assert x - shift + shift == x;
  }

  lemma {:induction false} ShiftedSum(xs: seq<real>, shift: real, exp: real -> real)
    requires Exponential(exp)
    ensures SumR(Exps(xs, shift, exp)) * exp(shift) == SumR(Exps(xs, 0.0, exp))
  {
    if xs != [] {
      ShiftedSum(xs[1..], shift, exp);
      ShiftBack(xs[0], shift, exp);
      ExpsCons(xs, shift, exp);
      ExpsCons(xs, 0.0, exp);
      Distribute(exp(xs[0] - shift), SumR(Exps(xs[1..], shift, exp)), exp(shift));
      assert xs[0] - 0.0 == xs[0];
    }
  }

  lemma {:induction false} Distribute(a: real, b: real, c: real)
    ensures (a + b) * c == a * c + b * c
  {
  }

  lemma {:induction false} ExpsCons(xs: seq<real>, shift: real, exp: real -> real)
    requires xs != []
    ensures SumR(Exps(xs, shift, exp)) == exp(xs[0] - shift) + SumR(Exps(xs[1..], shift, exp))
  {
    assert Exps(xs, shift, exp)[1..] == Exps(xs[1..], shift, exp);
  }

  lemma {:induction false} SameFraction(a: real, b: real, c: real)
    requires b > 0.0 && c > 0.0
    ensures a / b * (b * c) == a * c
  {
    var r := a / b;
    assert r * b == a;
    assert r * (b * c) == (r * b) * c;
  }

  lemma {:induction false} ExpsPositive(xs: seq<real>, shift: real, exp: real -> real)
    requires Exponential(exp)
    ensures xs != [] ==> SumR(Exps(xs, shift, exp)) > 0.0
  {
    var es := Exps(xs, shift, exp);
    forall i | 0 <= i < |es| ensures es[i] > 0.0 {
      assert Adds(exp, xs[i] - shift, 0.0);
    }
    SumAtLeastEach(es);
  }

  lemma {:induction false} NormalizedAt(xs: seq<real>, i: nat, exp: real -> real)
    requires i < |xs| && SumR(Exps(xs, Largest(xs), exp)) > 0.0
    ensures var r := NormalizeChoices(xs, exp);
      r.Some? && |r.value| == |xs| && r.value[i] == exp(xs[i] - Largest(xs)) / SumR(Exps(xs, Largest(xs), exp))
  {
  }

  lemma {:induction false} FractionUnshifted(p: real, e: real, sum: real, scale: real, e': real, sum': real)
    requires sum > 0.0 && scale > 0.0 && p == e / sum && e * scale == e' && sum * scale == sum'
    ensures p * sum' == e'
  {
    SameFraction(e, sum, scale);
  }

  /** Each probability times the sum of the exponentials is the label's own exponential: the shift by
      the largest log-probability does not show. */
  lemma {:induction false} NormalizedMeaning(xs: seq<real>, i: nat, exp: real -> real)
    requires i < |xs| && Exponential(exp)
    ensures var r := NormalizeChoices(xs, exp);
      r.Some? && |r.value| == |xs| && r.value[i] * SumR(seq(|xs|, k requires 0 <= k < |xs| => exp(xs[k]))) == exp(xs[i])
  {
    var shift := Largest(xs);
    ExpsPositive(xs, shift, exp);
    NormalizedAt(xs, i, exp);
    ShiftedSum(xs, shift, exp);
    ShiftBack(xs[i], shift, exp);
    assert Adds(exp, shift, 0.0);
    assert Exps(xs, 0.0, exp) == seq(|xs|, k requires 0 <= k < |xs| => exp(xs[k]));
    FractionUnshifted(NormalizeChoices(xs, exp).value[i], exp(xs[i] - shift), SumR(Exps(xs, shift, exp)), exp(shift),
      exp(xs[i]), SumR(Exps(xs, 0.0, exp)));
  }
}
