/** The dynamic batcher of reward_model_server.py as interleaved atomic steps: clients put
    requests and may abort or close at any time while one thread collects, scores and delivers.
    A request is named by its arrival number. */
module Batcher {
  import opened Prelude

  datatype Outcome<+W> = Pending | Delivered(value: W) | Failed

  /** A batch the model scored: the requests and the raw score at each position. */
  datatype Scored<+S> = Scored(ids: seq<nat>, scores: seq<S>)

  datatype Phase = Idle | Polling | Collecting | Scoring | Delivering | Draining | FailingActive | Exited

  datatype State<+S, +W> = State(
    phase: Phase,
    queue: seq<nat>,
    batch: seq<nat>,           // the active batch of the thread
    done: nat,                 // how many of it have their future set
    results: seq<W>,           // validated scores while delivering
    futures: seq<Outcome<W>>,  // by arrival number
    fatal: bool,
    stop: bool,
    passed: nat,               // submitters past the check that have not put yet
    drainers: nat,             // aborting callers that have not seen the queue empty yet
    history: seq<Scored<S>>)

  datatype Event<+S> =
    | Check | Put | Close | Abort | DrainOne | DrainEmpty
    | CheckStop | PollTimeout | GetFirst | GetMore | WindowOver
    | ScoresBack(scores: Option<seq<S>>)   // None when the model call raised
    | DeliverOne | DrainedOwn | FailOne

  function Init<S, W>(): State<S, W> {
    State(Idle, [], [], 0, [], [], false, false, 0, 0, [])
  }

  /** All scores validated, or None as soon as one raises. */
  function Validated<S, W>(scores: seq<S>, validate: S -> Option<W>): (r: Option<seq<W>>)
    ensures r.Some? ==> |r.value| == |scores| && forall i :: 0 <= i < |scores| ==> validate(scores[i]) == Some(r.value[i])
  {
    if scores == [] then Some([])
    else
      match validate(scores[0])
      case None => None
      case Some(w) =>
        match Validated(scores[1..], validate)
        case None => None
        case Some(ws) => Some([w] + ws)
  }

  lemma {:induction false} ValidatedIff<S, W>(scores: seq<S>, validate: S -> Option<W>)
    ensures Validated(scores, validate).Some? <==> forall p :: 0 <= p < |scores| ==> validate(scores[p]).Some?
  {
    if scores != [] {
      ValidatedIff(scores[1..], validate);
      assert forall p :: 1 <= p < |scores| ==> scores[p] == scores[1..][p - 1];
    }
  }

  /** The model answered with one valid score for each request of the batch. */
  ghost predicate AnswersAll<S, W>(batch: seq<nat>, answer: Option<seq<S>>, validate: S -> Option<W>) {
    answer.Some? && |answer.value| == |batch| && forall p :: 0 <= p < |batch| ==> validate(answer.value[p]).Some?
  }

  /** One atomic step; None when it cannot happen in this state, or when it would raise: submitting to
      a stopped batcher, or delivering to a future that is already set. The check of a submit reads
      the fatal error and then the stop flag; both are never reset and an abort sets the error
      first, so both reads agree with the state at the first of them. */
  function Next<S, W>(s: State<S, W>, e: Event<S>, max: nat, validate: S -> Option<W>): Option<State<S, W>> {
    match e
    case Check => if s.fatal || s.stop then None else Some(s.(passed := s.passed + 1))
    case Put =>
      if s.passed > 0 then
        Some(s.(queue := s.queue + [|s.futures|], futures := s.futures + [Pending], passed := s.passed - 1))
      else None
    case Close => Some(s.(stop := true))
    case Abort => Some(s.(fatal := true, stop := true, drainers := s.drainers + 1))
    case DrainEmpty => if s.drainers > 0 && s.queue == [] then Some(s.(drainers := s.drainers - 1)) else None
    case DrainOne =>
      if (s.drainers > 0 || s.phase.Draining?) && s.queue != [] && s.queue[0] < |s.futures| then
        var id := s.queue[0];
        Some(s.(queue := s.queue[1..],
                futures := if s.futures[id].Pending? then s.futures[id := Failed] else s.futures))
      else None
    case CheckStop => if s.phase.Idle? then Some(s.(phase := if s.stop then Exited else Polling)) else None
    case PollTimeout => if s.phase.Polling? then Some(s.(phase := Idle)) else None
    case GetFirst =>
      if s.phase.Polling? && s.queue != [] then
        Some(s.(phase := Collecting, batch := [s.queue[0]], queue := s.queue[1..], done := 0))
      else None
    case GetMore =>
      if s.phase.Collecting? && |s.batch| < max && s.queue != [] then
        Some(s.(batch := s.batch + [s.queue[0]], queue := s.queue[1..]))
      else None
    case WindowOver => if s.phase.Collecting? then Some(s.(phase := Scoring)) else None
    case ScoresBack(r) =>
      if !s.phase.Scoring? then None
      else if r.Some? && |r.value| == |s.batch| && Validated(r.value, validate).Some? then
        Some(s.(phase := Delivering, results := Validated(r.value, validate).value,
                history := s.history + [Scored(s.batch, r.value)]))
      else Some(s.(phase := Draining, fatal := true, stop := true))
    case DeliverOne =>
      if s.phase.Delivering? && s.done < |s.batch| && s.done < |s.results|
         && s.batch[s.done] < |s.futures| && s.futures[s.batch[s.done]].Pending? then
        var t := s.(futures := s.futures[s.batch[s.done] := Delivered(s.results[s.done])], done := s.done + 1);
        Some(if t.done == |s.batch| then t.(phase := Idle, batch := [], done := 0, results := []) else t)
      else None
    case DrainedOwn => if s.phase.Draining? && s.queue == [] then Some(s.(phase := FailingActive)) else None
    case FailOne =>
      if s.phase.FailingActive? && s.done < |s.batch| && s.batch[s.done] < |s.futures| then
        var id := s.batch[s.done];
        var t := s.(futures := if s.futures[id].Pending? then s.futures[id := Failed] else s.futures, done := s.done + 1);
        Some(if t.done == |s.batch| then t.(phase := Exited, batch := [], done := 0) else t)
      else None
  }

  // ---------------------------------------------------------------- the invariant

  ghost predicate Increasing(xs: seq<nat>) {
    forall i, j :: 0 <= i < j < |xs| ==> xs[i] < xs[j]
  }

  function ScoredIds<S>(h: seq<Scored<S>>): seq<nat> {
    if h == [] then [] else ScoredIds(h[..|h| - 1]) + h[|h| - 1].ids
  }

  function Unrecorded<S, W>(s: State<S, W>): seq<nat> {
    if s.phase.Delivering? then [] else s.batch
  }

  /** Scored batches, the batch in hand and the queue together are in arrival order. */
  ghost predicate InArrivalOrder<S, W>(s: State<S, W>) {
    OrderedBelow(ScoredIds(s.history) + (Unrecorded(s) + s.queue), |s.futures|)
  }

  /** A future is unset exactly while its request is queued or in the unfinished part of the batch. */
  ghost predicate Located<S, W>(s: State<S, W>) {
    && s.done <= |s.batch|
    && forall id :: 0 <= id < |s.futures| ==>
         (s.futures[id].Pending? <==> id in s.queue || id in s.batch[s.done..])
  }

  ghost predicate GoodBatch<S, W>(h: Scored<S>, max: nat, validate: S -> Option<W>) {
    && 1 <= |h.ids| <= max && |h.scores| == |h.ids|
    && forall p :: 0 <= p < |h.scores| ==> validate(h.scores[p]).Some?
  }

  /** What is being delivered are the validated scores of the batch recorded last. */
  ghost predicate DeliversLast<S, W>(s: State<S, W>, validate: S -> Option<W>) {
    && s.history != [] && |s.results| == |s.batch|
    && var last := s.history[|s.history| - 1];
       && last.ids == s.batch && |last.scores| == |s.batch|
       && forall p :: 0 <= p < |s.batch| ==> validate(last.scores[p]) == Some(s.results[p])
  }

  ghost predicate Shape<S, W>(s: State<S, W>, max: nat, validate: S -> Option<W>) {
    && (forall k :: 0 <= k < |s.history| ==> GoodBatch(s.history[k], max, validate))
    && (s.phase.Idle? || s.phase.Polling? || s.phase.Exited? ==> s.batch == [] && s.done == 0)
    && (s.phase.Collecting? || s.phase.Scoring? || s.phase.Draining? ==> 1 <= |s.batch| <= max && s.done == 0)
    && (s.phase.Delivering? ==> s.done < |s.batch| && DeliversLast(s, validate))
    && (s.phase.FailingActive? ==> s.done < |s.batch| && s.fatal)
    && (s.phase.Draining? ==> s.fatal) && (s.fatal ==> s.stop)
    && (s.drainers > 0 ==> s.fatal) && (s.phase.Exited? ==> s.stop)
  }

  /** A delivered value is the validated score at the request's own position of its batch. */
  ghost predicate OwnScore<S, W>(id: nat, w: W, h: Scored<S>, validate: S -> Option<W>) {
    exists p :: 0 <= p < |h.ids| && p < |h.scores| && h.ids[p] == id && validate(h.scores[p]) == Some(w)
  }

  ghost predicate Honest<S, W>(s: State<S, W>, validate: S -> Option<W>) {
    forall id :: 0 <= id < |s.futures| && s.futures[id].Delivered? ==>
      exists k :: 0 <= k < |s.history| && OwnScore(id, s.futures[id].value, s.history[k], validate)
  }

  ghost predicate Inv<S, W>(s: State<S, W>, max: nat, validate: S -> Option<W>) {
    Shape(s, max, validate) && InArrivalOrder(s) && Located(s) && Honest(s, validate)
  }

  // ---------------------------------------------------------------- every step keeps it

  lemma {:induction false} ScoredIdsSnoc<S>(h: seq<Scored<S>>, x: Scored<S>)
    ensures ScoredIds(h + [x]) == ScoredIds(h) + x.ids
  {
    assert (h + [x])[..|h|] == h;
  }

  /** The order argument depends on the concatenation alone. */
  lemma {:induction false} SameOrder<S, W>(s: State<S, W>, t: State<S, W>)
    requires InArrivalOrder(s) && |s.futures| <= |t.futures|
    requires ScoredIds(t.history) + (Unrecorded(t) + t.queue) == ScoredIds(s.history) + (Unrecorded(s) + s.queue)
    ensures InArrivalOrder(t)
  {
  }

  lemma {:induction false} OrderOfParts<S, W>(s: State<S, W>)
    requires InArrivalOrder(s)
    ensures Increasing(ScoredIds(s.history)) && Increasing(Unrecorded(s)) && Increasing(s.queue)
    ensures forall x, y :: x in Unrecorded(s) && y in s.queue ==> x < y
    ensures forall x, y :: x in ScoredIds(s.history) && y in s.queue ==> x < y
    ensures forall x :: x in s.queue ==> x < |s.futures|
    ensures forall x :: x in Unrecorded(s) ==> x < |s.futures|
    ensures forall x :: x in ScoredIds(s.history) ==> x < |s.futures|
  {
    SplitIncreasing(ScoredIds(s.history), Unrecorded(s) + s.queue, |s.futures|);
    SplitIncreasing(Unrecorded(s), s.queue, |s.futures|);
    forall y | y in s.queue ensures y in Unrecorded(s) + s.queue {
    }
  }

  lemma {:induction false} SplitIncreasing(a: seq<nat>, b: seq<nat>, n: nat)
    requires Increasing(a + b) && forall i :: 0 <= i < |a + b| ==> (a + b)[i] < n
    ensures Increasing(a) && Increasing(b)
    ensures forall x, y :: x in a && y in b ==> x < y
    ensures (forall i :: 0 <= i < |a| ==> a[i] < n) && (forall i :: 0 <= i < |b| ==> b[i] < n)
  {
    var c := a + b;
    forall i, j | 0 <= i < j < |b| ensures b[i] < b[j] {
      assert c[|a| + i] < c[|a| + j];
    }
    forall i, j | 0 <= i < j < |a| ensures a[i] < a[j] {
      assert c[i] < c[j];
    }
    forall i, j | 0 <= i < |a| && 0 <= j < |b| ensures a[i] < b[j] {
      assert c[i] < c[|a| + j];
    }
    forall j | 0 <= j < |b| ensures b[j] < n {
      assert c[|a| + j] < n;
    }
    forall i | 0 <= i < |a| ensures a[i] < n {
      assert c[i] < n;
    }
  }

  lemma {:induction false} JoinIncreasing(a: seq<nat>, b: seq<nat>)
    requires Increasing(a) && Increasing(b) && forall x, y :: x in a && y in b ==> x < y
    ensures Increasing(a + b)
  {
    var c := a + b;
    forall i, j | 0 <= i < j < |c| ensures c[i] < c[j] {
      if i < |a| <= j {
        assert c[i] in a && c[j] in b;
      }
    }
  }

  ghost predicate OrderedBelow(xs: seq<nat>, n: nat) {
    Increasing(xs) && forall i :: 0 <= i < |xs| ==> xs[i] < n
  }

  lemma {:induction false} DropMiddle(a: seq<nat>, m: seq<nat>, b: seq<nat>, n: nat)
    requires OrderedBelow(a + (m + b), n)
    ensures OrderedBelow(a + b, n)
  {
    SplitIncreasing(a, m + b, n);
    SplitIncreasing(m, b, n);
    forall y | y in b ensures y in m + b {
    }
    JoinIncreasing(a, b);
  }

  lemma {:induction false} InTail(xs: seq<nat>, k: nat, x: nat)
    requires k <= |xs| && x in xs[k..]
    ensures x in xs
  {
  }

  lemma {:induction false} HeadNotInTail(xs: seq<nat>, k: nat)
    requires Increasing(xs) && k < |xs|
    ensures xs[k] !in xs[k + 1..] && xs[k..] == [xs[k]] + xs[k + 1..]
  {
    var tail := xs[k + 1..];
    forall j | 0 <= j < |tail| ensures tail[j] != xs[k] {
      assert tail[j] == xs[k + 1 + j];
    }
  }

  /** The batch of a delivering thread is the last scored one, so it lies before the queue too. */
  lemma {:induction false} BatchBeforeQueue<S, W>(s: State<S, W>, max: nat, validate: S -> Option<W>)
    requires Shape(s, max, validate) && InArrivalOrder(s)
    ensures Increasing(s.batch)
    ensures forall x, y :: x in s.batch && y in s.queue ==> x < y
    ensures forall x :: x in s.batch || x in s.queue ==> x < |s.futures|
    ensures Increasing(s.queue)
  {
    OrderOfParts(s);
    if s.phase.Delivering? {
      var n := |s.history| - 1;
      assert ScoredIds(s.history) == ScoredIds(s.history[..n]) + s.batch;
      forall i | 0 <= i < |ScoredIds(s.history)| ensures ScoredIds(s.history)[i] < |s.futures| {
        assert ScoredIds(s.history)[i] in ScoredIds(s.history);
      }
      SplitIncreasing(ScoredIds(s.history[..n]), s.batch, |s.futures|);
      forall x | x in s.batch ensures x in ScoredIds(s.history) {
      }
    }
  }

  lemma {:induction false} PutOrder<S, W>(s: State<S, W>, t: State<S, W>, max: nat, validate: S -> Option<W>)
    requires InArrivalOrder(s) && Next(s, Put, max, validate) == Some(t)
    ensures InArrivalOrder(t)
  {
    var all := ScoredIds(s.history) + (Unrecorded(s) + s.queue);
    assert ScoredIds(t.history) + (Unrecorded(t) + t.queue) == all + [|s.futures|];
  }

  lemma {:induction false} PutLocated<S, W>(s: State<S, W>, t: State<S, W>, max: nat, validate: S -> Option<W>)
    requires Shape(s, max, validate) && InArrivalOrder(s) && Located(s) && Next(s, Put, max, validate) == Some(t)
    ensures Located(t)
  {
    var n := |s.futures|;
    BatchBeforeQueue(s, max, validate);
    assert n !in s.queue && n !in s.batch[s.done..];
  }

  lemma {:induction false} PutStep<S, W>(s: State<S, W>, t: State<S, W>, max: nat, validate: S -> Option<W>)
    requires Inv(s, max, validate) && Next(s, Put, max, validate) == Some(t)
    ensures Inv(t, max, validate)
  {
    PutOrder(s, t, max, validate);
    PutLocated(s, t, max, validate);
  }

  lemma {:induction false} DrainLocated<S, W>(s: State<S, W>, t: State<S, W>, max: nat, validate: S -> Option<W>)
    requires Inv(s, max, validate) && Next(s, DrainOne, max, validate) == Some(t)
    ensures Located(t)
  {
    var id := s.queue[0];
    BatchBeforeQueue(s, max, validate);
    HeadNotInTail(s.queue, 0);
    assert id in s.queue && id !in t.queue;
    if id in s.batch[s.done..] {
      InTail(s.batch, s.done, id);
      assert false;
    }
  }

  lemma {:induction false} DrainStep<S, W>(s: State<S, W>, t: State<S, W>, max: nat, validate: S -> Option<W>)
    requires Inv(s, max, validate) && Next(s, DrainOne, max, validate) == Some(t)
    ensures Inv(t, max, validate)
  {
    DrainLocated(s, t, max, validate);
    var before, id := ScoredIds(s.history) + Unrecorded(s), s.queue[0];
    assert s.queue == [id] + t.queue;
    assert ScoredIds(s.history) + (Unrecorded(s) + s.queue) == before + ([id] + t.queue);
    DropMiddle(before, [id], t.queue, |s.futures|);
    assert ScoredIds(t.history) + (Unrecorded(t) + t.queue) == before + t.queue;
  }

  lemma {:induction false} GetOrder<S, W>(s: State<S, W>, t: State<S, W>, e: Event<S>, max: nat,
        validate: S -> Option<W>)
    requires Inv(s, max, validate) && (e.GetFirst? || e.GetMore?) && Next(s, e, max, validate) == Some(t)
    ensures InArrivalOrder(t)
  {
    assert s.queue == [s.queue[0]] + t.queue;
    assert Unrecorded(t) + t.queue == Unrecorded(s) + s.queue;
    SameOrder(s, t);
  }

  lemma {:induction false} GetLocated<S, W>(s: State<S, W>, t: State<S, W>, e: Event<S>, max: nat,
        validate: S -> Option<W>)
    requires Shape(s, max, validate) && Located(s) && (e.GetFirst? || e.GetMore?) && Next(s, e, max, validate) == Some(t)
    ensures Located(t)
  {
    assert s.queue == [s.queue[0]] + t.queue;
    assert t.batch[t.done..] == s.batch[s.done..] + [s.queue[0]];
  }

  lemma {:induction false} GetStep<S, W>(s: State<S, W>, t: State<S, W>, e: Event<S>, max: nat,
        validate: S -> Option<W>)
    requires Inv(s, max, validate) && max > 0 && (e.GetFirst? || e.GetMore?) && Next(s, e, max, validate) == Some(t)
    ensures Inv(t, max, validate)
  {
    GetOrder(s, t, e, max, validate);
    GetLocated(s, t, e, max, validate);
  }

  lemma {:induction false} ScoresStep<S, W>(s: State<S, W>, t: State<S, W>, e: Event<S>, max: nat,
        validate: S -> Option<W>)
    requires Inv(s, max, validate) && e.ScoresBack? && Next(s, e, max, validate) == Some(t)
    ensures Inv(t, max, validate)
  {
    if t.phase.Delivering? {
      var h := Scored(s.batch, e.scores.value);
      ScoredIdsSnoc(s.history, h);
      assert ScoredIds(t.history) + (Unrecorded(t) + t.queue) == ScoredIds(s.history) + (s.batch + s.queue);
      SameOrder(s, t);
      assert GoodBatch(h, max, validate);
      forall id | 0 <= id < |t.futures| && t.futures[id].Delivered?
        ensures exists k :: 0 <= k < |t.history| && OwnScore(id, t.futures[id].value, t.history[k], validate)
      {
        var k :| 0 <= k < |s.history| && OwnScore(id, s.futures[id].value, s.history[k], validate);
        assert t.history[k] == s.history[k];
      }
    } else {
      SameOrder(s, t);
    }
  }

  /** Resolving the request at the head of the unfinished batch keeps the futures located. */
  lemma {:induction false} HeadResolved<S, W>(s: State<S, W>, t: State<S, W>)
    requires Located(s) && Increasing(s.batch) && s.done < |s.batch| && s.batch[s.done] < |s.futures|
    requires forall x, y :: x in s.batch && y in s.queue ==> x < y
    requires t.done <= |t.batch| && t.batch[t.done..] == s.batch[s.done + 1..] && t.queue == s.queue
    requires |t.futures| == |s.futures| && !t.futures[s.batch[s.done]].Pending?
    requires forall x :: 0 <= x < |s.futures| && x != s.batch[s.done] ==> t.futures[x] == s.futures[x]
    ensures Located(t)
  {
    var id := s.batch[s.done];
    HeadNotInTail(s.batch, s.done);
    assert id in s.batch;
    assert id !in t.queue && id !in t.batch[t.done..];
  }

  lemma {:induction false} DeliverHonest<S, W>(s: State<S, W>, t: State<S, W>, max: nat, validate: S -> Option<W>)
    requires Inv(s, max, validate) && Next(s, DeliverOne, max, validate) == Some(t)
    ensures Honest(t, validate)
  {
    var id := s.batch[s.done];
    assert OwnScore(id, s.results[s.done], s.history[|s.history| - 1], validate);
    forall x | 0 <= x < |t.futures| && t.futures[x].Delivered?
      ensures exists k :: 0 <= k < |t.history| && OwnScore(x, t.futures[x].value, t.history[k], validate)
    {
      if x != id {
        assert t.futures[x] == s.futures[x];
      }
    }
  }

  lemma {:induction false} DeliverStep<S, W>(s: State<S, W>, t: State<S, W>, max: nat, validate: S -> Option<W>)
    requires Inv(s, max, validate) && Next(s, DeliverOne, max, validate) == Some(t)
    ensures Inv(t, max, validate)
  {
    BatchBeforeQueue(s, max, validate);
    HeadResolved(s, t);
    DeliverHonest(s, t, max, validate);
    assert Unrecorded(t) == [] == Unrecorded(s);
    SameOrder(s, t);
  }

  lemma {:induction false} FailOrder<S, W>(s: State<S, W>, t: State<S, W>, max: nat, validate: S -> Option<W>)
    requires Inv(s, max, validate) && Next(s, FailOne, max, validate) == Some(t)
    ensures InArrivalOrder(t)
  {
    if t.phase.Exited? {
      DropMiddle(ScoredIds(s.history), s.batch, s.queue, |s.futures|);
      assert Unrecorded(t) + t.queue == s.queue;
    } else {
      SameOrder(s, t);
    }
  }

  lemma {:induction false} FailLocated<S, W>(s: State<S, W>, t: State<S, W>, max: nat, validate: S -> Option<W>)
    requires Inv(s, max, validate) && Next(s, FailOne, max, validate) == Some(t)
    ensures Located(t)
  {
    BatchBeforeQueue(s, max, validate);
    assert t.batch[t.done..] == s.batch[s.done + 1..];
    HeadResolved(s, t);
  }

  lemma {:induction false} FailStep<S, W>(s: State<S, W>, t: State<S, W>, max: nat, validate: S -> Option<W>)
    requires Inv(s, max, validate) && Next(s, FailOne, max, validate) == Some(t)
    ensures Inv(t, max, validate)
  {
    FailOrder(s, t, max, validate);
    FailLocated(s, t, max, validate);
  }

  /** `t` is `s` with some of its queue taken out and failed, and nothing else touched. */
  ghost predicate PartlyDrained<S, W>(s: State<S, W>, t: State<S, W>) {
    && t.phase == s.phase && t.batch == s.batch && t.done == s.done && t.history == s.history
    && t.fatal == s.fatal && t.stop == s.stop && t.passed == s.passed && t.drainers == s.drainers
    && |t.futures| == |s.futures| && (forall id :: id in t.queue ==> id in s.queue)
    && forall id :: 0 <= id < |s.futures| ==>
         t.futures[id] == if id in s.queue && id !in t.queue then Failed else s.futures[id]
  }

  lemma {:induction false} HeadIsKnown<S, W>(s: State<S, W>, max: nat, validate: S -> Option<W>)
    requires Inv(s, max, validate) && s.queue != []
    ensures s.queue[0] < |s.futures|
  {
    BatchBeforeQueue(s, max, validate);
    assert s.queue[0] in s.queue;
  }

  lemma {:induction false} ActiveIsKnown<S, W>(s: State<S, W>, max: nat, validate: S -> Option<W>)
    requires Inv(s, max, validate) && s.phase.FailingActive?
    ensures s.done < |s.batch| && s.batch[s.done] < |s.futures|
  {
    BatchBeforeQueue(s, max, validate);
    assert s.batch[s.done] in s.batch;
  }

  lemma {:induction false} DrainMore<S, W>(s0: State<S, W>, s: State<S, W>, t: State<S, W>, max: nat,
        validate: S -> Option<W>)
    requires Inv(s, max, validate) && PartlyDrained(s0, s) && Next(s, DrainOne, max, validate) == Some(t)
    ensures PartlyDrained(s0, t)
  {
    BatchBeforeQueue(s, max, validate);
    HeadNotInTail(s.queue, 0);
    assert s.queue[0] in s.queue;
  }

  /** The futures after the results at positions `lo..hi` of the batch have been set. */
  function Set<W>(futures: seq<Outcome<W>>, batch: seq<nat>, results: seq<W>, lo: nat, hi: nat): (r: seq<Outcome<W>>)
    requires lo <= hi <= |batch| == |results|
    ensures |r| == |futures|
    decreases hi - lo
  {
    if lo == hi then futures
    else
      var before := Set(futures, batch, results, lo, hi - 1);
      if batch[hi - 1] < |before| then before[batch[hi - 1] := Delivered(results[hi - 1])] else before
  }

  /** Setting results position by position gives each request of the batch the result at its own
      position and leaves every other future alone. */
  lemma {:induction false} SetMeaning<W>(futures: seq<Outcome<W>>, batch: seq<nat>, results: seq<W>, lo: nat, hi: nat)
    requires lo <= hi <= |batch| == |results| && Increasing(batch)
    ensures forall p :: lo <= p < hi && batch[p] < |futures|
                        ==> Set(futures, batch, results, lo, hi)[batch[p]] == Delivered(results[p])
    ensures forall id :: 0 <= id < |futures| && id !in batch[lo..hi]
                         ==> Set(futures, batch, results, lo, hi)[id] == futures[id]
    decreases hi - lo
  {
    if lo < hi {
      SetMeaning(futures, batch, results, lo, hi - 1);
      assert batch[lo..hi] == batch[lo..hi - 1] + [batch[hi - 1]];
    }
  }

  /** From `s`, the results at positions up to `d` have been set, and nothing else. */
  ghost predicate PartlyDelivered<S, W>(s: State<S, W>, t: State<S, W>, d: nat) {
    && s.done <= d <= |s.batch| == |s.results| && t.queue == s.queue
    && (if d == |s.batch| then t.phase.Idle?
        else t.phase.Delivering? && t.batch == s.batch && t.results == s.results && t.done == d)
    && t.futures == Set(s.futures, s.batch, s.results, s.done, d) && t.fatal == s.fatal && t.stop == s.stop
  }

  lemma {:induction false} DeliverMore<S, W>(s0: State<S, W>, s: State<S, W>, t: State<S, W>, d: nat, max: nat,
        validate: S -> Option<W>)
    requires d < |s0.batch| && PartlyDelivered(s0, s, d) && Next(s, DeliverOne, max, validate) == Some(t)
    ensures PartlyDelivered(s0, t, d + 1)
  {
  }

  /** From `s` to `t` every request of the batch got the validated score at its own position, and
      nothing else happened. */
  ghost predicate BatchDelivered<S, W>(s: State<S, W>, t: State<S, W>, scores: seq<S>, validate: S -> Option<W>) {
    && t.phase.Idle? && t.fatal == s.fatal && t.stop == s.stop && t.queue == s.queue && |t.futures| == |s.futures|
    && |scores| == |s.batch|
    && (forall p :: 0 <= p < |s.batch| ==>
          && s.batch[p] < |s.futures| && validate(scores[p]).Some?
          && t.futures[s.batch[p]] == Delivered(validate(scores[p]).value))
    && forall id :: 0 <= id < |s.futures| && id !in s.batch ==> t.futures[id] == s.futures[id]
  }

  /** From `s` to `t` everything queued and everything in the batch failed, nothing else did, and the
      thread is gone. */
  ghost predicate AllFailedFatally<S, W>(s: State<S, W>, t: State<S, W>) {
    && t.phase.Exited? && t.fatal && t.stop && t.queue == [] && |t.futures| == |s.futures|
    && forall id :: 0 <= id < |s.futures| ==>
         t.futures[id] == if id in s.queue || id in s.batch then Failed else s.futures[id]
  }

  /** What setting all results of an accepted answer amounts to. */
  lemma {:induction false} AllDelivered<S, W>(s: State<S, W>, accepted: State<S, W>, t: State<S, W>, scores: seq<S>,
      max: nat, validate: S -> Option<W>)
    requires Inv(s, max, validate) && s.phase.Scoring? && AnswersAll(s.batch, Some(scores), validate)
    requires Next(s, ScoresBack(Some(scores)), max, validate) == Some(accepted)
    requires PartlyDelivered(accepted, t, |s.batch|) && t.fatal == s.fatal && t.stop == s.stop
    ensures BatchDelivered(s, t, scores, validate)
  {
    ValidatedIff(scores, validate);
    BatchBeforeQueue(s, max, validate);
    SetMeaning(s.futures, s.batch, accepted.results, 0, |s.batch|);
    assert s.batch[0..|s.batch|] == s.batch;
    forall p | 0 <= p < |s.batch| ensures s.batch[p] < |s.futures| {
      assert s.batch[p] in s.batch;
    }
  }

  /** The futures after the still pending requests at positions `lo..hi` of the batch have failed. */
  function Fail<W>(futures: seq<Outcome<W>>, batch: seq<nat>, lo: nat, hi: nat): (r: seq<Outcome<W>>)
    requires lo <= hi <= |batch|
    ensures |r| == |futures|
    decreases hi - lo
  {
    if lo == hi then futures
    else
      var before := Fail(futures, batch, lo, hi - 1);
      if batch[hi - 1] < |before| && before[batch[hi - 1]].Pending? then before[batch[hi - 1] := Failed] else before
  }

  lemma {:induction false} FailMeaning<W>(futures: seq<Outcome<W>>, batch: seq<nat>, lo: nat, hi: nat)
    requires lo <= hi <= |batch|
    ensures forall id :: 0 <= id < |futures| ==>
      Fail(futures, batch, lo, hi)[id] == if id in batch[lo..hi] && futures[id].Pending? then Failed else futures[id]
    decreases hi - lo
  {
    if lo < hi {
      FailMeaning(futures, batch, lo, hi - 1);
      assert batch[lo..hi] == batch[lo..hi - 1] + [batch[hi - 1]];
    }
  }

  /** From `s`, the requests of the batch up to position `d` have failed, and nothing else changed. */
  ghost predicate PartlyFailed<S, W>(s: State<S, W>, t: State<S, W>, d: nat) {
    && s.done <= d <= |s.batch| && t.queue == s.queue && t.fatal == s.fatal && t.stop == s.stop
    && (if d == |s.batch| then t.phase.Exited? else t.phase.FailingActive? && t.batch == s.batch && t.done == d)
    && t.futures == Fail(s.futures, s.batch, s.done, d)
  }

  lemma {:induction false} FailMore<S, W>(s0: State<S, W>, s: State<S, W>, t: State<S, W>, d: nat, max: nat,
        validate: S -> Option<W>)
    requires d < |s0.batch| && PartlyFailed(s0, s, d) && Next(s, FailOne, max, validate) == Some(t)
    ensures PartlyFailed(s0, t, d + 1)
  {
  }

  /** A drained queue and a failed batch together: exactly the requests of the two have failed. */
  lemma {:induction false} AllFailed<S, W>(s: State<S, W>, drained: State<S, W>, max: nat, validate: S -> Option<W>)
    requires Inv(s, max, validate) && s.done == 0 && PartlyDrained(s, drained) && drained.queue == []
    ensures forall id :: 0 <= id < |s.futures| ==>
      Fail(drained.futures, s.batch, 0, |s.batch|)[id]
      == if id in s.queue || id in s.batch then Failed else s.futures[id]
  {
    FailMeaning(drained.futures, s.batch, 0, |s.batch|);
    assert s.batch[0..|s.batch|] == s.batch == s.batch[s.done..];
  }

  /** Steps that move no request and set no future. */
  lemma {:induction false} FlagStep<S, W>(s: State<S, W>, t: State<S, W>, e: Event<S>, max: nat,
        validate: S -> Option<W>)
    requires max > 0 && Inv(s, max, validate) && Next(s, e, max, validate) == Some(t)
    requires t.queue == s.queue && t.batch == s.batch && t.done == s.done && t.futures == s.futures && t.history == s.history
    requires t.phase.Delivering? == s.phase.Delivering? && t.results == s.results && !e.ScoresBack?
    ensures Inv(t, max, validate)
  {
    SameOrder(s, t);
  }

  /** Every step of every thread keeps the invariant. */
  lemma {:induction false} StepKeepsInv<S, W>(s: State<S, W>, t: State<S, W>, e: Event<S>, max: nat,
        validate: S -> Option<W>)
    requires max > 0 && Inv(s, max, validate) && Next(s, e, max, validate) == Some(t)
    ensures Inv(t, max, validate)
  {
    match e
    case Put => PutStep(s, t, max, validate);
    case DrainOne => DrainStep(s, t, max, validate);
    case GetFirst => GetStep(s, t, e, max, validate);
    case GetMore => GetStep(s, t, e, max, validate);
    case ScoresBack(_) => ScoresStep(s, t, e, max, validate);
    case DeliverOne => DeliverStep(s, t, max, validate);
    case FailOne => FailStep(s, t, max, validate);
    case _ => FlagStep(s, t, e, max, validate);
  }

  /** Once set, a future never changes: no step resolves a request twice. */
  lemma {:induction false} StepKeepsResolved<S, W>(s: State<S, W>, t: State<S, W>, e: Event<S>, max: nat,
        validate: S -> Option<W>, id: nat)
    requires Next(s, e, max, validate) == Some(t)
    requires id < |s.futures| && !s.futures[id].Pending?
    ensures id < |t.futures| && t.futures[id] == s.futures[id]
  {
  }

  // ---------------------------------------------------------------- whole runs

  function RunEvents<S, W>(s: State<S, W>, es: seq<Event<S>>, max: nat, validate: S -> Option<W>): Option<State<S, W>>
    decreases |es|
  {
    if es == [] then Some(s)
    else
      match Next(s, es[0], max, validate)
      case None => None
      case Some(t) => RunEvents(t, es[1..], max, validate)
  }

  lemma {:induction false} RunKeepsInv<S, W>(s: State<S, W>, es: seq<Event<S>>, max: nat, validate: S -> Option<W>)
    requires max > 0 && Inv(s, max, validate) && RunEvents(s, es, max, validate).Some?
    ensures Inv(RunEvents(s, es, max, validate).value, max, validate)
    decreases |es|
  {
    if es != [] {
      var t := Next(s, es[0], max, validate).value;
      StepKeepsInv(s, t, es[0], max, validate);
      RunKeepsInv(t, es[1..], max, validate);
    }
  }

  lemma {:induction false} RunKeepsResolved<S, W>(s: State<S, W>, es: seq<Event<S>>, max: nat,
        validate: S -> Option<W>, id: nat)
    requires RunEvents(s, es, max, validate).Some?
    requires id < |s.futures| && !s.futures[id].Pending?
    ensures var t := RunEvents(s, es, max, validate).value; id < |t.futures| && t.futures[id] == s.futures[id]
    decreases |es|
  {
    if es != [] {
      var t := Next(s, es[0], max, validate).value;
      StepKeepsResolved(s, t, es[0], max, validate, id);
      RunKeepsResolved(t, es[1..], max, validate, id);
    }
  }

  /** How many of the three places a request is in. */
  function Places<S, W>(s: State<S, W>, id: nat): nat
    requires id < |s.futures| && s.done <= |s.batch|
  {
    (if id in s.queue then 1 else 0) + (if id in s.batch[s.done..] then 1 else 0)
    + (if s.futures[id].Pending? then 0 else 1)
  }

  /** In every interleaving from the start, each request is in exactly one place; every scored batch
      has 1 to `max` requests; scoring follows arrival order; and a delivered value is the validated
      score at the request's own position. */
  lemma {:induction false} EveryRunIsSound<S, W>(es: seq<Event<S>>, max: nat, validate: S -> Option<W>)
    requires max > 0 && RunEvents(Init(), es, max, validate).Some?
    ensures var s := RunEvents(Init(), es, max, validate).value;
      && s.done <= |s.batch|
      && (forall id :: 0 <= id < |s.futures| ==> Places(s, id) == 1)
      && (forall k :: 0 <= k < |s.history| ==> GoodBatch(s.history[k], max, validate))
      && Increasing(ScoredIds(s.history))
      && Honest(s, validate)
  {
    assert Inv<S, W>(Init(), max, validate);
    RunKeepsInv(Init(), es, max, validate);
    var s := RunEvents(Init(), es, max, validate).value;
    BatchBeforeQueue(s, max, validate);
    OrderOfParts(s);
    forall id | 0 <= id < |s.futures| ensures Places(s, id) == 1 {
      if id in s.batch[s.done..] {
        InTail(s.batch, s.done, id);
      }
    }
  }

  /** A delivering thread can always go on: setting a result never meets a future already set. */
  lemma {:induction false} DeliveryNeverRaises<S, W>(s: State<S, W>, max: nat, validate: S -> Option<W>)
    requires Inv(s, max, validate) && s.phase.Delivering?
    ensures Next(s, DeliverOne, max, validate).Some?
  {
    BatchBeforeQueue(s, max, validate);
    HeadNotInTail(s.batch, s.done);
    assert s.batch[s.done] in s.batch[s.done..];
    assert s.batch[s.done] in s.batch;
  }

  // ---------------------------------------------------------------- what is not guaranteed

  function Puts<S>(es: seq<Event<S>>): nat {
    if es == [] then 0 else (if es[0].Put? then 1 else 0) + Puts(es[1..])
  }

  /** How often a request is taken out of the queue: by the thread, or by a drain. */
  function Takes<S>(es: seq<Event<S>>): nat {
    if es == [] then 0 else (if es[0].GetFirst? || es[0].GetMore? || es[0].DrainOne? then 1 else 0) + Takes(es[1..])
  }

  function Range(lo: nat, hi: nat): (r: seq<nat>)
    requires lo <= hi
    ensures |r| == hi - lo && forall i :: 0 <= i < |r| ==> r[i] == lo + i
  {
    seq(hi - lo, i requires 0 <= i < hi - lo => lo + i)
  }

  /** The queue holds exactly the requests from number `n` on. */
  ghost predicate QueuedFrom<S, W>(s: State<S, W>, n: nat) {
    n <= |s.futures| && s.queue == Range(n, |s.futures|)
  }

  lemma {:induction false} StepQueuedFrom<S, W>(s: State<S, W>, t: State<S, W>, e: Event<S>, max: nat,
      validate: S -> Option<W>, n: nat)
    requires QueuedFrom(s, n) && Next(s, e, max, validate) == Some(t)
    ensures |t.futures| == |s.futures| + Puts([e]) && QueuedFrom(t, n + Takes([e]))
  {
    assert [e][1..] == [];
  }

  lemma {:induction false} RunQueuedFrom<S, W>(s: State<S, W>, es: seq<Event<S>>, max: nat, validate: S -> Option<W>,
        n: nat)
    requires QueuedFrom(s, n) && RunEvents(s, es, max, validate).Some?
    ensures var t := RunEvents(s, es, max, validate).value;
      |t.futures| == |s.futures| + Puts(es) && QueuedFrom(t, n + Takes(es))
    decreases |es|
  {
    if es != [] {
      var t := Next(s, es[0], max, validate).value;
      StepQueuedFrom(s, t, es[0], max, validate, n);
      assert [es[0]][1..] == [];
      RunQueuedFrom(t, es[1..], max, validate, n + Takes([es[0]]));
    }
  }

  lemma {:induction false} PendingIsQueued<S, W>(s: State<S, W>, max: nat, validate: S -> Option<W>, n: nat, id: nat)
    requires Inv(s, max, validate) && s.phase.Exited? && QueuedFrom(s, n) && id < |s.futures|
    ensures s.futures[id].Pending? <==> n <= id
  {
    if n <= id {
      assert s.queue[id - n] == id;
    }
  }

  /** Once the thread is gone, exactly those requests are unresolved that no step took out of the
      queue: as many as were taken, in arrival order, are resolved, and no others. */
  lemma {:induction false} UnresolvedIff<S, W>(es: seq<Event<S>>, max: nat, validate: S -> Option<W>, id: nat)
    requires max > 0 && RunEvents<S, W>(Init(), es, max, validate).Some? && id < Puts(es)
    requires RunEvents<S, W>(Init(), es, max, validate).value.phase.Exited?
    ensures var s := RunEvents<S, W>(Init(), es, max, validate).value;
      |s.futures| == Puts(es) && (s.futures[id].Pending? <==> Takes(es) <= id)
  {
    var init: State<S, W> := Init();
    assert Inv(init, max, validate) && QueuedFrom(init, 0);
    RunKeepsInv(init, es, max, validate);
    RunQueuedFrom(init, es, max, validate, 0);
    PendingIsQueued(RunEvents(init, es, max, validate).value, max, validate, Takes(es), id);
  }

  lemma {:induction false} RunSplit<S, W>(s: State<S, W>, a: seq<Event<S>>, b: seq<Event<S>>, max: nat,
        validate: S -> Option<W>)
    ensures RunEvents(s, a, max, validate).Some? ==>
      RunEvents(s, a + b, max, validate) == RunEvents(RunEvents(s, a, max, validate).value, b, max, validate)
    ensures RunEvents(s, a, max, validate).None? ==> RunEvents(s, a + b, max, validate).None?
    decreases |a|
  {
    if a == [] {
      assert a + b == b;
    } else {
      assert (a + b)[1..] == a[1..] + b;
      if Next(s, a[0], max, validate).Some? {
        RunSplit(Next(s, a[0], max, validate).value, a[1..], b, max, validate);
      }
    }
  }

  lemma {:induction false} CountsSplit<S>(a: seq<Event<S>>, b: seq<Event<S>>)
    ensures Puts(a + b) == Puts(a) + Puts(b) && Takes(a + b) == Takes(a) + Takes(b)
  {
    if a == [] {
      assert a + b == b;
    } else {
      assert (a + b)[1..] == a[1..] + b;
      CountsSplit(a[1..], b);
    }
  }

  /** A state in the middle of a run from the start, and how its queue stands. */
  lemma {:induction false} Midway<S, W>(pre: seq<Event<S>>, post: seq<Event<S>>, max: nat, validate: S -> Option<W>)
    requires max > 0 && RunEvents<S, W>(Init(), pre + post, max, validate).Some?
    ensures RunEvents<S, W>(Init(), pre, max, validate).Some?
    ensures var mid := RunEvents<S, W>(Init(), pre, max, validate).value;
      && RunEvents(mid, post, max, validate) == RunEvents(Init(), pre + post, max, validate)
      && Inv(mid, max, validate) && |mid.futures| == Puts(pre) && QueuedFrom(mid, Takes(pre))
      && Puts(pre + post) == Puts(pre) + Puts(post) && Takes(pre + post) == Takes(pre) + Takes(post)
  {
    var init: State<S, W> := Init();
    RunSplit(init, pre, post, max, validate);
    CountsSplit(pre, post);
    assert Inv(init, max, validate) && QueuedFrom(init, 0);
    RunKeepsInv(init, pre, max, validate);
    RunQueuedFrom(init, pre, max, validate, 0);
  }

  /** A thread that left through a close alone, without any fatal error, takes nothing and nobody drains. */
  lemma {:induction false} ExitedTakesNothing<S, W>(s: State<S, W>, es: seq<Event<S>>, max: nat,
        validate: S -> Option<W>)
    requires max > 0 && Inv(s, max, validate) && s.phase.Exited? && RunEvents(s, es, max, validate).Some?
    ensures RunEvents(s, es, max, validate).value.phase.Exited?
    ensures s.fatal ==> RunEvents(s, es, max, validate).value.fatal
    ensures !RunEvents(s, es, max, validate).value.fatal ==> Takes(es) == 0
    decreases |es|
  {
    if es != [] {
      var t := Next(s, es[0], max, validate).value;
      StepKeepsInv(s, t, es[0], max, validate);
      ExitedTakesNothing(t, es[1..], max, validate);
    }
  }

  /** Left through a close alone: unresolved are exactly the requests still queued when the thread
      left and those put later. */
  lemma {:induction false} LeftByCloseIff<S, W>(pre: seq<Event<S>>, post: seq<Event<S>>, max: nat,
        validate: S -> Option<W>, id: nat)
    requires max > 0 && RunEvents<S, W>(Init(), pre + post, max, validate).Some? && id < Puts(pre + post)
    requires RunEvents<S, W>(Init(), pre, max, validate).Some?
    requires RunEvents<S, W>(Init(), pre, max, validate).value.phase.Exited?
    requires !RunEvents<S, W>(Init(), pre + post, max, validate).value.fatal
    ensures var mid, s := RunEvents<S, W>(Init(), pre, max, validate).value,
                          RunEvents<S, W>(Init(), pre + post, max, validate).value;
      |s.futures| == Puts(pre + post) && (s.futures[id].Pending? <==> id in mid.queue || Puts(pre) <= id)
  {
    Midway<S, W>(pre, post, max, validate);
    var mid := RunEvents<S, W>(Init(), pre, max, validate).value;
    ExitedTakesNothing(mid, post, max, validate);
    UnresolvedIff<S, W>(pre + post, max, validate, id);
    InRange(Takes(pre), Puts(pre), id);
  }

  lemma {:induction false} InRange(lo: nat, hi: nat, id: nat)
    requires lo <= hi
    ensures id in Range(lo, hi) <==> lo <= id < hi
  {
    if lo <= id < hi {
      assert Range(lo, hi)[id - lo] == id;
    }
  }

  /** Left through a fatal error: from a moment when a drain has found the queue empty, and with no
      drain after it, unresolved are exactly the requests put later that the thread did not collect
      before it left. */
  lemma {:induction false} LeftByFatalIff<S, W>(pre: seq<Event<S>>, post: seq<Event<S>>, max: nat,
        validate: S -> Option<W>, id: nat)
    requires max > 0 && RunEvents<S, W>(Init(), pre + post, max, validate).Some? && id < Puts(pre + post)
    requires pre != [] && (pre[|pre| - 1].DrainEmpty? || pre[|pre| - 1].DrainedOwn?)
    requires forall i :: 0 <= i < |post| ==> !post[i].DrainOne?
    requires RunEvents<S, W>(Init(), pre + post, max, validate).value.phase.Exited?
    ensures var s := RunEvents<S, W>(Init(), pre + post, max, validate).value;
      |s.futures| == Puts(pre + post) && (s.futures[id].Pending? <==> Puts(pre) + ThreadTakes(post) <= id)
  {
    Midway<S, W>(pre, post, max, validate);
    DrainedIsEmpty<S, W>(pre, max, validate);
    UnresolvedIff<S, W>(pre + post, max, validate, id);
    TakesWithoutDrains(post);
  }

  function ThreadTakes<S>(es: seq<Event<S>>): nat {
    if es == [] then 0 else (if es[0].GetFirst? || es[0].GetMore? then 1 else 0) + ThreadTakes(es[1..])
  }

  lemma {:induction false} TakesWithoutDrains<S>(es: seq<Event<S>>)
    requires forall i :: 0 <= i < |es| ==> !es[i].DrainOne?
    ensures Takes(es) == ThreadTakes(es)
  {
    if es != [] {
      TakesWithoutDrains(es[1..]);
    }
  }

  lemma {:induction false} DrainedIsEmpty<S, W>(pre: seq<Event<S>>, max: nat, validate: S -> Option<W>)
    requires pre != [] && (pre[|pre| - 1].DrainEmpty? || pre[|pre| - 1].DrainedOwn?)
    requires RunEvents<S, W>(Init(), pre, max, validate).Some?
    ensures RunEvents<S, W>(Init(), pre, max, validate).value.queue == []
  {
    var n := |pre| - 1;
    assert pre == pre[..n] + [pre[n]];
    var init: State<S, W> := Init();
    RunSplit(init, pre[..n], [pre[n]], max, validate);
    var s := RunEvents(init, pre[..n], max, validate).value;
    assert [pre[n]][1..] == [];
    assert RunEvents(s, [pre[n]], max, validate) == Next(s, pre[n], max, validate) by {
      if Next(s, pre[n], max, validate).Some? {
        assert RunEvents(Next(s, pre[n], max, validate).value, [pre[n]][1..], max, validate)
            == Next(s, pre[n], max, validate);
      }
    }
  }

  ghost predicate AllResolved<S, W>(s: State<S, W>) {
    forall id :: 0 <= id < |s.futures| ==> !s.futures[id].Pending?
  }

  /** No continuation ever has an unresolved request. */
  ghost predicate NobodyIsLeft<S(!new), W>(s: State<S, W>, max: nat, validate: S -> Option<W>) {
    forall es: seq<Event<S>> :: RunEvents(s, es, max, validate).Some? ==> AllResolved(RunEvents(s, es, max, validate).value)
  }

  /** With the thread gone, nobody is left for good exactly when the queue is empty and no submitter
      stands between its check and its put. */
  lemma {:induction false} NobodyIsLeftIff<S(!new), W>(s: State<S, W>, max: nat, validate: S -> Option<W>)
    requires max > 0 && Inv(s, max, validate) && s.phase.Exited?
    ensures NobodyIsLeft(s, max, validate) <==> s.queue == [] && s.passed == 0
  {
    if s.queue == [] && s.passed == 0 {
      forall es: seq<Event<S>> | RunEvents(s, es, max, validate).Some?
        ensures AllResolved(RunEvents(s, es, max, validate).value)
      {
        NothingComes(s, es, max, validate);
      }
    } else if s.queue != [] {
      BatchBeforeQueue(s, max, validate);
      assert s.queue[0] in s.queue;
      assert !AllResolved(RunEvents(s, [], max, validate).value);
    } else {
      LatePut(s, max, validate);
    }
  }

  lemma {:induction false} NothingComes<S, W>(s: State<S, W>, es: seq<Event<S>>, max: nat, validate: S -> Option<W>)
    requires max > 0 && Inv(s, max, validate) && s.phase.Exited? && s.queue == [] && s.passed == 0
    requires RunEvents(s, es, max, validate).Some?
    ensures AllResolved(RunEvents(s, es, max, validate).value)
    decreases |es|
  {
    if es != [] {
      var t := Next(s, es[0], max, validate).value;
      StepKeepsInv(s, t, es[0], max, validate);
      NothingComes(t, es[1..], max, validate);
    }
  }

  lemma {:induction false} LatePut<S, W>(s: State<S, W>, max: nat, validate: S -> Option<W>)
    requires s.passed > 0
    ensures RunEvents(s, [Put], max, validate).Some? && !AllResolved(RunEvents(s, [Put], max, validate).value)
  {
    var t := Next(s, Put, max, validate).value;
    var es: seq<Event<S>> := [Put];
    assert es[1..] == [];
    assert RunEvents(t, es[1..], max, validate) == Some(t);
    assert t.futures[|s.futures|].Pending?;
  }

  /** The run ends with the thread gone, all drains over, and its one request unresolved. */
  ghost predicate LeavesOne<S, W>(es: seq<Event<S>>, fatal: bool, max: nat, validate: S -> Option<W>) {
    var r := RunEvents<S, W>(Init(), es, max, validate);
    && r.Some? && r.value.phase.Exited? && r.value.fatal == fatal && r.value.drainers == 0
    && |r.value.futures| == 1 && r.value.futures[0].Pending?
  }

  /** A submit whose check came before an abort can put after the drain, with the thread gone. */
  lemma {:induction false} AbortCanStrand<S, W>(max: nat, validate: S -> Option<W>)
    requires max > 0
    ensures LeavesOne([Check, Abort, DrainEmpty, CheckStop, Put], true, max, validate)
  {
  }

  /** A request that is queued when the thread leaves through a close is left, with no error at all. */
  lemma {:induction false} CloseCanStrand<S, W>(max: nat, validate: S -> Option<W>)
    requires max > 0
    ensures LeavesOne([Check, Put, Close, CheckStop], false, max, validate)
  {
  }

  // ---------------------------------------------------------------- the object

  /** The batcher as the object its threads share; a method is one atomic step, and those with
      a loop (Abort, DeliverAll, FailActive) are several steps taken without interruption. */
  class DynamicBatcher<S, W> {
    const max: nat
    const validate: S -> Option<W>
    var phase: Phase
    var queue: seq<nat>
    var batch: seq<nat>
    var done: nat
    var results: seq<W>
    var futures: seq<Outcome<W>>
    var fatal: bool
    var stop: bool
    ghost var passed: nat
    ghost var drainers: nat
    ghost var history: seq<Scored<S>>

    ghost function View(): State<S, W>
      reads this
    {
      State(phase, queue, batch, done, results, futures, fatal, stop, passed, drainers, history)
    }

    ghost predicate Valid()
      reads this
    {
      max > 0 && Inv(View(), max, validate)
    }

    /** The step `e` is possible now. */
    ghost predicate Can(e: Event<S>)
      reads this
    {
      Next(View(), e, max, validate).Some?
    }

    constructor (maxBatchSize: nat, validateResult: S -> Option<W>)
      requires maxBatchSize > 0
      ensures Valid() && View() == Init() && max == maxBatchSize && validate == validateResult
    {
      max, validate := maxBatchSize, validateResult;
      phase, queue, batch, done, results, futures, fatal, stop := Idle, [], [], 0, [], [], false, false;
      passed, drainers, history := 0, 0, [];
    }

    /** The check of a submit; a refused submit is an error and changes nothing. */
    method SubmitCheck() returns (accepted: bool)
      requires Valid()
      modifies this
      ensures Valid() && accepted == old(!fatal && !stop)
      ensures if accepted then Some(View()) == Next(old(View()), Event.Check, max, validate) else View() == old(View())
    {
      if fatal || stop {
        return false;
      }
      ghost var before := View();
      passed := passed + 1;
      StepKeepsInv(before, View(), Event.Check, max, validate);
      return true;
    }

    method Put() returns (id: nat)
      requires Valid() && passed > 0
      modifies this
      ensures Valid() && Some(View()) == Next(old(View()), Event.Put, max, validate)
      ensures id == old(|futures|) && queue == old(queue) + [id]
    {
      ghost var before := View();
      id := |futures|;
      queue := queue + [id];
      futures := futures + [Pending];
      passed := passed - 1;
      StepKeepsInv(before, View(), Event.Put, max, validate);
    }

    method Close()
      requires Valid()
      modifies this
      ensures Valid() && Some(View()) == Next(old(View()), Event.Close, max, validate)
    {
      ghost var before := View();
      stop := true;
      StepKeepsInv(before, View(), Event.Close, max, validate);
    }

    method DrainOne()
      requires Valid() && Can(Event.DrainOne)
      modifies this
      ensures Valid() && Some(View()) == Next(old(View()), Event.DrainOne, max, validate)
    {
      ghost var before := View();
      var id := queue[0];
      queue := queue[1..];
      if futures[id].Pending? {
        futures := futures[id := Failed];
      }
      StepKeepsInv(before, View(), Event.DrainOne, max, validate);
    }

    /** Enters the fatal state and fails everything queued; batch and other futures are untouched. */
    method Abort()
      requires Valid()
      modifies this
      ensures Valid() && fatal && stop && queue == []
      ensures phase == old(phase) && batch == old(batch) && done == old(done) && history == old(history)
      ensures passed == old(passed) && drainers == old(drainers) && |futures| == old(|futures|)
      ensures forall id :: 0 <= id < |futures| ==>
        futures[id] == if id in old(queue) then Failed else old(futures)[id]
    {
      ghost var before := View();
      EnterFatal();
      ghost var entered := View();
      DrainAll();
      LeaveDrain();
      assert PartlyDrained(entered, View().(drainers := entered.drainers));
    }

    method EnterFatal()
      requires Valid()
      modifies this
      ensures Valid() && View() == old(View()).(fatal := true, stop := true, drainers := old(drainers) + 1)
    {
      ghost var before := View();
      fatal, stop, drainers := true, true, drainers + 1;
      StepKeepsInv(before, View(), Event.Abort, max, validate);
    }

    method LeaveDrain()
      requires Valid() && drainers > 0 && queue == []
      modifies this
      ensures Valid() && View() == old(View()).(drainers := old(drainers) - 1)
    {
      ghost var before := View();
      drainers := drainers - 1;
      StepKeepsInv(before, View(), Event.DrainEmpty, max, validate);
    }

    method DrainNext(ghost s0: State<S, W>)
      requires Valid() && drainers > 0 && queue != [] && PartlyDrained(s0, View())
      modifies this
      ensures Valid() && PartlyDrained(s0, View()) && |queue| < old(|queue|)
    {
      ghost var here := View();
      HeadIsKnown(here, max, validate);
      DrainOne();
      DrainMore(s0, here, View(), max, validate);
    }

    method DrainAll()
      requires Valid() && drainers > 0
      modifies this
      ensures Valid() && PartlyDrained(old(View()), View()) && queue == []
    {
      ghost var before := View();
      while queue != []
        invariant Valid() && PartlyDrained(before, View())
        decreases |queue|
      {
        DrainNext(before);
      }
    }

    method CheckStop()
      requires Valid() && phase.Idle?
      modifies this
      ensures Valid() && Some(View()) == Next(old(View()), Event.CheckStop, max, validate)
    {
      ghost var before := View();
      phase := if stop then Exited else Polling;
      StepKeepsInv(before, View(), Event.CheckStop, max, validate);
    }

    method GetFirst()
      requires Valid() && phase.Polling?
      modifies this
      ensures Valid()
      ensures old(queue) != [] ==> Some(View()) == Next(old(View()), Event.GetFirst, max, validate)
      ensures old(queue) == [] ==> Some(View()) == Next(old(View()), Event.PollTimeout, max, validate)
    {
      ghost var before := View();
      if queue == [] {
        phase := Idle;
        StepKeepsInv(before, View(), Event.PollTimeout, max, validate);
      } else {
        phase, batch, queue, done := Collecting, [queue[0]], queue[1..], 0;
        StepKeepsInv(before, View(), Event.GetFirst, max, validate);
      }
    }

    method GetMore()
      requires Valid() && phase.Collecting? && |batch| < max
      modifies this
      ensures Valid()
      ensures old(queue) != [] ==> Some(View()) == Next(old(View()), Event.GetMore, max, validate)
      ensures old(queue) == [] ==> Some(View()) == Next(old(View()), Event.WindowOver, max, validate)
    {
      ghost var before := View();
      if queue == [] {
        phase := Scoring;
        StepKeepsInv(before, View(), Event.WindowOver, max, validate);
      } else {
        batch, queue := batch + [queue[0]], queue[1..];
        StepKeepsInv(before, View(), Event.GetMore, max, validate);
      }
    }

    method ReceiveScores(scores: Option<seq<S>>)
      requires Valid() && phase.Scoring?
      modifies this
      ensures Valid() && Some(View()) == Next(old(View()), ScoresBack(scores), max, validate)
      ensures phase == if AnswersAll(old(batch), scores, validate) then Delivering else Draining
    {
      ghost var before := View();
      if scores.Some? {
        ValidatedIff(scores.value, validate);
      }
      if scores.Some? && |scores.value| == |batch| && Validated(scores.value, validate).Some? {
        phase, results := Delivering, Validated(scores.value, validate).value;
        history := history + [Scored(batch, scores.value)];
      } else {
        phase, fatal, stop := Draining, true, true;
      }
      StepKeepsInv(before, View(), ScoresBack(scores), max, validate);
    }

    method DeliverOne()
      requires Valid() && phase.Delivering?
      modifies this
      ensures Valid() && Some(View()) == Next(old(View()), Event.DeliverOne, max, validate)
      ensures queue == old(queue) && old(done) < old(|batch|) && old(done) < old(|results|)
      ensures old(batch)[old(done)] < old(|futures|)
      ensures futures == old(futures)[old(batch)[old(done)] := Delivered(old(results)[old(done)])]
      ensures if old(done) + 1 == old(|batch|) then phase.Idle?
              else phase.Delivering? && batch == old(batch) && results == old(results) && done == old(done) + 1
    {
      ghost var before := View();
      DeliveryNeverRaises(before, max, validate);
      futures := futures[batch[done] := Delivered(results[done])];
      done := done + 1;
      if done == |batch| {
        phase, batch, done, results := Idle, [], 0, [];
      }
      StepKeepsInv(before, View(), Event.DeliverOne, max, validate);
    }

    method DeliverNext(ghost s0: State<S, W>, ghost d: nat)
      requires Valid() && phase.Delivering? && PartlyDelivered(s0, View(), d)
      modifies this
      ensures Valid() && PartlyDelivered(s0, View(), d + 1)
    {
      ghost var here := View();
      DeliverOne();
      DeliverMore(s0, here, View(), d, max, validate);
    }

    /** The whole delivery: the results are set position by position, and the thread is idle again. */
    method DeliverAll()
      requires Valid() && phase.Delivering?
      modifies this
      ensures Valid() && phase.Idle? && queue == old(queue) && |old(results)| == |old(batch)|
      ensures PartlyDelivered(old(View()), View(), |old(batch)|)
      ensures old(done) <= |old(batch)| && futures == Set(old(futures), old(batch), old(results), old(done), |old(batch)|)
    {
      ghost var before := View();
      for d := done to |batch|
        invariant Valid() && PartlyDelivered(before, View(), d)
      {
        DeliverNext(before, d);
      }
    }

    method FailOne()
      requires Valid() && phase.FailingActive?
      modifies this
      ensures Valid() && Some(View()) == Next(old(View()), Event.FailOne, max, validate)
    {
      ghost var before := View();
      ActiveIsKnown(before, max, validate);
      var id := batch[done];
      if futures[id].Pending? {
        futures := futures[id := Failed];
      }
      done := done + 1;
      if done == |batch| {
        phase, batch, done := Exited, [], 0;
      }
      StepKeepsInv(before, View(), Event.FailOne, max, validate);
    }

    method FailNext(ghost s0: State<S, W>, ghost d: nat)
      requires Valid() && phase.FailingActive? && PartlyFailed(s0, View(), d)
      modifies this
      ensures Valid() && PartlyFailed(s0, View(), d + 1)
    {
      ghost var here := View();
      FailOne();
      FailMore(s0, here, View(), d, max, validate);
    }

    method FailActive()
      requires Valid() && phase.FailingActive?
      modifies this
      ensures Valid() && PartlyFailed(old(View()), View(), old(|batch|))
    {
      ghost var before := View();
      for d := done to |batch|
        invariant Valid() && PartlyFailed(before, View(), d)
      {
        FailNext(before, d);
      }
    }

    /** A failed model call: everything queued and everything in the batch fails, nothing else does,
        and the thread is gone. */
    method FailFatally()
      requires Valid() && phase.Draining?
      modifies this
      ensures Valid() && phase.Exited? && fatal && queue == [] && |futures| == old(|futures|)
      ensures forall id :: 0 <= id < |futures| ==>
        futures[id] == if id in old(queue) || id in old(batch) then Failed else old(futures)[id]
    {
      ghost var before := View();
      Abort();
      ghost var drained := View();
      phase := FailingActive;
      StepKeepsInv(drained, View(), Event.DrainedOwn, max, validate);
      FailActive();
      AllFailed(before, drained, max, validate);
    }

    /** What becomes of a batch once the model has answered or raised: a full list of valid scores is
        delivered and the thread goes on; anything else is fatal. */
    method FinishBatch(answer: Option<seq<S>>)
      requires Valid() && phase.Scoring?
      modifies this
      ensures Valid()
      ensures AnswersAll(old(batch), answer, validate) ==> BatchDelivered(old(View()), View(), answer.value, validate)
      ensures !AnswersAll(old(batch), answer, validate) ==> AllFailedFatally(old(View()), View())
    {
      ghost var before := View();
      ReceiveScores(answer);
      ghost var received := View();
      if phase.Delivering? {
        DeliverAll();
        AllDelivered(before, received, View(), answer.value, max, validate);
      } else {
        FailFatally();
      }
    }
  }
}
