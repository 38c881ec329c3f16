/** What the batcher gets done: runs of the thread that deliver, fail or leave. */
module BatcherProgress {
  import opened Prelude
  import opened Batcher

  function Times<S>(e: Event<S>, n: nat): (r: seq<Event<S>>)
    ensures |r| == n
  {
    seq(n, _ => e)
  }

  lemma {:induction false} TimesStep<S>(e: Event<S>, n: nat)
    requires n > 0
    ensures Times(e, n) == [e] + Times(e, n - 1)
  {
  }

  lemma {:induction false} RunCons<S, W>(s: State<S, W>, e: Event<S>, es: seq<Event<S>>, max: nat,
      validate: S -> Option<W>)
    requires Next(s, e, max, validate).Some?
    ensures RunEvents(s, [e] + es, max, validate) == RunEvents(Next(s, e, max, validate).value, es, max, validate)
  {
    assert ([e] + es)[1..] == es;
  }

  // ---------------------------------------------------------------- a good answer is delivered

  lemma {:induction false} DeliverRun<S, W>(s0: State<S, W>, s: State<S, W>, d: nat, max: nat, validate: S -> Option<W>)
    requires max > 0 && Inv(s, max, validate) && PartlyDelivered(s0, s, d)
    ensures var r := RunEvents(s, Times(DeliverOne, |s0.batch| - d), max, validate);
      r.Some? && PartlyDelivered(s0, r.value, |s0.batch|)
    decreases |s0.batch| - d
  {
    if d < |s0.batch| {
      DeliveryNeverRaises(s, max, validate);
      var t := Next(s, DeliverOne, max, validate).value;
      StepKeepsInv(s, t, DeliverOne, max, validate);
      DeliverMore(s0, s, t, d, max, validate);
      DeliverRun(s0, t, d + 1, max, validate);
      TimesStep<S>(DeliverOne, |s0.batch| - d);
      RunCons(s, DeliverOne, Times(DeliverOne, |s0.batch| - d - 1), max, validate);
    }
  }

  /** From every state in which the model is asked, a list of one valid score per request leads, in as
      many deliveries as there are requests, to each request holding the validated score at its own
      position; the thread goes on and the batcher is no nearer to a fatal error. */
  lemma {:induction false} GoodAnswerIsDelivered<S, W>(s: State<S, W>, scores: seq<S>, max: nat,
      validate: S -> Option<W>)
    requires max > 0 && Inv(s, max, validate) && s.phase.Scoring? && AnswersAll(s.batch, Some(scores), validate)
    ensures var r := RunEvents(s, [ScoresBack(Some(scores))] + Times(DeliverOne, |s.batch|), max, validate);
      r.Some? && BatchDelivered(s, r.value, scores, validate)
  {
    var e: Event<S> := ScoresBack(Some(scores));
    var t := Accepted(s, scores, max, validate);
    DeliverRun(t, t, 0, max, validate);
    RunCons(s, e, Times(DeliverOne, |s.batch|), max, validate);
    AllDelivered(s, t, RunEvents(t, Times(DeliverOne, |s.batch|), max, validate).value, scores, max, validate);
  }

  lemma {:induction false} Accepted<S, W>(s: State<S, W>, scores: seq<S>, max: nat, validate: S -> Option<W>)
    returns (t: State<S, W>)
    requires max > 0 && Inv(s, max, validate) && s.phase.Scoring? && AnswersAll(s.batch, Some(scores), validate)
    ensures Next(s, ScoresBack(Some(scores)), max, validate) == Some(t) && Inv(t, max, validate)
    ensures PartlyDelivered(t, t, 0) && t.batch == s.batch && t.fatal == s.fatal && t.stop == s.stop
  {
    ValidatedIff(scores, validate);
    t := Next(s, ScoresBack(Some(scores)), max, validate).value;
    StepKeepsInv(s, t, ScoresBack(Some(scores)), max, validate);
  }

  // ---------------------------------------------------------------- any other answer is fatal

  lemma {:induction false} DrainRun<S, W>(s0: State<S, W>, s: State<S, W>, max: nat, validate: S -> Option<W>)
    requires max > 0 && Inv(s, max, validate) && s.phase.Draining? && PartlyDrained(s0, s)
    ensures var r := RunEvents(s, Times(DrainOne, |s.queue|), max, validate);
      r.Some? && Inv(r.value, max, validate) && PartlyDrained(s0, r.value) && r.value.queue == []
    decreases |s.queue|
  {
    if s.queue != [] {
      var t := DrainFirst(s0, s, max, validate);
      DrainRun(s0, t, max, validate);
      TimesStep<S>(DrainOne, |s.queue|);
      RunCons(s, DrainOne, Times(DrainOne, |s.queue| - 1), max, validate);
    }
  }

  lemma {:induction false} DrainFirst<S, W>(s0: State<S, W>, s: State<S, W>, max: nat, validate: S -> Option<W>)
    returns (t: State<S, W>)
    requires max > 0 && Inv(s, max, validate) && s.phase.Draining? && PartlyDrained(s0, s) && s.queue != []
    ensures Next(s, DrainOne, max, validate) == Some(t) && Inv(t, max, validate) && t.phase.Draining?
    ensures PartlyDrained(s0, t) && |t.queue| == |s.queue| - 1
  {
    HeadIsKnown(s, max, validate);
    t := Next(s, DrainOne, max, validate).value;
    StepKeepsInv(s, t, DrainOne, max, validate);
    DrainMore(s0, s, t, max, validate);
  }

  lemma {:induction false} FailRun<S, W>(s0: State<S, W>, s: State<S, W>, d: nat, max: nat, validate: S -> Option<W>)
    requires max > 0 && Inv(s, max, validate) && PartlyFailed(s0, s, d)
    ensures var r := RunEvents(s, Times(FailOne, |s0.batch| - d), max, validate);
      r.Some? && PartlyFailed(s0, r.value, |s0.batch|)
    decreases |s0.batch| - d
  {
    if d < |s0.batch| {
      ActiveIsKnown(s, max, validate);
      var t := Next(s, FailOne, max, validate).value;
      StepKeepsInv(s, t, FailOne, max, validate);
      FailMore(s0, s, t, d, max, validate);
      FailRun(s0, t, d + 1, max, validate);
      TimesStep<S>(FailOne, |s0.batch| - d);
      RunCons(s, FailOne, Times(FailOne, |s0.batch| - d - 1), max, validate);
    }
  }

  /** What the thread does after an answer it cannot use. */
  function FatalPath<S>(queued: nat, active: nat): seq<Event<S>> {
    Times(DrainOne, queued) + ([DrainedOwn] + Times(FailOne, active))
  }

  lemma {:induction false} FatalRun<S, W>(s: State<S, W>, max: nat, validate: S -> Option<W>)
    requires max > 0 && Inv(s, max, validate) && s.phase.Draining?
    ensures var r := RunEvents(s, FatalPath(|s.queue|, |s.batch|), max, validate);
      r.Some? && AllFailedFatally(s, r.value)
  {
    DrainRun(s, s, max, validate);
    var drained := RunEvents(s, Times(DrainOne, |s.queue|), max, validate).value;
    RunSplit(s, Times(DrainOne, |s.queue|), [DrainedOwn] + Times(FailOne, |s.batch|), max, validate);
    DrainedRun(drained, max, validate);
    AllFailed(s, drained, max, validate);
  }

  lemma {:induction false} DrainedRun<S, W>(s: State<S, W>, max: nat, validate: S -> Option<W>)
    requires max > 0 && Inv(s, max, validate) && s.phase.Draining? && s.queue == []
    ensures var r := RunEvents(s, [DrainedOwn] + Times(FailOne, |s.batch|), max, validate);
      && r.Some? && r.value.phase.Exited? && r.value.queue == [] && r.value.fatal && r.value.stop
      && r.value.futures == Fail(s.futures, s.batch, 0, |s.batch|)
  {
    var t := Next(s, DrainedOwn, max, validate).value;
    StepKeepsInv(s, t, DrainedOwn, max, validate);
    RunCons(s, DrainedOwn, Times(FailOne, |s.batch|), max, validate);
    FailRun(t, t, 0, max, validate);
  }

  /** And any other answer, or none, leads to the failure of exactly the batch and the queue. */
  lemma {:induction false} OtherAnswerIsFatal<S, W>(s: State<S, W>, answer: Option<seq<S>>, max: nat,
      validate: S -> Option<W>)
    requires max > 0 && Inv(s, max, validate) && s.phase.Scoring? && !AnswersAll(s.batch, answer, validate)
    ensures var r := RunEvents(s, [ScoresBack(answer)] + FatalPath(|s.queue|, |s.batch|), max, validate);
      r.Some? && AllFailedFatally(s, r.value)
  {
    if answer.Some? {
      ValidatedIff(answer.value, validate);
    }
    var e: Event<S> := ScoresBack(answer);
    var t := Next(s, e, max, validate).value;
    StepKeepsInv(s, t, e, max, validate);
    RunCons(s, e, FatalPath(|s.queue|, |s.batch|), max, validate);
    FatalRun(t, max, validate);
  }

  /** The thread goes on to deliver exactly after a list of one valid score per request. */
  lemma {:induction false} DeliversIff<S, W>(s: State<S, W>, answer: Option<seq<S>>, max: nat, validate: S -> Option<W>)
    requires max > 0 && Inv(s, max, validate) && s.phase.Scoring?
    ensures var r := RunEvents(s, [ScoresBack(answer)], max, validate);
      && r.Some? && (r.value.phase.Delivering? <==> AnswersAll(s.batch, answer, validate))
      && (r.value.fatal <==> s.fatal || !AnswersAll(s.batch, answer, validate))
  {
    if answer.Some? {
      ValidatedIff(answer.value, validate);
    }
    var e: Event<S> := ScoresBack(answer);
    assert [e] == [e] + [];
    RunCons(s, e, [], max, validate);
  }

  // ---------------------------------------------------------------- a waiting batch is served

  lemma {:induction false} CollectRun<S, W>(s: State<S, W>, k: nat, max: nat, validate: S -> Option<W>)
    requires s.phase.Collecting? && k <= |s.queue| && |s.batch| + k <= max
    ensures var r := RunEvents(s, Times(GetMore, k), max, validate);
      r == Some(s.(batch := s.batch + s.queue[..k], queue := s.queue[k..]))
    decreases k
  {
    if k == 0 {
      assert s.batch + s.queue[..0] == s.batch && s.queue[0..] == s.queue;
    } else {
      var t := Next(s, GetMore, max, validate).value;
      CollectRun(t, k - 1, max, validate);
      TimesStep<S>(GetMore, k);
      RunCons(s, GetMore, Times(GetMore, k - 1), max, validate);
      assert s.batch + [s.queue[0]] + s.queue[1..][..k - 1] == s.batch + s.queue[..k];
      assert s.queue[1..][k - 1..] == s.queue[k..];
    }
  }

  /** The thread's way from looking at the stop flag to asking the model about `k` requests. */
  function CollectPath<S>(k: nat): seq<Event<S>>
    requires k > 0
  {
    [CheckStop] + ([GetFirst] + (Times(GetMore, k - 1) + [WindowOver]))
  }

  lemma {:induction false} Collected<S, W>(s: State<S, W>, k: nat, max: nat, validate: S -> Option<W>)
    requires s.phase.Idle? && !s.stop && s.batch == [] && s.done == 0 && 0 < k <= |s.queue| && k <= max
    ensures RunEvents(s, CollectPath(k), max, validate)
         == Some(s.(phase := Scoring, batch := s.queue[..k], queue := s.queue[k..]))
  {
    var polling := s.(phase := Polling);
    var first := s.(phase := Collecting, batch := [s.queue[0]], queue := s.queue[1..]);
    var rest: seq<Event<S>> := Times(GetMore, k - 1) + [WindowOver];
    RunCons(s, CheckStop, [GetFirst] + rest, max, validate);
    RunCons(polling, GetFirst, rest, max, validate);
    CollectRun(first, k - 1, max, validate);
    RunSplit(first, Times(GetMore, k - 1), [WindowOver], max, validate);
    assert [s.queue[0]] + s.queue[1..][..k - 1] == s.queue[..k] && s.queue[1..][k - 1..] == s.queue[k..];
    var full := first.(batch := s.queue[..k], queue := s.queue[k..]);
    RunCons(full, WindowOver, [], max, validate);
    var over: seq<Event<S>> := [WindowOver];
    assert over == over + [];
  }

  /** Unless it was told to stop, an idle thread can serve the first `k` queued requests, for any `k`
      up to the batch size: each of them ends with the validated score at its own place in the queue,
      the others keep waiting, and the thread is idle again. */
  lemma {:induction false} QueueIsServed<S, W>(s: State<S, W>, k: nat, scores: seq<S>, max: nat,
      validate: S -> Option<W>)
    requires max > 0 && Inv(s, max, validate) && s.phase.Idle? && !s.stop && 0 < k <= |s.queue| && k <= max
    requires |scores| == k && forall p :: 0 <= p < k ==> validate(scores[p]).Some?
    ensures var r := RunEvents(s, CollectPath(k) + ([ScoresBack(Some(scores))] + Times(DeliverOne, k)), max, validate);
      && r.Some? && r.value.phase.Idle? && r.value.queue == s.queue[k..] && !r.value.stop && r.value.fatal == s.fatal
      && |r.value.futures| == |s.futures|
      && (forall p :: 0 <= p < k ==>
            s.queue[p] < |s.futures| && r.value.futures[s.queue[p]] == Delivered(validate(scores[p]).value))
      && (forall id :: 0 <= id < |s.futures| && id !in s.queue[..k] ==> r.value.futures[id] == s.futures[id])
  {
    Collected(s, k, max, validate);
    RunKeepsInv(s, CollectPath(k), max, validate);
    var t := RunEvents(s, CollectPath(k), max, validate).value;
    RunSplit(s, CollectPath(k), [ScoresBack(Some(scores))] + Times(DeliverOne, k), max, validate);
    GoodAnswerIsDelivered(t, scores, max, validate);
    forall p | 0 <= p < k ensures s.queue[p] == t.batch[p] {
    }
  }

  /** An idle thread leaves exactly when it was told to stop, and one that finds the queue empty looks
      at the stop flag again. */
  lemma {:induction false} LeavesWhenStopped<S, W>(s: State<S, W>, max: nat, validate: S -> Option<W>)
    ensures s.phase.Idle? ==>
      RunEvents(s, [CheckStop], max, validate) == Some(s.(phase := if s.stop then Exited else Polling))
    ensures s.phase.Polling? ==>
      RunEvents(s, [PollTimeout, CheckStop], max, validate) == Some(s.(phase := if s.stop then Exited else Polling))
  {
    if s.phase.Idle? {
      RunCons(s, CheckStop, [], max, validate);
    }
    if s.phase.Polling? {
      var idle := s.(phase := Idle);
      RunCons(idle, CheckStop, [], max, validate);
      RunCons(s, PollTimeout, [CheckStop], max, validate);
    }
    var es: seq<Event<S>> := [PollTimeout, CheckStop];
    assert es == [PollTimeout] + es[1..] && es[1..] == es[1..] + [];
  }
}
