/** The scheduler that serialises the shared model in reward_model_server.py. Its two kinds of
    task wait under one condition variable. A task evaluates the wait condition once when it
    enters, under the same hold of the lock, and then only when a notification wakes it; each
    evaluation reads the queue lengths of that moment. */
module Scheduler {
  import opened Prelude

  datatype Task = R4Task | GateTask

  function Other(t: Task): Task {
    if t.R4Task? then GateTask else R4Task
  }

  /** The queue lengths one evaluation reads. */
  datatype Backlog = Backlog(r4: nat, gate: nat)

  function Queued(b: Backlog, t: Task): nat {
    if t.R4Task? then b.r4 else b.gate
  }

  /** A waiting batch: its size and its arrival number. */
  datatype Waiter = Waiter(size: nat, arrival: nat)

  datatype State = State(
    active: bool,
    waiting: map<Task, Waiter>,
    arrivals: nat,
    due: set<Task>,            // waiters that were woken and have not evaluated since
    read: map<Task, Backlog>,  // what each other waiter of an idle model read when it was refused
    running: seq<Task>)        // tasks between leaving the wait and the final release

  datatype Event =
    | Enter(task: Task, size: nat, backlog: Backlog)
    | Wake(task: Task, backlog: Backlog)
    | GiveUp(task: Task)    // the wait itself raised
    | Finish(which: nat)

  function Init(): State {
    State(false, map[], 0, {}, map[], [])
  }

  /** Batch plus backlog; the key the scheduler maximises, ties broken by the earlier arrival. */
  function Load(s: State, t: Task, b: Backlog): nat
    requires t in s.waiting
  {
    s.waiting[t].size + Queued(b, t)
  }

  predicate Better(s: State, t: Task, u: Task, b: Backlog)
    requires t in s.waiting && u in s.waiting
  {
    Load(s, t, b) > Load(s, u, b)
    || (Load(s, t, b) == Load(s, u, b) && s.waiting[t].arrival < s.waiting[u].arrival)
  }

  /** Python's max over the waiting dict: the first maximal entry in the order R4, gate. */
  function Selected(s: State, b: Backlog): Option<Task> {
    if R4Task in s.waiting && GateTask in s.waiting then
      Some(if Better(s, GateTask, R4Task, b) then GateTask else R4Task)
    else if R4Task in s.waiting then Some(R4Task)
    else if GateTask in s.waiting then Some(GateTask)
    else None
  }

  predicate MayStart(s: State, t: Task, b: Backlog) {
    !s.active && Selected(s, b) == Some(t)
  }

  ghost predicate DistinctArrivals(s: State) {
    && (forall t :: t in s.waiting ==> s.waiting[t].arrival <= s.arrivals)
    && (forall t, u :: t in s.waiting && u in s.waiting && t != u ==> s.waiting[t].arrival != s.waiting[u].arrival)
  }

  /** Of the waiting kinds the batch plus its backlog is the larger one, and the earlier one if equal. */
  ghost predicate GoesFirst(waiting: map<Task, Waiter>, t: Task, b: Backlog) {
    t in waiting
    && (R4Task in waiting && GateTask in waiting ==>
          var r4, gate := waiting[R4Task].size + b.r4, waiting[GateTask].size + b.gate;
          if r4 != gate then t == if r4 > gate then R4Task else GateTask
          else forall u :: u in waiting ==> waiting[t].arrival <= waiting[u].arrival)
  }

  /** A waiter may start exactly when the model is idle and the waiter goes first. */
  lemma {:induction false} MayStartIff(s: State, t: Task, b: Backlog)
    requires DistinctArrivals(s)
    ensures MayStart(s, t, b) <==> !s.active && GoesFirst(s.waiting, t, b)
  {
    assert t == R4Task || t == GateTask;
    if R4Task in s.waiting && GateTask in s.waiting {
      forall u | u in s.waiting ensures u == R4Task || u == GateTask {
      }
    }
  }

  /** One evaluation of the wait condition: the task takes the model, or waits for a wake-up. */
  function Evaluate(s: State, t: Task, b: Backlog): State {
    if MayStart(s, t, b) then
      s.(active := true, waiting := s.waiting - {t}, due := s.due - {t}, read := map[], running := s.running + [t])
    else
      s.(due := s.due - {t}, read := if s.active then s.read else s.read[t := b])
  }

  function Arrived(s: State, t: Task, size: nat): State {
    s.(waiting := s.waiting[t := Waiter(size, s.arrivals + 1)], arrivals := s.arrivals + 1)
  }

  /** An arrival counts as one more with its own size, later than all who wait. If the model is idle
      and it goes first it runs at once, else it waits. */
  ghost predicate EnterMeans(s: State, r: State, t: Task, size: nat, b: Backlog, started: bool) {
    var waiting := s.waiting[t := Waiter(size, s.arrivals + 1)];
    && r.arrivals == s.arrivals + 1 && (forall u :: u in s.waiting ==> s.waiting[u].arrival < r.arrivals)
    && (started <==> !s.active && GoesFirst(waiting, t, b))
    && (if started then r.active && r.waiting == s.waiting && r.running == s.running + [t]
        else r.active == s.active && r.waiting == waiting && r.running == s.running)
  }

  lemma {:induction false} EnterIsMeant(s: State, t: Task, size: nat, b: Backlog)
    requires DistinctArrivals(s) && t !in s.waiting
    ensures var a := Arrived(s, t, size); EnterMeans(s, Evaluate(a, t, b), t, size, b, MayStart(a, t, b))
  {
    var a := Arrived(s, t, size);
    ArrivedLast(s, t, size);
    MayStartIff(a, t, b);
    RemoveAdded(s.waiting, t, Waiter(size, s.arrivals + 1));
  }

  lemma {:induction false} ArrivedLast(s: State, t: Task, size: nat)
    requires DistinctArrivals(s) && t !in s.waiting
    ensures DistinctArrivals(Arrived(s, t, size))
    ensures forall u :: u in s.waiting ==> s.waiting[u].arrival < s.arrivals + 1
  {
  }

  lemma {:induction false} RemoveAdded<K, V>(m: map<K, V>, k: K, v: V)
    requires k !in m
    ensures m[k := v] - {k} == m
  {
  }

  /** One hold of the lock; None when it cannot happen, or when `run` would raise. */
  function Next(s: State, e: Event): Option<State> {
    match e
    case Enter(t, n, b) => if t in s.waiting then None else Some(Evaluate(Arrived(s, t, n), t, b))
    case Wake(t, b) => if t in s.due then Some(Evaluate(s, t, b)) else None
    case GiveUp(t) =>
      if t in s.waiting then Some(s.(waiting := s.waiting - {t}, due := s.due - {t}, read := s.read - {t})) else None
    case Finish(i) =>
      if i < |s.running| then
        Some(s.(active := false, due := s.waiting.Keys, read := map[], running := s.running[..i] + s.running[i + 1..]))
      else None
  }

  /** At most one task runs the model, the flag says exactly whether one does, arrival numbers in
      use are distinct, and every waiter of an idle model is either due or has been refused. */
  ghost predicate Inv(s: State) {
    && |s.running| <= 1 && (s.active <==> |s.running| == 1) && DistinctArrivals(s)
    && s.due <= s.waiting.Keys && s.due !! s.read.Keys
    && (if s.active then s.read == map[] else s.waiting.Keys == s.due + s.read.Keys)
  }

  lemma {:induction false} EvaluateKeepsInv(s: State, t: Task, b: Backlog)
    requires |s.running| <= 1 && (s.active <==> |s.running| == 1) && DistinctArrivals(s)
    requires t in s.waiting && t !in s.read && s.due <= s.waiting.Keys && s.due !! s.read.Keys
    requires if s.active then s.read == map[] else s.waiting.Keys == s.due + s.read.Keys + {t}
    ensures Inv(Evaluate(s, t, b))
  {
  }

  lemma {:induction false} StepKeepsInv(s: State, e: Event)
    requires Inv(s) && Next(s, e).Some?
    ensures Inv(Next(s, e).value)
  {
    match e
    case Enter(t, n, b) => EvaluateKeepsInv(Arrived(s, t, n), t, b);
    case Wake(t, b) => EvaluateKeepsInv(s, t, b);
    case GiveUp(t) =>
    case Finish(i) =>
  }

  function RunEvents(s: State, es: seq<Event>): Option<State>
    decreases |es|
  {
    if es == [] then Some(s)
    else
      match Next(s, es[0])
      case None => None
      case Some(t) => RunEvents(t, es[1..])
  }

  lemma {:induction false} RunKeepsInv(s: State, es: seq<Event>)
    requires Inv(s) && RunEvents(s, es).Some?
    ensures Inv(RunEvents(s, es).value)
    decreases |es|
  {
    if es != [] {
      StepKeepsInv(s, es[0]);
      RunKeepsInv(Next(s, es[0]).value, es[1..]);
    }
  }

  /** In every reachable state at most one task runs the model, and the active flag is set exactly
      while one does. */
  lemma {:induction false} ModelIsExclusive(es: seq<Event>)
    requires RunEvents(Init(), es).Some?
    ensures var s := RunEvents(Init(), es).value; |s.running| <= 1 && (s.active <==> |s.running| == 1)
  {
    RunKeepsInv(Init(), es);
  }

  lemma {:induction false} SomeoneIsSelected(s: State, b: Backlog)
    requires Inv(s) && s.waiting != map[]
    ensures Selected(s, b).Some? && Selected(s, b).value in s.waiting
    ensures forall u :: u in s.waiting && u != Selected(s, b).value ==> Better(s, Selected(s, b).value, u, b)
  {
    var w :| w in s.waiting;
    assert w == R4Task || w == GateTask;
  }

  /** On one snapshot of the queue lengths, an idle model with waiters lets exactly one of them
      start: the one no other waiter beats. */
  lemma {:induction false} ExactlyOneMayStart(es: seq<Event>, b: Backlog)
    requires RunEvents(Init(), es).Some?
    requires var s := RunEvents(Init(), es).value; !s.active && s.waiting != map[]
    ensures var s := RunEvents(Init(), es).value;
      exists t :: && t in s.waiting && MayStart(s, t, b)
                  && (forall u :: MayStart(s, u, b) ==> u == t)
                  && (forall u :: u in s.waiting && u != t ==> Better(s, t, u, b))
  {
    RunKeepsInv(Init(), es);
    var s := RunEvents(Init(), es).value;
    SomeoneIsSelected(s, b);
    assert MayStart(s, Selected(s, b).value, b);
  }

  // ---------------------------------------------------------------- when nobody starts

  ghost predicate NobodyGivesUp(es: seq<Event>) {
    forall i :: 0 <= i < |es| ==> !es[i].GiveUp?
  }

  /** Who was refused on an idle model was refused for the other waiter, who is still there. */
  ghost predicate RefusedForTheOther(s: State) {
    forall t :: t in s.read && t in s.waiting ==> Other(t) in s.waiting && Better(s, Other(t), t, s.read[t])
  }

  lemma {:induction false} EvaluateKeepsRefused(s: State, t: Task, b: Backlog)
    requires DistinctArrivals(s) && RefusedForTheOther(s) && t in s.waiting
    ensures RefusedForTheOther(Evaluate(s, t, b))
  {
    var r := Evaluate(s, t, b);
    forall u | u in r.read && u in r.waiting ensures Other(u) in r.waiting && Better(r, Other(u), u, r.read[u]) {
      if u == t && !s.active {
        RefusedMeans(s, t, b);
      } else {
        assert Better(s, Other(u), u, s.read[u]);
      }
    }
  }

  lemma {:induction false} RefusedMeans(s: State, t: Task, b: Backlog)
    requires DistinctArrivals(s) && t in s.waiting && !s.active && !MayStart(s, t, b)
    ensures Other(t) in s.waiting && Better(s, Other(t), t, b)
  {
  }

  lemma {:induction false} StepKeepsRefused(s: State, e: Event)
    requires Inv(s) && RefusedForTheOther(s) && Next(s, e).Some? && !e.GiveUp?
    ensures RefusedForTheOther(Next(s, e).value)
  {
    match e
    case Enter(t, n, b) =>
      var r := Arrived(s, t, n);
      forall u | u in r.read && u in r.waiting ensures Other(u) in r.waiting && Better(r, Other(u), u, r.read[u]) {
        assert Other(u) in s.waiting && Better(s, Other(u), u, s.read[u]);
      }
      EvaluateKeepsRefused(r, t, b);
    case Wake(t, b) => EvaluateKeepsRefused(s, t, b);
    case Finish(i) =>
  }

  lemma {:induction false} RunKeepsRefused(s: State, es: seq<Event>)
    requires Inv(s) && RefusedForTheOther(s) && RunEvents(s, es).Some? && NobodyGivesUp(es)
    ensures Inv(RunEvents(s, es).value) && RefusedForTheOther(RunEvents(s, es).value)
    decreases |es|
  {
    if es != [] {
      StepKeepsInv(s, es[0]);
      StepKeepsRefused(s, es[0]);
      RunKeepsRefused(Next(s, es[0]).value, es[1..]);
    }
  }

  /** Batches wait for an idle model and nothing can happen any more, unless a wait is given up. */
  ghost predicate Stuck(s: State) {
    !s.active && s.waiting != map[] && forall e :: Next(s, e).Some? ==> e.GiveUp?
  }

  /** Each of the two kinds waits, and the queue lengths each read prefer the other. */
  predicate EachPrefersTheOther(s: State) {
    && R4Task in s.waiting && R4Task in s.read && GateTask in s.waiting && GateTask in s.read
    && Better(s, GateTask, R4Task, s.read[R4Task]) && Better(s, R4Task, GateTask, s.read[GateTask])
  }

  /** In every reachable state with an idle model and waiters: nothing can happen any more exactly
      when both kinds wait and, since the model was freed, each has read queue lengths that prefer
      the other. Otherwise some waiter is still to be woken. */
  lemma {:induction false} StuckIff(es: seq<Event>)
    requires RunEvents(Init(), es).Some? && NobodyGivesUp(es)
    requires var s := RunEvents(Init(), es).value; !s.active && s.waiting != map[]
    ensures var s := RunEvents(Init(), es).value; Stuck(s) <==> EachPrefersTheOther(s)
    ensures var s := RunEvents(Init(), es).value; Stuck(s) <==> s.due == {}
  {
    RunKeepsRefused(Init(), es);
    var s := RunEvents(Init(), es).value;
    if s.due == {} {
      var w :| w in s.waiting;
      assert w in s.read && Other(w) in s.waiting;
      forall e | Next(s, e).Some? ensures e.GiveUp? {
        StuckEvent(s, e);
      }
    } else {
      var t :| t in s.due;
      assert Next(s, Wake(t, Backlog(0, 0))).Some?;
    }
  }

  lemma {:induction false} StuckEvent(s: State, e: Event)
    requires Inv(s) && !s.active && s.due == {} && R4Task in s.waiting && GateTask in s.waiting && Next(s, e).Some?
    ensures e.GiveUp?
  {
    forall t: Task ensures t in s.waiting {
      assert t == R4Task || t == GateTask;
    }
  }

  /** When both are woken for an idle model, in whichever order they get the lock, nobody starts
      exactly when the queue lengths each reads prefer the other. */
  lemma {:induction false} TwoWakesIff(s: State, first: Task, b1: Backlog, b2: Backlog)
    requires Inv(s) && !s.active && R4Task in s.due && GateTask in s.due
    ensures var r := RunEvents(s, [Wake(first, b1), Wake(Other(first), b2)]);
      r.Some? && (r.value.running == [] <==> Better(s, Other(first), first, b1) && Better(s, first, Other(first), b2))
  {
    var es := [Wake(first, b1), Wake(Other(first), b2)];
    var t := Evaluate(s, first, b1);
    var u := Evaluate(t, Other(first), b2);
    assert first == R4Task || first == GateTask;
    assert es[1..] == [Wake(Other(first), b2)] && es[1..][1..] == [];
    assert RunEvents(u, es[1..][1..]) == Some(u);
    assert RunEvents(t, es[1..]) == Some(u);
  }

  /** Queue lengths that do not change between the evaluations never leave everybody waiting. */
  lemma {:induction false} OneSnapshotNeverSticks(es: seq<Event>)
    requires RunEvents(Init(), es).Some? && NobodyGivesUp(es)
    requires var s := RunEvents(Init(), es).value; forall t, u :: t in s.read && u in s.read ==> s.read[t] == s.read[u]
    ensures !Stuck(RunEvents(Init(), es).value)
  {
    var s := RunEvents(Init(), es).value;
    if !s.active && s.waiting != map[] {
      StuckIff(es);
    }
  }

  const QUIET := Backlog(0, 0)
  const GATE_BUSY := Backlog(0, 5)
  const R4_BUSY := Backlog(5, 0)

  /** R4 runs while gate waits; R4 finishes and re-enters before gate wakes, gate's queue being the
      longer one; when gate wakes, R4's queue is. */
  const STALL: seq<Event> :=
    [Enter(R4Task, 1, QUIET), Enter(GateTask, 1, QUIET), Finish(0), Enter(R4Task, 1, GATE_BUSY), Wake(GateTask, R4_BUSY)]

  const STALLED := State(false, map[R4Task := Waiter(1, 3), GateTask := Waiter(1, 2)], 3, {},
                         map[R4Task := GATE_BUSY, GateTask := R4_BUSY], [])

  lemma {:induction false} StallRuns()
    ensures RunEvents(Init(), STALL) == Some(STALLED)
  {
    var s1 := State(true, map[], 1, {}, map[], [R4Task]);
    var s2 := s1.(waiting := map[GateTask := Waiter(1, 2)], arrivals := 2);
    var s3 := s2.(active := false, due := {GateTask}, running := []);
    var s4 := s3.(waiting := map[R4Task := Waiter(1, 3), GateTask := Waiter(1, 2)], arrivals := 3,
                  read := map[R4Task := GATE_BUSY]);
    StallSteps(s1, s2, s3, s4);
    RunCons(s4, Wake(GateTask, R4_BUSY), [], STALLED);
    RunCons(s3, Enter(R4Task, 1, GATE_BUSY), STALL[4..], s4);
    RunCons(s2, Finish(0), STALL[3..], s3);
    RunCons(s1, Enter(GateTask, 1, QUIET), STALL[2..], s2);
    RunCons(Init(), Enter(R4Task, 1, QUIET), STALL[1..], s1);
    assert STALL[4..] == [Wake(GateTask, R4_BUSY)] + [];
    assert STALL[3..] == [Enter(R4Task, 1, GATE_BUSY)] + STALL[4..];
    assert STALL[2..] == [Finish(0)] + STALL[3..];
    assert STALL[1..] == [Enter(GateTask, 1, QUIET)] + STALL[2..];
    assert STALL == [Enter(R4Task, 1, QUIET)] + STALL[1..];
  }

  lemma {:induction false} RunCons(s: State, e: Event, es: seq<Event>, t: State)
    requires Next(s, e) == Some(t)
    ensures RunEvents(s, [e] + es) == RunEvents(t, es)
  {
    assert ([e] + es)[1..] == es;
  }

  lemma {:induction false} StallSteps(s1: State, s2: State, s3: State, s4: State)
    requires s1 == State(true, map[], 1, {}, map[], [R4Task])
    requires s2 == s1.(waiting := map[GateTask := Waiter(1, 2)], arrivals := 2)
    requires s3 == s2.(active := false, due := {GateTask}, running := [])
    requires s4 == s3.(waiting := map[R4Task := Waiter(1, 3), GateTask := Waiter(1, 2)], arrivals := 3,
                       read := map[R4Task := GATE_BUSY])
    ensures Next(Init(), Enter(R4Task, 1, QUIET)) == Some(s1)
    ensures Next(s1, Enter(GateTask, 1, QUIET)) == Some(s2)
    ensures Next(s2, Finish(0)) == Some(s3)
    ensures Next(s3, Enter(R4Task, 1, GATE_BUSY)) == Some(s4)
    ensures Next(s4, Wake(GateTask, R4_BUSY)) == Some(STALLED)
  {
    var first := Arrived(Init(), R4Task, 1);
    assert Selected(first, QUIET) == Some(R4Task) && first.waiting - {R4Task} == map[];
    assert first.due - {R4Task} == {} && [] + [R4Task] == [R4Task];
    assert Evaluate(first, R4Task, QUIET) == s1;
    assert Arrived(s1, GateTask, 1).waiting == s2.waiting && s2.due - {GateTask} == {};
    assert s2.waiting.Keys == {GateTask};
    assert [R4Task][..0] + [R4Task][1..] == [];
    assert Arrived(s3, R4Task, 1).waiting == s4.waiting && s3.due - {R4Task} == {GateTask};
    assert s3.read[R4Task := GATE_BUSY] == s4.read;
    assert s4.due - {GateTask} == {} && s4.read[GateTask := R4_BUSY] == STALLED.read;
  }

  /** So a run of the scheduler can leave both kinds waiting for an idle model for ever. */
  lemma {:induction false} DifferentSnapshotsCanStall()
    ensures RunEvents(Init(), STALL).Some? && Stuck(RunEvents(Init(), STALL).value)
    ensures NobodyGivesUp(STALL)
  {
    StallRuns();
    StuckIff(STALL);
  }

  /** Giving up a wait notifies nobody: the other waiter may start on any queue lengths, and is not woken. */
  lemma {:induction false} GiveUpWakesNobody()
    ensures var r := Next(STALLED, GiveUp(R4Task));
      r.Some? && r.value.due == {} && forall b :: MayStart(r.value, GateTask, b)
  {
    assert STALLED.waiting - {R4Task} == map[GateTask := Waiter(1, 2)];
  }

  // ---------------------------------------------------------------- the object

  class QueueLengthInferenceScheduler {
    var active: bool
    var waiting: map<Task, Waiter>
    var arrivals: nat
    ghost var due: set<Task>
    ghost var read: map<Task, Backlog>
    ghost var running: seq<Task>

    ghost function View(): State
      reads this
    {
      State(active, waiting, arrivals, due, read, running)
    }

    ghost predicate Valid()
      reads this
    {
      Inv(View())
    }

    constructor ()
      ensures Valid() && View() == Init()
    {
      active, waiting, arrivals := false, map[], 0;
      due, read, running := {}, map[], [];
    }

    /** A batch arrives and evaluates at once; a second one of the same kind is an error and changes nothing. */
    method Enter(task: Task, size: nat, backlog: Backlog) returns (ok: bool, started: bool)
      requires Valid()
      modifies this
      ensures Valid() && ok == (task !in old(waiting))
      ensures ok ==> Some(View()) == Next(old(View()), Event.Enter(task, size, backlog))
      ensures ok ==> EnterMeans(old(View()), View(), task, size, backlog, started)
      ensures !ok ==> View() == old(View()) && !started
    {
      if task in waiting {
        return false, false;
      }
      StepKeepsInv(View(), Event.Enter(task, size, backlog));
      EnterIsMeant(View(), task, size, backlog);
      Register(task, size);
      started := EvaluateNow(task, backlog);
      return true, started;
    }

    method Register(task: Task, size: nat)
      modifies this
      ensures View() == Arrived(old(View()), task, size)
    {
      arrivals := arrivals + 1;
      waiting := waiting[task := Waiter(size, arrivals)];
    }

    /** The wait condition, and what follows from it under the same hold of the lock. */
    method EvaluateNow(task: Task, backlog: Backlog) returns (started: bool)
      requires task in waiting
      modifies this
      ensures started == old(MayStart(View(), task, backlog))
      ensures View() == Evaluate(old(View()), task, backlog)
    {
      started := MayStart(State(active, waiting, arrivals, {}, map[], []), task, backlog);
      if started {
        active := true;
        waiting := waiting - {task};
        due, read, running := due - {task}, map[], running + [task];
      } else {
        due, read := due - {task}, if active then read else read[task := backlog];
      }
    }

    /** A woken waiter evaluates again. */
    method Wake(task: Task, backlog: Backlog) returns (started: bool)
      requires Valid() && task in due
      modifies this
      ensures Valid() && started == old(!active && GoesFirst(waiting, task, backlog))
      ensures Some(View()) == Next(old(View()), Event.Wake(task, backlog))
    {
      MayStartIff(View(), task, backlog);
      StepKeepsInv(View(), Event.Wake(task, backlog));
      started := EvaluateNow(task, backlog);
    }

    /** The model is released and every waiter is notified. */
    method Finish()
      requires Valid() && active
      modifies this
      ensures Valid() && Some(View()) == Next(old(View()), Event.Finish(0))
      ensures !active && running == [] && due == waiting.Keys
    {
      StepKeepsInv(View(), Event.Finish(0));
      active := false;
      due, read, running := waiting.Keys, map[], running[..0] + running[1..];
    }
  }
}
