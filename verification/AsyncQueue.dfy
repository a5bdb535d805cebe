/** The bounded statement queue of `DBHandler`: one caller of QueryAsync, any number of
    consumer threads, one mutex and one condition variable. Every atomic action of a thread is
    a step, and a run is any interleaving of enabled steps. */
module AsyncQueue {
  import opened Options

  type Statement = string

  /** CircularBuffer<std::string, 1024>, taken as a bounded FIFO. */
  const CAPACITY := 1024

  /** Where a consumer thread stands in ConsumeQueryThread. */
  datatype Worker =
    | AtLoop                       // about to read running_
    | Locking                      // constructing the unique_lock
    | FirstCheck                   // holds the mutex, before the first isEmpty
    | Asleep                       // inside wait_for, in the wait set, mutex released
    | Woken                        // out of the wait set, wants the mutex back
    | SecondCheck                  // holds the mutex, before the second isEmpty
    | Popped(sql: Statement)       // holds the mutex, before lock.unlock()
    | Querying(sql: Statement)     // executing the statement without the mutex
    | Leaving                      // holds the mutex, the lock goes out of scope
    | Exited

  /** Where the calling thread stands in QueryAsync. */
  datatype Caller =
    | Idle
    | Calling(sql: Statement)      // constructing the lock_guard
    | Testing(sql: Statement)      // holds the mutex, before isFull
    | Pushed(sql: Statement)       // holds the mutex, before notify_one
    | Returning(sql: Statement, ok: bool)  // holds the mutex, the guard goes out of scope

  datatype Owner = Free | ByCaller | ByWorker(index: nat)

  /** `accepted`, `popped`, `executed` and `returned`, the answers of QueryAsync, record history; no
      step reads them. */
  datatype State = State(
    running: bool,
    notified: bool,
    owner: Owner,
    buffer: seq<Statement>,
    caller: Caller,
    workers: seq<Worker>,
    accepted: seq<Statement>,
    popped: seq<Statement>,
    executed: seq<Statement>,
    returned: seq<(Statement, bool)>)

  datatype Step =
    | Call(sql: Statement)
    | CallerLock
    | CallerTest
    | CallerNotify(chosen: nat)    // the sleeper notify_one picks, if any sleeps
    | CallerUnlock
    | Work(i: nat)                 // the next action of consumer i
    | Wake(i: nat)                 // time-out or spurious wake-up of consumer i
    | Stop                         // the destructor clears running_
    | NotifyAll                    // the destructor wakes every sleeper, once

  function Start(n: nat): State {
    State(true, false, Free, [], Idle, seq(n, _ => AtLoop), [], [], [], [])
  }

  predicate SomeoneAsleep(s: State) {
    exists i :: 0 <= i < |s.workers| && s.workers[i].Asleep?
  }

  predicate Enabled(s: State, step: Step) {
    match step
    case Call(_) => s.caller.Idle?
    case CallerLock => s.caller.Calling? && s.owner.Free?
    case CallerTest => s.caller.Testing?
    case CallerNotify(w) =>
      s.caller.Pushed? && (SomeoneAsleep(s) ==> w < |s.workers| && s.workers[w].Asleep?)
    case CallerUnlock => s.caller.Returning?
    case Work(i) =>
      && i < |s.workers|
      && (match s.workers[i]
          case Locking => s.owner.Free?
          case Woken => s.owner.Free?
          case Asleep => false
          case Exited => false
          case _ => true)
    case Wake(i) => i < |s.workers| && s.workers[i].Asleep?
    case Stop => s.running
    case NotifyAll => !s.running && !s.notified
  }

  function Apply(s: State, step: Step): State
    requires Enabled(s, step)
  {
    match step
    case Call(sql) => s.(caller := Calling(sql))
    case CallerLock => s.(caller := Testing(s.caller.sql), owner := ByCaller)
    case CallerTest =>
      if |s.buffer| < CAPACITY then
        s.(caller := Pushed(s.caller.sql), buffer := s.buffer + [s.caller.sql], accepted := s.accepted + [s.caller.sql])
      else
        s.(caller := Returning(s.caller.sql, false))
    case CallerNotify(w) =>
      var s' := s.(caller := Returning(s.caller.sql, true));
      if SomeoneAsleep(s) then s'.(workers := s.workers[w := Woken]) else s'
    case CallerUnlock =>
      s.(caller := Idle, owner := Free, returned := s.returned + [(s.caller.sql, s.caller.ok)])
    case Work(i) => WorkerAction(s, i)
    case Wake(i) => s.(workers := s.workers[i := Woken])
    case Stop => s.(running := false)
    case NotifyAll =>
      s.(notified := true, workers := seq(|s.workers|, i requires 0 <= i < |s.workers| =>
                                    if s.workers[i].Asleep? then Woken else s.workers[i]))
  }

  function WorkerAction(s: State, i: nat): State
    requires Enabled(s, Work(i))
  {
    match s.workers[i]
    case AtLoop => s.(workers := s.workers[i := if s.running then Locking else Exited])
    case Locking => s.(workers := s.workers[i := FirstCheck], owner := ByWorker(i))
    case FirstCheck =>
      if s.buffer == [] then s.(workers := s.workers[i := Asleep], owner := Free)
      else s.(workers := s.workers[i := SecondCheck])
    case Woken => s.(workers := s.workers[i := SecondCheck], owner := ByWorker(i))
    case SecondCheck =>
      if s.buffer == [] then s.(workers := s.workers[i := Leaving])
      else s.(workers := s.workers[i := Popped(s.buffer[0])],
              buffer := s.buffer[1..], popped := s.popped + [s.buffer[0]])
    case Popped(sql) => s.(workers := s.workers[i := Querying(sql)], owner := Free)
    case Querying(sql) => s.(workers := s.workers[i := AtLoop], executed := s.executed + [sql])
    case Leaving => s.(workers := s.workers[i := AtLoop], owner := Free)
  }

  /** The state a schedule leads to, or None when it asks for a step that is not enabled. */
  function RunFrom(s: State, steps: seq<Step>): Option<State>
    decreases |steps|
  {
    if steps == [] then Some(s)
    else if Enabled(s, steps[0]) then RunFrom(Apply(s, steps[0]), steps[1..])
    else None
  }

  function Run(n: nat, steps: seq<Step>): Option<State> {
    RunFrom(Start(n), steps)
  }

  // ----- the invariant -----

  predicate HoldsMutex(w: Worker) {
    w.FirstCheck? || w.SecondCheck? || w.Popped? || w.Leaving?
  }

  predicate CallerHolds(c: Caller) {
    c.Testing? || c.Pushed? || c.Returning?
  }

  ghost predicate MutualExclusion(s: State) {
    && (s.owner.ByCaller? <==> CallerHolds(s.caller))
    && (s.owner.ByWorker? ==> s.owner.index < |s.workers|)
    && forall i :: 0 <= i < |s.workers| ==> (HoldsMutex(s.workers[i]) <==> s.owner == ByWorker(i))
  }

  /** A worker the scheduler will run again without any further notification. */
  ghost predicate SomeoneUp(s: State) {
    exists i :: 0 <= i < |s.workers| && !s.workers[i].Asleep?
  }

  predicate Carries(w: Worker, x: Statement) {
    (w.Popped? || w.Querying?) && w.sql == x
  }

  /** How many consumers have popped x and not finished executing it. */
  function InFlight(ws: seq<Worker>, x: Statement): (c: nat)
    ensures c <= |ws|
  {
    if ws == [] then 0 else (if Carries(ws[0], x) then 1 else 0) + InFlight(ws[1..], x)
  }

  /** How many consumers have popped some statement and not finished executing it. */
  function Busy(ws: seq<Worker>): (c: nat)
    ensures c <= |ws|
  {
    if ws == [] then 0 else (if ws[0].Popped? || ws[0].Querying? then 1 else 0) + Busy(ws[1..])
  }

  /** Occurrences of x in s. */
  function Count(s: seq<Statement>, x: Statement): nat {
    multiset(s)[x]
  }

  ghost predicate Fifo(s: State) {
    s.accepted == s.popped + s.buffer && |s.buffer| <= CAPACITY
  }

  ghost predicate Counted(s: State) {
    && (forall x :: Count(s.popped, x) == Count(s.executed, x) + InFlight(s.workers, x))
    && |s.popped| == |s.executed| + Busy(s.workers)
  }

  ghost predicate NoLostWakeup(s: State) {
    s.running && |s.workers| > 0 && s.buffer != [] ==> SomeoneUp(s) || s.caller.Pushed?
  }

  ghost predicate Inv(n: nat, s: State) {
    && |s.workers| == n
    && MutualExclusion(s)
    && Fifo(s)
    && Counted(s)
    && NoLostWakeup(s)
  }

  lemma {:induction false} InFlightUpdate(ws: seq<Worker>, i: nat, w: Worker, x: Statement)
    requires i < |ws|
    ensures InFlight(ws[i := w], x) + (if Carries(ws[i], x) then 1 else 0)
         == InFlight(ws, x) + (if Carries(w, x) then 1 else 0)
  {
    if i == 0 {
      assert ws[i := w][1..] == ws[1..];
    } else {
      assert ws[i := w][1..] == ws[1..][i - 1 := w];
      InFlightUpdate(ws[1..], i - 1, w, x);
    }
  }

  lemma {:induction false} BusyUpdate(ws: seq<Worker>, i: nat, w: Worker)
    requires i < |ws|
    ensures Busy(ws[i := w]) + (if ws[i].Popped? || ws[i].Querying? then 1 else 0)
         == Busy(ws) + (if w.Popped? || w.Querying? then 1 else 0)
  {
    if i == 0 {
      assert ws[i := w][1..] == ws[1..];
    } else {
      assert ws[i := w][1..] == ws[1..][i - 1 := w];
      BusyUpdate(ws[1..], i - 1, w);
    }
  }

  lemma UpdateOne(ws: seq<Worker>, i: nat, w: Worker)
    requires i < |ws|
    ensures forall x :: InFlight(ws[i := w], x) + (if Carries(ws[i], x) then 1 else 0)
                     == InFlight(ws, x) + (if Carries(w, x) then 1 else 0)
    ensures Busy(ws[i := w]) + (if ws[i].Popped? || ws[i].Querying? then 1 else 0)
         == Busy(ws) + (if w.Popped? || w.Querying? then 1 else 0)
  {
    BusyUpdate(ws, i, w);
    forall x { InFlightUpdate(ws, i, w, x); }
  }

  lemma {:induction false} WakingKeepsCounts(ws: seq<Worker>, vs: seq<Worker>, x: Statement)
    requires |ws| == |vs|
    requires forall i :: 0 <= i < |ws| ==> vs[i] == ws[i] || (ws[i].Asleep? && vs[i].Woken?)
    ensures InFlight(ws, x) == InFlight(vs, x) && Busy(ws) == Busy(vs)
  {
    if ws != [] {
      assert forall i :: 0 <= i < |ws| - 1 ==> ws[1..][i] == ws[i + 1] && vs[1..][i] == vs[i + 1];
      WakingKeepsCounts(ws[1..], vs[1..], x);
    }
  }

  lemma {:induction false} NobodyBusyAtLoop(ws: seq<Worker>, x: Statement)
    requires forall i :: 0 <= i < |ws| ==> ws[i].AtLoop?
    ensures InFlight(ws, x) == 0 && Busy(ws) == 0
  {
    if ws != [] {
      assert forall i :: 0 <= i < |ws| - 1 ==> ws[1..][i] == ws[i + 1];
      NobodyBusyAtLoop(ws[1..], x);
    }
  }

  lemma StartInv(n: nat)
    ensures Inv(n, Start(n))
  {
    forall x { NobodyBusyAtLoop(Start(n).workers, x); }
    NobodyBusyAtLoop(Start(n).workers, "");
  }

  lemma CountAppend(s: seq<Statement>, x: Statement)
    ensures forall y :: Count(s + [x], y) == Count(s, y) + (if y == x then 1 else 0)
  {
  }

  lemma ApplyFifo(s: State, step: Step)
    requires Fifo(s) && Enabled(s, step)
    ensures Fifo(Apply(s, step))
  {
    if step.Work? && s.workers[step.i].SecondCheck? && s.buffer != [] {
      assert s.buffer == [s.buffer[0]] + s.buffer[1..];
    }
  }

  predicate IsBusy(w: Worker) {
    w.Popped? || w.Querying?
  }

  lemma CountsSame(s: State, s': State, i: nat, w: Worker)
    requires Counted(s) && i < |s.workers| && s'.workers == s.workers[i := w] && !IsBusy(s.workers[i]) && !IsBusy(w)
    requires s'.popped == s.popped && s'.executed == s.executed
    ensures Counted(s')
  {
    UpdateOne(s.workers, i, w);
  }

  lemma CountsStart(s: State, s': State, i: nat, x: Statement)
    requires Counted(s) && i < |s.workers| && s.workers[i] == Popped(x) && s'.workers == s.workers[i := Querying(x)]
    requires s'.popped == s.popped && s'.executed == s.executed
    ensures Counted(s')
  {
    UpdateOne(s.workers, i, Querying(x));
  }

  lemma CountsPop(s: State, s': State, i: nat, x: Statement)
    requires Counted(s) && i < |s.workers| && !IsBusy(s.workers[i]) && s'.workers == s.workers[i := Popped(x)]
    requires s'.popped == s.popped + [x] && s'.executed == s.executed
    ensures Counted(s')
  {
    UpdateOne(s.workers, i, Popped(x));
    CountAppend(s.popped, x);
  }

  lemma CountsDone(s: State, s': State, i: nat, x: Statement)
    requires Counted(s) && i < |s.workers| && s.workers[i] == Querying(x) && s'.workers == s.workers[i := AtLoop]
    requires s'.popped == s.popped && s'.executed == s.executed + [x]
    ensures Counted(s')
  {
    UpdateOne(s.workers, i, AtLoop);
    CountAppend(s.executed, x);
  }

  lemma WorkCounts(s: State, i: nat)
    requires Counted(s) && Enabled(s, Work(i))
    ensures Counted(Apply(s, Work(i)))
  {
    hide Counted;
    var s' := Apply(s, Work(i));
    var w := s'.workers[i];
    match s.workers[i] {
      case SecondCheck =>
        if s.buffer == [] { CountsSame(s, s', i, Leaving); } else { CountsPop(s, s', i, s.buffer[0]); }
      case Popped(x) => CountsStart(s, s', i, x);
      case Querying(x) => CountsDone(s, s', i, x);
      case _ => CountsSame(s, s', i, w);
    }
  }

  lemma ApplyCounts(s: State, step: Step)
    requires Counted(s) && Enabled(s, step)
    ensures Counted(Apply(s, step))
  {
    if step.Work? {
      WorkCounts(s, step.i);
    } else {
      var s' := Apply(s, step);
      WakingKeepsCounts(s.workers, s'.workers, "");
      forall x ensures Count(s'.popped, x) == Count(s'.executed, x) + InFlight(s'.workers, x) {
        WakingKeepsCounts(s.workers, s'.workers, x);
      }
    }
  }

  lemma WorkExcludes(s: State, i: nat)
    requires MutualExclusion(s) && Enabled(s, Work(i))
    ensures MutualExclusion(Apply(s, Work(i)))
  {
    var s' := Apply(s, Work(i));
    assert HoldsMutex(s.workers[i]) <==> s.owner == ByWorker(i);
    assert forall j :: 0 <= j < |s.workers| && j != i ==> s'.workers[j] == s.workers[j];
  }

  lemma ApplyExcludes(s: State, step: Step)
    requires MutualExclusion(s) && Enabled(s, step)
    ensures |Apply(s, step).workers| == |s.workers|
    ensures MutualExclusion(Apply(s, step))
  {
    if step.Work? {
      WorkExcludes(s, step.i);
    } else {
      var s' := Apply(s, step);
      assert forall j :: 0 <= j < |s.workers| ==> HoldsMutex(s'.workers[j]) == HoldsMutex(s.workers[j]);
    }
  }

  lemma ApplyNoLostWakeup(n: nat, s: State, step: Step)
    requires Inv(n, s) && Enabled(s, step)
    ensures NoLostWakeup(Apply(s, step))
  {
    var s' := Apply(s, step);
    if s'.running && |s'.workers| > 0 && s'.buffer != [] {
      match step {
        case CallerNotify(w) =>
          if SomeoneAsleep(s) { assert !s'.workers[w].Asleep?; } else { assert !s'.workers[0].Asleep?; }
        case Work(i) => assert !s'.workers[i].Asleep?;
        case Wake(i) => assert !s'.workers[i].Asleep?;
        case _ =>
      }
    }
  }

  lemma ApplyInv(n: nat, s: State, step: Step)
    requires Inv(n, s) && Enabled(s, step)
    ensures Inv(n, Apply(s, step))
  {
    ApplyExcludes(s, step);
    ApplyFifo(s, step);
    ApplyCounts(s, step);
    ApplyNoLostWakeup(n, s, step);
  }

  lemma {:induction false} RunFromInv(n: nat, s: State, steps: seq<Step>)
    requires Inv(n, s)
    ensures RunFrom(s, steps).Some? ==> Inv(n, RunFrom(s, steps).value)
    decreases |steps|
  {
    if steps != [] && Enabled(s, steps[0]) {
      ApplyInv(n, s, steps[0]);
      RunFromInv(n, Apply(s, steps[0]), steps[1..]);
    }
  }

  lemma {:induction false} RunInv(n: nat, steps: seq<Step>)
    requires Run(n, steps).Some?
    ensures Inv(n, Run(n, steps).value)
  {
    StartInv(n);
    RunFromInv(n, Start(n), steps);
  }

  // ----- safety over every run -----

  /** In every interleaving, with spurious wake-ups and time-outs: while the handler runs and a
      statement waits, either a consumer is up and has not left, or the caller stands between push
      and notify_one. */
  lemma WakeupNeverLost(n: nat, steps: seq<Step>)
    requires n > 0 && Run(n, steps).Some?
    ensures var s := Run(n, steps).value;
            |s.workers| == n &&
            (s.running && s.buffer != [] && !s.caller.Pushed? ==>
              exists i :: 0 <= i < n && !s.workers[i].Asleep? && !s.workers[i].Exited?)
  {
    RunInv(n, steps);
    RunFromNobodyExits(Start(n), steps);
  }

  /** Nothing is lost, duplicated or reordered up to the pop; at most one statement per
      consumer is between pop and execution; the buffer never exceeds its capacity. */
  lemma QueueConserves(n: nat, steps: seq<Step>)
    requires Run(n, steps).Some?
    ensures var s := Run(n, steps).value;
            && s.accepted == s.popped + s.buffer
            && (forall x :: Count(s.popped, x) == Count(s.executed, x) + InFlight(s.workers, x))
            && |s.popped| == |s.executed| + Busy(s.workers) <= |s.executed| + n
            && |s.buffer| <= 1024
  {
    RunInv(n, steps);
  }

  /** Two threads never hold the mutex at once. */
  lemma MutexIsExclusive(n: nat, steps: seq<Step>, i: nat, j: nat)
    requires Run(n, steps).Some? && i < n && j < n
    ensures var s := Run(n, steps).value;
            && |s.workers| == n
            && !(CallerHolds(s.caller) && HoldsMutex(s.workers[i]))
            && (HoldsMutex(s.workers[i]) && HoldsMutex(s.workers[j]) ==> i == j)
  {
    RunInv(n, steps);
  }

  // ----- what QueryAsync answers -----

  /** QueryAsync decides to refuse exactly when the buffer is full, and a refusal touches nothing. */
  lemma RefusalExactlyWhenFull(n: nat, steps: seq<Step>)
    requires Run(n, steps).Some? && Run(n, steps).value.caller.Testing?
    ensures var s := Run(n, steps).value;
            var s' := Apply(s, CallerTest);
            && (s'.caller.Returning? <==> |s.accepted| - |s.popped| == 1024)
            && (s'.caller.Returning? ==> s' == s.(caller := Returning(s.caller.sql, false)))
  {
    RunInv(n, steps);
  }

  /** The statements of the calls of a schedule, in order. */
  function Asked(steps: seq<Step>): seq<Statement> {
    if steps == [] then []
    else AskedBy(steps[0]) + Asked(steps[1..])
  }

  function Statements(answers: seq<(Statement, bool)>): seq<Statement> {
    seq(|answers|, k requires 0 <= k < |answers| => answers[k].0)
  }

  /** The statements answered with true, in order. */
  function Granted(answers: seq<(Statement, bool)>): seq<Statement> {
    if answers == [] then []
    else
      var last := answers[|answers| - 1];
      Granted(answers[..|answers| - 1]) + if last.1 then [last.0] else []
  }

  /** The statement of a call under way. */
  function InCall(c: Caller): seq<Statement> {
    if c.Idle? then [] else [c.sql]
  }

  /** The statement of a call that is accepted and has not returned yet. */
  function BeingGranted(c: Caller): seq<Statement> {
    if c.Pushed? || (c.Returning? && c.ok) then [c.sql] else []
  }

  /** Every statement asked for so far, and every one granted. */
  function AllAsked(s: State): seq<Statement> {
    Statements(s.returned) + InCall(s.caller)
  }

  function AllGranted(s: State): seq<Statement> {
    Granted(s.returned) + BeingGranted(s.caller)
  }

  function AskedBy(step: Step): seq<Statement> {
    if step.Call? then [step.sql] else []
  }

  /** A step that neither calls nor returns. */
  lemma SameAnswers(s: State, step: Step)
    requires Enabled(s, step)
    ensures var s' := Apply(s, step);
            && (step.CallerUnlock? || s'.returned == s.returned)
            && (step.CallerTest? || s'.accepted == s.accepted)
            && (step.Call? || step.CallerUnlock? || InCall(s'.caller) == InCall(s.caller))
            && (step.CallerTest? || step.CallerUnlock? || BeingGranted(s'.caller) == BeingGranted(s.caller))
  {
  }

  lemma OneMoreAnswer(answers: seq<(Statement, bool)>, x: Statement, ok: bool)
    ensures Granted(answers + [(x, ok)]) == Granted(answers) + (if ok then [x] else [])
    ensures Statements(answers + [(x, ok)]) == Statements(answers) + [x]
  {
    assert (answers + [(x, ok)])[..|answers|] == answers;
  }

  /** The return of a call moves its statement from the caller to the answers. */
  lemma ReturnAnswers(s: State)
    requires Enabled(s, CallerUnlock)
    ensures var s' := Apply(s, CallerUnlock); AllAsked(s') == AllAsked(s) && AllGranted(s') == AllGranted(s)
  {
    OneMoreAnswer(s.returned, s.caller.sql, s.caller.ok);
    hide Granted, Statements;
    assert Granted(s.returned) + [] == Granted(s.returned);
  }

  lemma StepAsks(s: State, step: Step)
    requires Enabled(s, step)
    ensures AllAsked(Apply(s, step)) == AllAsked(s) + AskedBy(step)
  {
    if step.CallerUnlock? {
      ReturnAnswers(s);
    } else if step.Call? {
      assert Apply(s, step).returned == s.returned;
    } else {
      SameAnswers(s, step);
      hide Apply, Enabled, InCall, Statements;
    }
  }

  lemma StepGrants(s: State, step: Step)
    requires Enabled(s, step) && AllGranted(s) == s.accepted
    ensures AllGranted(Apply(s, step)) == Apply(s, step).accepted
  {
    SameAnswers(s, step);
    if step.CallerUnlock? {
      ReturnAnswers(s);
    } else if step.CallerTest? {
      assert Granted(s.returned) + [] == Granted(s.returned);
    } else {
      hide Apply, Enabled, BeingGranted, Granted;
    }
  }

  lemma {:induction false} RunFromGrants(s: State, steps: seq<Step>)
    requires AllGranted(s) == s.accepted
    ensures RunFrom(s, steps).Some? ==> AllGranted(RunFrom(s, steps).value) == RunFrom(s, steps).value.accepted
    decreases |steps|
  {
    if steps != [] && Enabled(s, steps[0]) {
      StepGrants(s, steps[0]);
      hide Apply, Enabled, AllGranted;
      RunFromGrants(Apply(s, steps[0]), steps[1..]);
    }
  }

  lemma Associate(a: seq<Statement>, b: seq<Statement>, c: seq<Statement>)
    ensures (a + b) + c == a + (b + c)
  {
  }

  lemma {:induction false} RunFromAsks(s: State, steps: seq<Step>)
    ensures RunFrom(s, steps).Some? ==> AllAsked(RunFrom(s, steps).value) == AllAsked(s) + Asked(steps)
    decreases |steps|
  {
    if steps == [] {
      assert AllAsked(s) + [] == AllAsked(s);
    } else if Enabled(s, steps[0]) {
      StepAsks(s, steps[0]);
      hide Apply, Enabled, AllAsked, AskedBy;
      RunFromAsks(Apply(s, steps[0]), steps[1..]);
      Associate(AllAsked(s), AskedBy(steps[0]), Asked(steps[1..]));
    }
  }

  /** Every call gets one answer, in order, and the statements answered with true are, in order,
      the accepted ones: all of those, but for one whose call has not returned yet. */
  lemma AnswersAreHonest(n: nat, steps: seq<Step>)
    requires Run(n, steps).Some?
    ensures var s := Run(n, steps).value;
            && Statements(s.returned) + InCall(s.caller) == Asked(steps)
            && Granted(s.returned) + BeingGranted(s.caller) == s.accepted
  {
    RunFromAsks(Start(n), steps);
    RunFromGrants(Start(n), steps);
  }

  // ----- one consumer: execution order is acceptance order -----

  function Pending(w: Worker): seq<Statement> {
    if w.Popped? || w.Querying? then [w.sql] else []
  }

  ghost predicate InOrder(s: State) {
    |s.workers| == 1 && s.popped == s.executed + Pending(s.workers[0])
  }

  lemma {:induction false} RunFromInOrder(s: State, steps: seq<Step>)
    requires InOrder(s)
    ensures RunFrom(s, steps).Some? ==> InOrder(RunFrom(s, steps).value)
    decreases |steps|
  {
    if steps != [] && Enabled(s, steps[0]) {
      RunFromInOrder(Apply(s, steps[0]), steps[1..]);
    }
  }

  lemma OneConsumerKeepsOrder(steps: seq<Step>)
    requires Run(1, steps).Some?
    ensures var s := Run(1, steps).value;
            |s.workers| == 1 && s.executed + Pending(s.workers[0]) + s.buffer == s.accepted
  {
    RunFromInOrder(Start(1), steps);
    RunInv(1, steps);
  }

  // ----- what the protocol does not promise -----

  lemma {:induction false} RunFromAppend(s: State, front: seq<Step>, back: seq<Step>)
    requires RunFrom(s, front).Some?
    ensures RunFrom(s, front + back) == RunFrom(RunFrom(s, front).value, back)
    decreases |front|
  {
    if front == [] {
      assert front + back == back;
    } else {
      assert (front + back)[1..] == front[1..] + back;
      RunFromAppend(Apply(s, front[0]), front[1..], back);
    }
  }

  lemma Extend(n: nat, steps: seq<Step>, step: Step) returns (longer: seq<Step>)
    requires Run(n, steps).Some? && Enabled(Run(n, steps).value, step)
    ensures longer == steps + [step]
    ensures Run(n, longer) == Some(Apply(Run(n, steps).value, step))
  {
    longer := steps + [step];
    RunFromAppend(Start(n), steps, [step]);
  }

  /** An uncontended QueryAsync while no consumer is asleep. */
  lemma Offer(n: nat, steps: seq<Step>, x: Statement) returns (longer: seq<Step>)
    requires Run(n, steps).Some?
    requires var s := Run(n, steps).value;
             s.caller.Idle? && s.owner.Free? && |s.buffer| < CAPACITY && !SomeoneAsleep(s)
    ensures var s := Run(n, steps).value;
            Run(n, longer) == Some(s.(buffer := s.buffer + [x], accepted := s.accepted + [x],
                                      returned := s.returned + [(x, true)]))
  {
    longer := Extend(n, steps, Call(x));
    longer := Extend(n, longer, CallerLock);
    longer := Extend(n, longer, CallerTest);
    longer := Extend(n, longer, CallerNotify(0));
    longer := Extend(n, longer, CallerUnlock);
  }

  /** An uncontended turn of consumer i, from its loop test to the start of the query. */
  lemma Take(n: nat, steps: seq<Step>, i: nat) returns (longer: seq<Step>)
    requires Run(n, steps).Some?
    requires var s := Run(n, steps).value;
             s.running && s.owner.Free? && s.buffer != [] && i < |s.workers| && s.workers[i].AtLoop?
    ensures var s := Run(n, steps).value;
            Run(n, longer) == Some(s.(workers := s.workers[i := Querying(s.buffer[0])],
                                      buffer := s.buffer[1..], popped := s.popped + [s.buffer[0]]))
  {
    longer := steps;
    for k := 0 to 5
      invariant Run(n, longer).Some?
      invariant var s := Run(n, steps).value;
                Run(n, longer).value ==
                  if k == 0 then s
                  else if k == 1 then s.(workers := s.workers[i := Locking])
                  else if k == 2 then s.(workers := s.workers[i := FirstCheck], owner := ByWorker(i))
                  else if k == 3 then s.(workers := s.workers[i := SecondCheck], owner := ByWorker(i))
                  else if k == 4 then s.(workers := s.workers[i := Popped(s.buffer[0])], owner := ByWorker(i),
                                         buffer := s.buffer[1..], popped := s.popped + [s.buffer[0]])
                  else s.(workers := s.workers[i := Querying(s.buffer[0])],
                          buffer := s.buffer[1..], popped := s.popped + [s.buffer[0]])
    {
      longer := Extend(n, longer, Work(i));
    }
  }

  /** With two consumers or more, statements can be executed in another order than accepted. */
  lemma ManyConsumersMayReorder(n: nat)
    requires n >= 2
    ensures exists steps :: Run(n, steps).Some? && Run(n, steps).value.accepted == ["a", "b"]
                         && Run(n, steps).value.executed == ["b", "a"]
  {
    var steps := Offer(n, [], "a");
    steps := Offer(n, steps, "b");
    steps := Take(n, steps, 0);
    steps := Take(n, steps, 1);
    steps := Extend(n, steps, Work(1));
    steps := Extend(n, steps, Work(0));
  }

  ghost predicate KeepsOrder(n: nat, steps: seq<Step>) {
    Run(n, steps).Some? ==> Run(n, steps).value.executed <= Run(n, steps).value.accepted
  }

  lemma {:induction false} NobodyExecutes(s: State, steps: seq<Step>)
    requires s.workers == [] && s.executed == []
    ensures RunFrom(s, steps).Some? ==> RunFrom(s, steps).value.executed == []
    decreases |steps|
  {
    if steps != [] && Enabled(s, steps[0]) {
      NobodyExecutes(Apply(s, steps[0]), steps[1..]);
    }
  }

  /** Every run executes in acceptance order exactly when there is at most one consumer. */
  lemma OrderKeptExactly(n: nat)
    ensures (forall steps :: KeepsOrder(n, steps)) <==> n <= 1
  {
    if n >= 2 {
      ManyConsumersMayReorder(n);
      var steps :| Run(n, steps).Some? && Run(n, steps).value.accepted == ["a", "b"]
                && Run(n, steps).value.executed == ["b", "a"];
      assert "b"[0] != "a"[0] && ["b", "a"][0] != ["a", "b"][0];
      assert !KeepsOrder(n, steps);
    } else {
      forall steps ensures KeepsOrder(n, steps) {
        if n == 0 { NobodyExecutes(Start(0), steps); }
        else if Run(1, steps).Some? { OneConsumerKeepsOrder(steps); }
      }
    }
  }

  // ----- shutting down -----

  /** Once running_ is cleared: whether the consumer will still look into the buffer a last time. */
  predicate IsDue(w: Worker) {
    w.Locking? || w.FirstCheck? || w.Asleep? || w.Woken? || w.SecondCheck?
  }

  function DueOf(w: Worker): nat {
    if IsDue(w) then 1 else 0
  }

  function Sum(ws: seq<Worker>, f: Worker -> nat): nat {
    if ws == [] then 0 else f(ws[0]) + Sum(ws[1..], f)
  }

  lemma {:induction false} SumUpdate(ws: seq<Worker>, i: nat, w: Worker, f: Worker -> nat)
    requires i < |ws|
    ensures Sum(ws[i := w], f) + f(ws[i]) == Sum(ws, f) + f(w)
  {
    if i == 0 {
      assert ws[i := w][1..] == ws[1..];
    } else {
      assert ws[i := w][1..] == ws[1..][i - 1 := w];
      SumUpdate(ws[1..], i - 1, w, f);
    }
  }

  lemma {:induction false} SumSame(ws: seq<Worker>, vs: seq<Worker>, f: Worker -> nat)
    requires |ws| == |vs| && forall i :: 0 <= i < |ws| ==> f(ws[i]) == f(vs[i])
    ensures Sum(ws, f) == Sum(vs, f)
  {
    if ws != [] {
      assert forall i :: 0 <= i < |ws| - 1 ==> ws[1..][i] == ws[i + 1] && vs[1..][i] == vs[i + 1];
      SumSame(ws[1..], vs[1..], f);
    }
  }

  lemma {:induction false} SumAtLeast(ws: seq<Worker>, i: nat, f: Worker -> nat)
    requires i < |ws|
    ensures Sum(ws, f) >= f(ws[i])
  {
    if i > 0 { SumAtLeast(ws[1..], i - 1, f); }
  }

  function DueCount(ws: seq<Worker>): nat {
    Sum(ws, DueOf)
  }

  /** How many of the waiting statements nobody will look at any more. */
  function Excess(s: State): nat {
    if |s.buffer| > DueCount(s.workers) then |s.buffer| - DueCount(s.workers) else 0
  }

  /** Steps of a shutdown: nobody calls QueryAsync on an object that is being destroyed. */
  ghost predicate Quiet(steps: seq<Step>) {
    forall k :: 0 <= k < |steps| ==> !steps[k].Call?
  }

  lemma StopStepKeepsExcess(s: State, step: Step)
    requires !s.running && s.caller.Idle? && Enabled(s, step) && !step.Call?
    ensures var s' := Apply(s, step);
            !s'.running && s'.caller.Idle? && s'.accepted == s.accepted && Excess(s') == Excess(s)
  {
    var s' := Apply(s, step);
    match step {
      case Work(i) =>
        SumUpdate(s.workers, i, s'.workers[i], DueOf);
        SumAtLeast(s.workers, i, DueOf);
      case Wake(i) => SumUpdate(s.workers, i, Woken, DueOf);
      case NotifyAll => SumSame(s.workers, s'.workers, DueOf);
    }
  }

  lemma {:induction false} StopRunKeepsExcess(s: State, steps: seq<Step>)
    requires !s.running && s.caller.Idle? && Quiet(steps)
    ensures RunFrom(s, steps).Some? ==>
              RunFrom(s, steps).value.accepted == s.accepted && Excess(RunFrom(s, steps).value) == Excess(s)
    decreases |steps|
  {
    if steps != [] && Enabled(s, steps[0]) {
      StopStepKeepsExcess(s, steps[0]);
      StopRunKeepsExcess(Apply(s, steps[0]), steps[1..]);
    }
  }

  lemma {:induction false} NobodyLeft(ws: seq<Worker>, x: Statement)
    requires forall i :: 0 <= i < |ws| ==> ws[i].Exited?
    ensures InFlight(ws, x) == 0 && Busy(ws) == 0 && DueCount(ws) == 0
  {
    if ws != [] {
      assert forall i :: 0 <= i < |ws| - 1 ==> ws[1..][i] == ws[i + 1];
      NobodyLeft(ws[1..], x);
    }
  }

  ghost predicate AllExited(s: State) {
    forall i :: 0 <= i < |s.workers| ==> s.workers[i].Exited?
  }

  ghost predicate LeftBehind(accepted: seq<Statement>, executed: seq<Statement>, k: nat)
    requires k <= |accepted|
  {
    && (forall x :: Count(accepted, x) == Count(executed, x) + Count(accepted[|accepted| - k..], x))
    && ((forall x :: Count(accepted, x) == Count(executed, x)) <==> k == 0)
  }

  lemma ShutdownLeaves(n: nat, s0: State, after: seq<Step>)
    requires Inv(n, s0) && s0.running && s0.caller.Idle?
    requires Quiet(after) && RunFrom(Apply(s0, Stop), after).Some?
    requires AllExited(RunFrom(Apply(s0, Stop), after).value)
    ensures var s := RunFrom(Apply(s0, Stop), after).value;
            && |s.workers| == n && s.accepted == s0.accepted && Excess(s0) <= |s0.accepted|
            && LeftBehind(s0.accepted, s.executed, Excess(s0))
  {
    var s1 := Apply(s0, Stop);
    var s := RunFrom(s1, after).value;
    ApplyInv(n, s0, Stop);
    RunFromInv(n, s1, after);
    StopRunKeepsExcess(s1, after);
    hide Apply, Enabled, RunFrom, NoLostWakeup, MutualExclusion;
    NobodyLeft(s.workers, "");
    EmptyHanded(s, Excess(s0));
  }

  /** Nobody is in flight and k statements wait: those are the last k accepted. */
  lemma EmptyHanded(s: State, k: nat)
    requires Fifo(s) && Counted(s) && |s.buffer| == k && AllExited(s)
    ensures k <= |s.accepted| && LeftBehind(s.accepted, s.executed, k)
  {
    assert s.accepted[|s.accepted| - k..] == s.buffer;
    forall x { NobodyLeft(s.workers, x); }
    assert forall x :: Count(s.accepted, x) == Count(s.executed, x) + Count(s.buffer, x);
    if k > 0 {
      var x := s.buffer[0];
      assert Count(s.buffer, x) > 0 && Count(s.accepted, x) != Count(s.executed, x);
    }
  }

  /** The destructor does not drain the queue. However the consumers are scheduled after running_ is
      cleared, once they all have left, the statements never executed are the last Excess ones that
      were accepted: as many as waited, at that moment, beyond the number of consumers on their way
      to a last look. Nothing is lost exactly when no more waited than consumers were on their way. */
  lemma ShutdownLosesExactly(n: nat, before: seq<Step>, after: seq<Step>)
    requires Run(n, before).Some? && Run(n, before).value.running && Run(n, before).value.caller.Idle?
    requires Quiet(after) && RunFrom(Apply(Run(n, before).value, Stop), after).Some?
    requires AllExited(RunFrom(Apply(Run(n, before).value, Stop), after).value)
    ensures var s0, s := Run(n, before).value, RunFrom(Apply(Run(n, before).value, Stop), after).value;
            && s.accepted == s0.accepted && Excess(s0) <= |s0.accepted|
            && (forall x :: Count(s0.accepted, x)
                         == Count(s.executed, x) + Count(s0.accepted[|s0.accepted| - Excess(s0)..], x))
            && ((forall x :: Count(s0.accepted, x) == Count(s.executed, x)) <==> |s0.buffer| <= DueCount(s0.workers))
  {
    var s0 := Run(n, before).value;
    RunInv(n, before);
    hide Apply, Enabled, RunFrom, Run;
    ShutdownLeaves(n, s0, after);
  }

  /** The destructor does not drain: an accepted statement can be left behind. */
  lemma ShutdownMayDrop()
    ensures exists steps :: Run(1, steps).Some? && Run(1, steps).value.workers == [Exited]
                         && Run(1, steps).value.accepted == ["a"] && Run(1, steps).value.executed == []
  {
    var steps := Offer(1, [], "a");
    steps := Extend(1, steps, Stop);
    steps := Extend(1, steps, NotifyAll);
    steps := Extend(1, steps, Work(0));
  }

  // ----- as many awake as statements wait -----

  /** The consumer is up and will look into the buffer before it executes anything. */
  function ReadyOf(w: Worker): nat {
    if w.Asleep? || w.Exited? || w.Popped? || w.Querying? then 0 else 1
  }

  function ReadyCount(ws: seq<Worker>): nat {
    Sum(ws, ReadyOf)
  }

  ghost predicate EnoughUp(s: State) {
    s.running && SomeoneAsleep(s) ==> |s.buffer| <= ReadyCount(s.workers) + if s.caller.Pushed? then 1 else 0
  }

  lemma WorkKeepsEnough(s: State, i: nat)
    requires EnoughUp(s) && Enabled(s, Work(i))
    ensures EnoughUp(Apply(s, Work(i)))
  {
    var s' := Apply(s, Work(i));
    SumUpdate(s.workers, i, s'.workers[i], ReadyOf);
    SumAtLeast(s.workers, i, ReadyOf);
    if SomeoneAsleep(s') && !SomeoneAsleep(s) {
      var j :| 0 <= j < |s'.workers| && s'.workers[j].Asleep?;
      assert j == i;
    }
  }

  lemma StepKeepsEnough(s: State, step: Step)
    requires EnoughUp(s) && Enabled(s, step)
    ensures EnoughUp(Apply(s, step))
  {
    var s' := Apply(s, step);
    match step {
      case Work(i) => WorkKeepsEnough(s, i);
      case Wake(i) => SumUpdate(s.workers, i, Woken, ReadyOf);
      case CallerNotify(w) => if SomeoneAsleep(s) { SumUpdate(s.workers, w, Woken, ReadyOf); }
      case _ =>
    }
  }

  lemma {:induction false} RunKeepsEnough(s: State, steps: seq<Step>)
    requires EnoughUp(s)
    ensures RunFrom(s, steps).Some? ==> EnoughUp(RunFrom(s, steps).value)
    decreases |steps|
  {
    if steps != [] && Enabled(s, steps[0]) {
      StepKeepsEnough(s, steps[0]);
      hide Apply, Enabled, EnoughUp;
      RunKeepsEnough(Apply(s, steps[0]), steps[1..]);
    }
  }

  /** No consumer sleeps on work that nobody is free for: while the handler runs and some consumer
      sleeps, at most as many statements wait as other consumers are up and not executing one, and
      one more while the caller stands between push and notify_one. */
  lemma EnoughAwake(n: nat, steps: seq<Step>)
    requires Run(n, steps).Some? && Run(n, steps).value.running && SomeoneAsleep(Run(n, steps).value)
    ensures var s := Run(n, steps).value;
            |s.buffer| <= ReadyCount(s.workers) + if s.caller.Pushed? then 1 else 0
  {
    RunKeepsEnough(Start(n), steps);
  }

  // ----- sleeping through the shutdown -----

  /** Once the sleepers were woken: a consumer that still is before wait_for may find nothing left. */
  ghost predicate MaySleep(s: State) {
    || (s.buffer == [] && exists i :: 0 <= i < |s.workers| && s.workers[i].FirstCheck?)
    || (|s.buffer| < DueCount(s.workers) && exists i :: 0 <= i < |s.workers| && s.workers[i].Locking?)
  }

  /** After notify_all: running_ is cleared, no call is under way, nobody sleeps. */
  ghost predicate Closing(n: nat, s: State) {
    |s.workers| == n && MutualExclusion(s) && !s.running && s.notified && s.caller.Idle?
  }

  lemma AwakeStep(n: nat, s: State, step: Step)
    requires Closing(n, s) && !SomeoneAsleep(s) && !MaySleep(s) && Enabled(s, step) && !step.Call?
    ensures var s' := Apply(s, step); Closing(n, s') && !SomeoneAsleep(s') && !MaySleep(s')
  {
    var s' := Apply(s, step);
    ApplyExcludes(s, step);
    var i := step.i;
    SumUpdate(s.workers, i, s'.workers[i], DueOf);
    SumAtLeast(s.workers, i, DueOf);
    assert forall j :: 0 <= j < n && j != i ==> s'.workers[j] == s.workers[j];
    if s.workers[i].Locking? { assert |s.buffer| >= DueCount(s.workers); }
    if s.workers[i].SecondCheck? {
      assert HoldsMutex(s.workers[i]);
      assert forall j :: 0 <= j < n && s.workers[j].FirstCheck? ==> HoldsMutex(s.workers[j]);
    }
  }

  lemma {:induction false} StaysAwake(n: nat, s: State, steps: seq<Step>)
    requires Closing(n, s) && !SomeoneAsleep(s) && !MaySleep(s) && Quiet(steps)
    ensures RunFrom(s, steps).Some? ==> !SomeoneAsleep(RunFrom(s, steps).value)
    decreases |steps|
  {
    if steps != [] && Enabled(s, steps[0]) {
      AwakeStep(n, s, steps[0]);
      hide MaySleep;
      StaysAwake(n, Apply(s, steps[0]), steps[1..]);
    }
  }

  /** Actions a consumer can take before it is back at its loop test. */
  function ToGo(w: Worker): nat {
    match w
    case Locking => 5
    case FirstCheck => 4
    case Woken => 4
    case SecondCheck => 3
    case Popped(_) => 2
    case Leaving => 2
    case _ => 1
  }

  lemma {:induction false} AnotherDue(ws: seq<Worker>, i: nat) returns (k: nat)
    requires i < |ws| && DueCount(ws) >= 2
    ensures k < |ws| && k != i && IsDue(ws[k])
  {
    if exists j :: 0 <= j < |ws| && j != i && IsDue(ws[j]) {
      k :| k < |ws| && k != i && IsDue(ws[k]);
    } else {
      var vs := ws[i := Exited];
      SumUpdate(ws, i, Exited, DueOf);
      NobodyDue(vs);
      assert false;
    }
  }

  lemma {:induction false} NobodyDue(ws: seq<Worker>)
    requires forall j :: 0 <= j < |ws| ==> !IsDue(ws[j])
    ensures DueCount(ws) == 0
  {
    if ws != [] {
      assert forall j :: 0 <= j < |ws| - 1 ==> ws[1..][j] == ws[j + 1];
      NobodyDue(ws[1..]);
    }
  }

  /** The consumer whose next action keeps the chance to sleep, or takes it. */
  lemma NextTowardsSleep(n: nat, s: State) returns (i: nat)
    requires Closing(n, s) && !SomeoneAsleep(s) && MaySleep(s)
    ensures i < n && Enabled(s, Work(i)) && ToGo(s.workers[i]) >= 2
    ensures !s.workers[i].Locking? || s.buffer == [] || exists j :: 0 <= j < n && j != i && s.workers[j].Locking?
    ensures s.owner == ByWorker(i) || (s.owner.Free? && (s.workers[i].Locking? || s.workers[i].Woken?))
  {
    match s.owner
    case ByWorker(k) => i := k;
    case ByCaller => assert false;
    case Free =>
      assert forall j :: 0 <= j < n ==> !HoldsMutex(s.workers[j]);
      var l :| 0 <= l < n && s.workers[l].Locking?;
      if s.buffer == [] {
        i := l;
      } else {
        i := AnotherDue(s.workers, l);
      }
  }

  lemma SleepStep(n: nat, s: State, i: nat)
    requires Closing(n, s) && !SomeoneAsleep(s) && MaySleep(s)
    requires i < n && Enabled(s, Work(i)) && ToGo(s.workers[i]) >= 2
    requires !s.workers[i].Locking? || s.buffer == [] || exists j :: 0 <= j < n && j != i && s.workers[j].Locking?
    requires s.owner == ByWorker(i) || (s.owner.Free? && (s.workers[i].Locking? || s.workers[i].Woken?))
    ensures var s' := Apply(s, Work(i));
            && Closing(n, s') && Sum(s'.workers, ToGo) < Sum(s.workers, ToGo)
            && (SomeoneAsleep(s') || MaySleep(s'))
  {
    var s' := Apply(s, Work(i));
    ApplyExcludes(s, Work(i));
    SumUpdate(s.workers, i, s'.workers[i], DueOf);
    SumUpdate(s.workers, i, s'.workers[i], ToGo);
    assert forall j :: 0 <= j < n && j != i ==> s'.workers[j] == s.workers[j];
    if s'.workers[i].Asleep? { assert SomeoneAsleep(s'); }
    assert s'.workers[i].FirstCheck? || !s.workers[i].Locking?;
    forall j | 0 <= j < n && s'.workers[j].Locking? { SumAtLeast(s'.workers, j, DueOf); }
    forall j | 0 <= j < n && s.workers[j].FirstCheck? ensures s.owner == ByWorker(j) {
      assert HoldsMutex(s.workers[j]);
    }
  }

  ghost predicate LeadsToSleep(s: State, steps: seq<Step>) {
    Quiet(steps) && RunFrom(s, steps).Some? && SomeoneAsleep(RunFrom(s, steps).value)
  }

  lemma {:induction false} FallsAsleep(n: nat, s: State) returns (steps: seq<Step>)
    requires Closing(n, s) && (SomeoneAsleep(s) || MaySleep(s))
    ensures LeadsToSleep(s, steps)
    decreases Sum(s.workers, ToGo)
  {
    if SomeoneAsleep(s) {
      steps := [];
    } else {
      var i := NextTowardsSleep(n, s);
      SleepStep(n, s, i);
      var rest := FallsAsleep(n, Apply(s, Work(i)));
      steps := [Work(i)] + rest;
      assert steps[1..] == rest;
    }
  }

  /** notify_all is called once and without the mutex, so a consumer between its loop test and
      wait_for can miss it and sleep until its time-out. After notify_all some schedule does that
      exactly when MaySleep holds: a consumer has tested running_ before, and the other consumers on
      their way suffice to empty the buffer before it looks. */
  lemma SleepsThroughShutdownExactly(n: nat, steps: seq<Step>)
    requires Run(n, steps).Some? && !Run(n, steps).value.running && Run(n, steps).value.caller.Idle?
    requires Enabled(Run(n, steps).value, NotifyAll)
    ensures var s := Apply(Run(n, steps).value, NotifyAll);
            (exists after :: LeadsToSleep(s, after)) <==> MaySleep(s)
  {
    RunInv(n, steps);
    var s := Apply(Run(n, steps).value, NotifyAll);
    ApplyExcludes(Run(n, steps).value, NotifyAll);
    assert Closing(n, s) && !SomeoneAsleep(s);
    if MaySleep(s) {
      var after := FallsAsleep(n, s);
    } else {
      forall after ensures !LeadsToSleep(s, after) {
        if Quiet(after) { StaysAwake(n, s, after); }
      }
    }
  }

  /** The smallest such run: one consumer, nothing to do. */
  lemma SleepsThroughShutdown()
    ensures exists steps :: Run(1, steps).Some? && Run(1, steps).value.notified
                         && Run(1, steps).value.workers == [Asleep]
  {
    var steps := Extend(1, [], Work(0));
    steps := Extend(1, steps, Stop);
    steps := Extend(1, steps, NotifyAll);
    steps := Extend(1, steps, Work(0));
    steps := Extend(1, steps, Work(0));
  }

  // ----- progress -----

  /** A step the environment owes nobody: no new call, no time-out, no spurious wake-up. */
  predicate Internal(step: Step) {
    step.CallerTest? || step.CallerNotify? || step.CallerUnlock? || step.Work?
  }

  ghost predicate LeadsToPop(s: State, steps: seq<Step>) {
    && (forall k :: 0 <= k < |steps| ==> Internal(steps[k]))
    && RunFrom(s, steps).Some?
    && |RunFrom(s, steps).value.popped| == |s.popped| + 1
  }

  /** Prepending an enabled internal step that pops nothing. */
  lemma LeadFirst(s: State, step: Step, rest: seq<Step>)
    requires Internal(step) && Enabled(s, step)
    requires Apply(s, step).popped == s.popped
    requires LeadsToPop(Apply(s, step), rest)
    ensures LeadsToPop(s, [step] + rest)
  {
    assert ([step] + rest)[1..] == rest;
  }

  /** Steps worker i still needs before it pops, when the mutex is its own for the asking. */
  function Distance(w: Worker): nat {
    match w
    case SecondCheck => 1
    case FirstCheck => 2
    case Woken => 2
    case Locking => 3
    case AtLoop => 4
    case Querying(_) => 5
    case Popped(_) => 6
    case Leaving => 5
    case Asleep => 0
    case Exited => 0
  }

  ghost predicate NobodyExited(s: State) {
    forall i :: 0 <= i < |s.workers| ==> !s.workers[i].Exited?
  }

  lemma {:induction false} RunFromNobodyExits(s: State, steps: seq<Step>)
    requires !s.running || NobodyExited(s)
    ensures RunFrom(s, steps).Some? ==>
              !RunFrom(s, steps).value.running || NobodyExited(RunFrom(s, steps).value)
    decreases |steps|
  {
    if steps != [] && Enabled(s, steps[0]) {
      RunFromNobodyExits(Apply(s, steps[0]), steps[1..]);
    }
  }

  /** One step of a worker that is up and can have the mutex brings it nearer to its pop. */
  lemma WorkerApproaches(n: nat, s: State, i: nat)
    requires Inv(n, s) && s.running && s.buffer != [] && i < n
    requires !s.workers[i].Asleep? && !s.workers[i].Exited?
    requires s.owner.Free? || s.owner == ByWorker(i)
    ensures Enabled(s, Work(i))
    ensures var s' := Apply(s, Work(i));
            && s'.running && |s'.workers| == n
            && (s.workers[i].SecondCheck? ==> |s'.popped| == |s.popped| + 1)
            && (!s.workers[i].SecondCheck? ==>
                  && s'.buffer == s.buffer && s'.popped == s.popped
                  && !s'.workers[i].Asleep? && !s'.workers[i].Exited?
                  && (s'.owner.Free? || s'.owner == ByWorker(i))
                  && Distance(s'.workers[i]) == Distance(s.workers[i]) - 1)
  {
    assert HoldsMutex(s.workers[i]) <==> s.owner == ByWorker(i);
  }

  /** A worker that is up pops after Distance steps of its own, once nobody else holds the mutex. */
  lemma {:induction false} WorkerPops(n: nat, s: State, i: nat) returns (steps: seq<Step>)
    requires Inv(n, s) && s.running && s.buffer != [] && i < n
    requires !s.workers[i].Asleep? && !s.workers[i].Exited?
    requires s.owner.Free? || s.owner == ByWorker(i)
    ensures LeadsToPop(s, steps) && |steps| <= 6
    ensures |steps| == Distance(s.workers[i])
    decreases Distance(s.workers[i])
  {
    var step := Work(i);
    WorkerApproaches(n, s, i);
    ApplyInv(n, s, step);
    if s.workers[i].SecondCheck? {
      steps := [step];
      assert RunFrom(Apply(s, step), steps[1..]) == Some(Apply(s, step));
    } else {
      var rest := WorkerPops(n, Apply(s, step), i);
      LeadFirst(s, step, rest);
      steps := [step] + rest;
    }
  }

  /** From any reachable state in which the handler runs and a statement waits, at most nine
      internal steps lead to a pop: no time-out or spurious wake-up is ever needed. */
  lemma WaitingStatementCanBePopped(n: nat, schedule: seq<Step>) returns (steps: seq<Step>)
    requires n > 0 && Run(n, schedule).Some?
    requires Run(n, schedule).value.running && Run(n, schedule).value.buffer != []
    ensures |steps| <= 9 && LeadsToPop(Run(n, schedule).value, steps)
  {
    var s := Run(n, schedule).value;
    RunInv(n, schedule);
    RunFromNobodyExits(Start(n), schedule);
    match s.owner
    case ByCaller => steps := CallerLetsGo(n, s);
    case ByWorker(i) => steps := WorkerPops(n, s, i);
    case Free =>
      var i :| 0 <= i < |s.workers| && !s.workers[i].Asleep?;
      steps := WorkerPops(n, s, i);
  }

  lemma {:induction false} CallerLetsGo(n: nat, s: State) returns (steps: seq<Step>)
    requires Inv(n, s) && s.running && s.buffer != [] && n > 0 && NobodyExited(s)
    requires s.owner.ByCaller?
    ensures LeadsToPop(s, steps)
    ensures |steps| <= if s.caller.Returning? then 7 else if s.caller.Pushed? then 8 else 9
    decreases if s.caller.Returning? then 0 else if s.caller.Pushed? then 1 else 2
  {
    var step;
    match s.caller {
      case Returning(_, _) => step := CallerUnlock;
      case Pushed(_) =>
        if SomeoneAsleep(s) {
          var w :| 0 <= w < |s.workers| && s.workers[w].Asleep?;
          step := CallerNotify(w);
        } else {
          step := CallerNotify(0);
        }
      case _ => step := CallerTest;
    }
    ApplyInv(n, s, step);
    var s' := Apply(s, step);
    var rest;
    if s.caller.Returning? {
      var i :| 0 <= i < |s'.workers| && !s'.workers[i].Asleep?;
      rest := WorkerPops(n, s', i);
    } else {
      rest := CallerLetsGo(n, s');
    }
    LeadFirst(s, step, rest);
    steps := [step] + rest;
  }
}
