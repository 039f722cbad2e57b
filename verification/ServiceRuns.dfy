/** What clients can observe over whole runs of the service, under every interleaving. */
module ServiceRuns {
  import opened OperationState
  import opened StatusCodes
  import opened ServiceProtocol

  ghost predicate IsRun(c: Config, run: seq<State>, steps: seq<Step>) {
    && |run| == |steps| + 1
    && run[0] == InitialState()
    && forall i | 0 <= i < |steps| :: Enabled(run[i], steps[i]) && run[i + 1] == Next(c, run[i], steps[i])
  }

  lemma {:induction false} RunKeeps(c: Config, run: seq<State>, steps: seq<Step>, m: nat)
    requires IsRun(c, run, steps) && m < |run|
    ensures Inv(c, run[m])
  {
    hide Inv, Enabled, Next;
    if m == 0 {
      InitKeeps(c);
    } else {
      RunKeeps(c, run, steps, m - 1);
      StepKeeps(c, run[m - 1], steps[m - 1]);
    }
  }

  /** Neither map ever outgrows its limit. */
  lemma MapsBounded(c: Config, run: seq<State>, steps: seq<Step>, m: nat)
    requires IsRun(c, run, steps) && m < |run|
    ensures |run[m].sessions| <= c.maxSessions && |run[m].operations| <= c.maxOperations
  {
    RunKeeps(c, run, steps, m);
  }

  // ----- observations -----

  datatype Handle = Handle(id: nat, secret: nat, token: nat)

  datatype Observation = StillRunning | Settled(execution: Execution) | InvalidHandle

  predicate Accepted(s: State, h: Handle) {
    h.id in s.operations && h.id < |s.jobs| && s.jobs[h.id].secret == h.secret && s.jobs[h.id].token == h.token
  }

  function Observe(s: State, h: Handle): Observation {
    if !Accepted(s, h) then InvalidHandle
    else if Active(s.operations[h.id]) then StillRunning else Settled(s.operations[h.id])
  }

  /** What GetOperationStatus sends for a handle. */
  function Polled(s: State, h: Handle): Status {
    if Accepted(s, h) then StatusOf(s.operations[h.id]) else INVALID_STATUS
  }

  const RUNNING_STATUS := Status(SUCCESS_STATUS, RUNNING_STATE, false, OperationRunning)

  /** A reply tells a client which of the three it is: only an invalid handle has its code, and of the others only a
      running operation has its state. */
  lemma ReplyTells(s: State, h: Handle)
    ensures Observe(s, h).StillRunning? <==> Polled(s, h) == RUNNING_STATUS
    ensures Observe(s, h).StillRunning? <==> Polled(s, h).state == RUNNING_STATE
    ensures Observe(s, h).InvalidHandle? <==> Polled(s, h).code == INVALID_HANDLE_STATUS
    ensures Observe(s, h).InvalidHandle? <==> Polled(s, h) == INVALID_STATUS
    ensures Observe(s, h).Settled? ==>
        !Active(Observe(s, h).execution) && Polled(s, h) == StatusOf(Observe(s, h).execution)
    ensures Observe(s, h).Settled? ==> Polled(s, h).state in {FINISHED_STATE, CANCELED_STATE, ERROR_STATE}
    ensures Polled(s, h).hasResult <==> Polled(s, h).state == FINISHED_STATE
    ensures Polled(s, h).code == ERROR_STATUS ==> Polled(s, h).state == ERROR_STATE && Polled(s, h).message.Told?
  {
  }

  /** The second observation can come after the first. */
  predicate Follows(a: Observation, b: Observation) { a.StillRunning? || b.InvalidHandle? || a == b }

  lemma ObserveStep(c: Config, s: State, step: Step, h: Handle)
    requires Inv(c, s) && Enabled(s, step) && KnownTo(s, h.id)
    ensures Follows(Observe(s, h), Observe(Next(c, s, step), h)) && KnownTo(Next(c, s, step), h.id)
  {
    hide Inv, SessionsAfter, PurgingAfter, RefreshersAfter, CleanersAfter, Drops;
    JobIn(c, s, h.id);
  }

  lemma {:induction false} InOrder(c: Config, run: seq<State>, steps: seq<Step>, i: nat, j: nat, h: Handle)
    requires IsRun(c, run, steps) && i <= j < |run| && KnownTo(run[i], h.id)
    ensures Follows(Observe(run[i], h), Observe(run[j], h)) && KnownTo(run[j], h.id)
  {
    hide Inv, Enabled, Next, Observe, KnownTo;
    if i < j {
      InOrder(c, run, steps, i, j - 1, h);
      RunKeeps(c, run, steps, j - 1);
      ObserveStep(c, run[j - 1], steps[j - 1], h);
    }
  }

  /** A client's polls, at any increasing moments of a run after it was given the handle. */
  ghost predicate Polls(run: seq<State>, moments: seq<nat>, h: Handle) {
    && (forall k | 0 <= k < |moments| :: moments[k] < |run| && KnownTo(run[moments[k]], h.id))
    && (forall k, l | 0 <= k < l < |moments| :: moments[k] <= moments[l])
  }

  lemma {:induction false} Shape(seen: seq<Observation>) returns (settled: nat, gone: nat, final: Observation)
    requires forall k, l | 0 <= k < l < |seen| :: Follows(seen[k], seen[l])
    ensures settled <= gone <= |seen| && !final.StillRunning?
    ensures forall k | 0 <= k < settled :: seen[k] == StillRunning
    ensures forall k | settled <= k < gone :: seen[k] == final
    ensures settled < gone ==> final.Settled?
    ensures forall k | gone <= k < |seen| :: seen[k] == InvalidHandle
  {
    if seen == [] {
      return 0, 0, InvalidHandle;
    }
    var n, last := |seen| - 1, seen[|seen| - 1];
    var front := seen[..n];
    settled, gone, final := Shape(front);
    assert n > 0 ==> front[n - 1] == seen[n - 1] && Follows(seen[n - 1], last);
    if last.StillRunning? {
      assert settled == n;
      settled, gone, final := n + 1, n + 1, InvalidHandle;
    } else if last.Settled? {
      assert gone == n && (settled < n ==> final == last);
      gone, final := n + 1, last;
    }
  }

  /** What GetOperationStatus sends for a handle: RUNNING for a while, then the status of one fixed terminal execution
      for a while, then that the handle is invalid. */
  lemma HandleHistory(c: Config, run: seq<State>, steps: seq<Step>, moments: seq<nat>, h: Handle)
      returns (settled: nat, gone: nat, final: Observation)
    requires IsRun(c, run, steps) && Polls(run, moments, h)
    ensures settled <= gone <= |moments| && !final.StillRunning?
    ensures forall k | 0 <= k < settled :: Polled(run[moments[k]], h) == RUNNING_STATUS
    ensures settled < gone ==> final.Settled? && !Active(final.execution)
    ensures forall k | settled <= k < gone :: Polled(run[moments[k]], h) == StatusOf(final.execution)
    ensures forall k | settled <= k < gone :: Observe(run[moments[k]], h) == final
    ensures forall k | gone <= k < |moments| :: Polled(run[moments[k]], h) == INVALID_STATUS
  {
    hide IsRun, Observe, Polled, KnownTo, Follows;
    var seen := seq(|moments|, k requires 0 <= k < |moments| && Polls(run, moments, h) => Observe(run[moments[k]], h));
    forall k, l | 0 <= k < l < |seen| ensures Follows(seen[k], seen[l]) {
      InOrder(c, run, steps, moments[k], moments[l], h);
    }
    settled, gone, final := Shape(seen);
    forall k | 0 <= k < |moments|
      ensures Observe(run[moments[k]], h) == seen[k]
      ensures seen[k].StillRunning? ==> Polled(run[moments[k]], h) == RUNNING_STATUS
      ensures seen[k].Settled? ==>
          !Active(seen[k].execution) && Polled(run[moments[k]], h) == StatusOf(seen[k].execution)
      ensures seen[k].InvalidHandle? ==> Polled(run[moments[k]], h) == INVALID_STATUS
    {
      ReplyTells(run[moments[k]], h);
    }
    assert settled < gone ==> seen[settled] == final;
  }

  /** A result is the one the operation's own task completed with, an error is its own or that of a dead task, and a
      cancellation was asked for while it ran. */
  lemma SettledTruthfully(c: Config, run: seq<State>, steps: seq<Step>, m: nat, h: Handle)
    requires IsRun(c, run, steps) && m < |run| && Observe(run[m], h).Settled?
    ensures var task, e := run[m].jobs[h.id].task, Observe(run[m], h).execution;
      match e
      case Finished(result, duration, _) => task == Ended(Completed(Completion(duration, Good(result))))
      case Failed(error, duration, _) =>
        || task == Ended(Completed(Completion(duration, Bad(error))))
        || (task == Ended(Panicked) && error == INTERNAL_ERROR)
      case Canceled(_, _) => run[m].jobs[h.id].aborted
      case _ => false
  {
    hide Inv;
    RunKeeps(c, run, steps, m);
    JobIn(c, run[m], h.id);
  }

  // ----- GetColumns -----

  /** The report of a GetColumns task replaces the state of its operation whatever that is; but it is always RUNNING,
      and nobody has been given the handle. */
  lemma ReportFindsRunning(c: Config, run: seq<State>, steps: seq<Step>, m: nat, id: nat)
    requires IsRun(c, run, steps) && m < |steps| && steps[m] == TaskStep(id, Report) && id in run[m].operations
    ensures run[m].operations[id].Running? && !KnownTo(run[m], id)
  {
    hide Inv;
    RunKeeps(c, run, steps, m);
    assert Enabled(run[m], steps[m]);
    JobIn(c, run[m], id);
  }

  /** A client that has the handle of a GetColumns operation finds it finished, or not at all. */
  lemma ColumnsDisclosedFinished(c: Config, run: seq<State>, steps: seq<Step>, m: nat, h: Handle)
    requires IsRun(c, run, steps) && m < |run| && KnownTo(run[m], h.id) && IsColumns(run[m].jobs[h.id])
    ensures Observe(run[m], h).InvalidHandle? || (Observe(run[m], h).Settled? && Observe(run[m], h).execution.Finished?)
  {
    hide Inv;
    RunKeeps(c, run, steps, m);
    JobIn(c, run[m], h.id);
  }

  predicate HandlerDone(j: Job) { j.handler.Replied? || j.handler.DroppedEarly? || j.handler.DroppedLate? }

  predicate BothDone(j: Job) { j.task.Ended? && HandlerDone(j) }

  /** The task died with the handler gone, or the handler went after it had been sent the outcome. */
  predicate LeftBehind(j: Job) {
    j.handler == DroppedLate || (j.handler == DroppedEarly && j.task == Ended(Panicked))
  }

  /** When the task and the handler of a GetColumns operation are first both done, it is in the map if and only if it
      was until then, and its handle was returned or it was left behind. */
  lemma ColumnsSlotDecided(c: Config, run: seq<State>, steps: seq<Step>, m: nat, id: nat)
    requires IsRun(c, run, steps) && m < |steps| && id < |run[m].jobs| && id < |run[m + 1].jobs|
    requires IsColumns(run[m].jobs[id]) && !BothDone(run[m].jobs[id]) && BothDone(run[m + 1].jobs[id])
    ensures id in run[m + 1].operations <==>
        id in run[m].operations && (run[m + 1].jobs[id].handler == Replied(true) || LeftBehind(run[m + 1].jobs[id]))
    ensures Succeeded(run[m + 1].jobs[id].task) || run[m + 1].jobs[id].handler != Replied(true)
  {
    hide Inv, SessionsAfter, PurgingAfter, RefreshersAfter, CleanersAfter, OperationExpired;
    RunKeeps(c, run, steps, m);
    assert Enabled(run[m], steps[m]) && run[m + 1] == Next(c, run[m], steps[m]);
    JobIn(c, run[m], id);
  }

  /** From then on, such an operation is in the map only in those cases. */
  lemma ColumnsSlotGone(c: Config, run: seq<State>, steps: seq<Step>, m: nat, id: nat)
    requires IsRun(c, run, steps) && m < |run| && id < |run[m].jobs|
    requires IsColumns(run[m].jobs[id]) && BothDone(run[m].jobs[id]) && id in run[m].operations
    ensures run[m].jobs[id].handler == Replied(true) || LeftBehind(run[m].jobs[id])
  {
    hide Inv;
    RunKeeps(c, run, steps, m);
    JobIn(c, run[m], id);
  }

  /** One operation, in the map, with this task and handler. */
  predicate Lone(s: State, task: TaskState, handler: Handler) {
    |s.jobs| == 1 && s.jobs[0].task == task && s.jobs[0].handler == handler && s.operations.Keys == {0}
  }

  lemma LoneStarts(c: Config)
    requires c.maxOperations > 0
    ensures Lone(Next(c, InitialState(), GetColumns(0, 0, 0)), Working, Waiting)
  {
  }

  lemma LoneDrops(c: Config, s: State)
    requires Lone(s, Working, Waiting)
    ensures Enabled(s, HandlerStep(0, Drop)) && Lone(Next(c, s, HandlerStep(0, Drop)), Working, DroppedEarly)
  {
    hide SessionsAfter, PurgingAfter, RefreshersAfter, CleanersAfter, OperationExpired;
  }

  lemma LonePanics(c: Config, s: State)
    requires Lone(s, Working, DroppedEarly)
    ensures Enabled(s, TaskStep(0, Panic)) && Lone(Next(c, s, TaskStep(0, Panic)), Ended(Panicked), DroppedEarly)
  {
    hide SessionsAfter, PurgingAfter, RefreshersAfter, CleanersAfter, OperationExpired;
  }

  lemma LoneCompletes(c: Config, s: State, completion: Completion)
    requires Lone(s, Working, Waiting)
    ensures Enabled(s, TaskStep(0, Complete(completion)))
    ensures Lone(Next(c, s, TaskStep(0, Complete(completion))), Reporting(completion), Waiting)
  {
    hide SessionsAfter, PurgingAfter, RefreshersAfter, CleanersAfter, OperationExpired;
  }

  lemma LoneReports(c: Config, s: State, completion: Completion)
    requires Lone(s, Reporting(completion), Waiting)
    ensures Enabled(s, TaskStep(0, Report))
    ensures Lone(Next(c, s, TaskStep(0, Report)), Ended(Completed(completion)), Waiting)
  {
    hide SessionsAfter, PurgingAfter, RefreshersAfter, CleanersAfter, OperationExpired;
  }

  lemma LoneDropsLate(c: Config, s: State, completion: Completion)
    requires Lone(s, Ended(Completed(completion)), Waiting)
    ensures Enabled(s, HandlerStep(0, Drop))
    ensures Lone(Next(c, s, HandlerStep(0, Drop)), Ended(Completed(completion)), DroppedLate)
  {
    hide SessionsAfter, PurgingAfter, RefreshersAfter, CleanersAfter, OperationExpired;
  }

  /** A run in which the handler of a GetColumns operation is dropped before any outcome is sent and its task then dies:
      both are done, and the operation is left in the map. */
  lemma DeadTaskLeavesSlot() returns (c: Config, run: seq<State>, steps: seq<Step>)
    ensures IsRun(c, run, steps) && |run| == 4 && Lone(run[3], Ended(Panicked), DroppedEarly)
  {
    hide Next;
    c := Config(1, 1, 1, 1);
    steps := [GetColumns(0, 0, 0), HandlerStep(0, Drop), TaskStep(0, Panic)];
    var s0 := InitialState();
    var s1 := Next(c, s0, steps[0]);
    LoneStarts(c);
    LoneDrops(c, s1);
    var s2 := Next(c, s1, steps[1]);
    LonePanics(c, s2);
    run := [s0, s1, s2, Next(c, s2, steps[2])];
  }

  /** A run in which the task reports an error and the handler is dropped once it was sent, before it takes the
      operation out of the map: both are done, and the operation is left in the map. */
  lemma LateDropLeavesSlot() returns (c: Config, run: seq<State>, steps: seq<Step>)
    ensures IsRun(c, run, steps) && |run| == 5
    ensures Lone(run[4], Ended(Completed(Completion(0, Bad(INTERNAL_ERROR)))), DroppedLate)
  {
    hide Next;
    c := Config(1, 1, 1, 1);
    var failure := Completion(0, Bad(INTERNAL_ERROR));
    steps := [GetColumns(0, 0, 0), TaskStep(0, Complete(failure)), TaskStep(0, Report), HandlerStep(0, Drop)];
    var s0 := InitialState();
    var s1 := Next(c, s0, steps[0]);
    LoneStarts(c);
    LoneCompletes(c, s1, failure);
    var s2 := Next(c, s1, steps[1]);
    LoneReports(c, s2, failure);
    var s3 := Next(c, s2, steps[2]);
    LoneDropsLate(c, s3, failure);
    run := [s0, s1, s2, s3, Next(c, s3, steps[3])];
  }

  // ----- why an operation goes -----

  predicate Gone(s: State, session: nat) { session !in s.sessions && session < s.sessionsOpened }

  predicate CleanerOk(s: State, k: nat)
    requires k < |s.cleaners|
  {
    s.cleaners[k].asOf <= s.now && forall session | session in s.cleaners[k].expired :: Gone(s, session)
  }

  /** A session whose operations are about to be removed is gone for good. */
  ghost predicate SessionsOk(s: State) {
    && (forall session | session in s.sessions :: session < s.sessionsOpened)
    && (forall session | session in s.purging :: Gone(s, session))
    && (forall k | 0 <= k < |s.cleaners| :: CleanerOk(s, k))
  }

  lemma GoneStays(c: Config, s: State, step: Step, session: nat)
    requires Enabled(s, step) && Gone(s, session)
    ensures Gone(Next(c, s, step), session)
  {
    hide OperationsAfter, JobsAfter, PurgingAfter, CleanersAfter, RefreshersAfter, Idle, SessionExpired;
  }

  lemma SessionsKeep(c: Config, s: State, step: Step)
    requires Enabled(s, step) && SessionsOk(s)
    ensures SessionsOk(Next(c, s, step))
  {
    hide OperationsAfter, JobsAfter, RefreshersAfter, SessionExpired, Gone, CleanerOk;
    var s' := Next(c, s, step);
    forall session | session in s'.sessions ensures session < s'.sessionsOpened {
    }
    forall session | session in s'.purging ensures Gone(s', session) {
      if session in s.purging {
        GoneStays(c, s, step, session);
      } else {
        PurgedGone(c, s, step, session);
      }
    }
    forall k | 0 <= k < |s'.cleaners| ensures CleanerOk(s', k) {
      if k < |s.cleaners| {
        assert CleanerOk(s, k);
      }
      CleanerKeeps(c, s, step, k);
    }
  }

  lemma PurgedGone(c: Config, s: State, step: Step, session: nat)
    requires Enabled(s, step) && SessionsOk(s) && session in Next(c, s, step).purging && session !in s.purging
    ensures Gone(Next(c, s, step), session)
  {
    hide OperationsAfter, JobsAfter, RefreshersAfter, CleanersAfter, Idle, CleanerOk;
  }

  lemma CleanerKeeps(c: Config, s: State, step: Step, k: nat)
    requires Enabled(s, step) && SessionsOk(s) && k < |Next(c, s, step).cleaners|
    requires k < |s.cleaners| ==> CleanerOk(s, k)
    ensures CleanerOk(Next(c, s, step), k)
  {
    hide OperationsAfter, JobsAfter, RefreshersAfter, PurgingAfter, SessionExpired, SessionsOk;
    var s' := Next(c, s, step);
    forall session | session in s'.cleaners[k].expired ensures Gone(s', session) {
      if k < |s.cleaners| {
        GoneStays(c, s, step, session);
      } else {
        IdleGone(c, s, step, session);
      }
    }
  }

  lemma IdleGone(c: Config, s: State, step: Step, session: nat)
    requires Enabled(s, step) && SessionsOk(s) && step.CleanSessions? && session in Idle(c, s, step.asOf)
    ensures Gone(Next(c, s, step), session)
  {
    hide OperationsAfter, JobsAfter, RefreshersAfter, PurgingAfter, SessionExpired, CleanerOk;
  }

  lemma {:induction false} RunSessions(c: Config, run: seq<State>, steps: seq<Step>, m: nat)
    requires IsRun(c, run, steps) && m < |run|
    ensures SessionsOk(run[m])
  {
    if m > 0 {
      hide Enabled, Next, SessionsOk;
      RunSessions(c, run, steps, m - 1);
      SessionsKeep(c, run[m - 1], steps[m - 1]);
    }
  }

  /** An operation leaves the map only when its client closes it, its session is gone, it ended longer ago than
      completed operations are kept, or its handle was never returned: a running operation of a live session stays. */
  lemma RemovedForReason(c: Config, run: seq<State>, steps: seq<Step>, m: nat, id: nat)
    requires IsRun(c, run, steps) && m < |steps| && id in run[m].operations && id !in run[m + 1].operations
    ensures id < |run[m].jobs|
    ensures steps[m] == CloseOperation(id) || run[m].jobs[id].session !in run[m].sessions
      || OperationExpired(run[m].operations[id], run[m].now, c.completedTtl) || !Disclosed(run[m].jobs[id])
  {
    hide Inv, SessionsOk, JobsAfter, SessionsAfter, PurgingAfter, RefreshersAfter, CleanersAfter, ExecutionAfter;
    var s, step := run[m], steps[m];
    RunKeeps(c, run, steps, m);
    RunSessions(c, run, steps, m);
    assert Enabled(s, step) && run[m + 1] == Next(c, s, step);
    Known(c, s, id);
    JobIn(c, s, id);
    if Drops(c, s, step, id) {
      DroppedForReason(c, s, step, id);
    }
  }

  lemma Known(c: Config, s: State, id: nat)
    requires Inv(c, s) && id in s.operations
    ensures id < |s.jobs|
  {
  }

  lemma DroppedForReason(c: Config, s: State, step: Step, id: nat)
    requires SessionsOk(s) && Enabled(s, step) && id in s.operations && id < |s.jobs| && Drops(c, s, step, id)
    ensures step == CloseOperation(id) || s.jobs[id].session !in s.sessions
      || OperationExpired(s.operations[id], s.now, c.completedTtl) || !Disclosed(s.jobs[id])
  {
    if step.SweepOperations? {
      assert CleanerOk(s, step.k);
    }
  }
}
