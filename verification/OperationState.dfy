/** One operation: its execution, and how finishing, refreshing and cancelling change it. */
module OperationState {
  import opened Wrappers
  import opened StatusCodes

  datatype Outcome = Good(result: nat) | Bad(error: nat)

  /** What a client is told when a task dies. */
  const INTERNAL_ERROR := 0

  datatype Completion = Completion(duration: nat, outcome: Outcome)

  datatype Join = Completed(completion: Completion) | Cancelled | Panicked

  datatype Execution =
    | Running(started: nat)
    | Refreshing(started: nat)
    | Finished(result: nat, duration: nat, completedAt: nat)
    | Failed(error: nat, duration: nat, completedAt: nat)
    | Canceled(duration: nat, completedAt: nat)

  predicate Active(e: Execution) { e.Running? || e.Refreshing? }

  /** `saturating_duration_since` */
  function Since(now: nat, then_: nat): nat { if now < then_ then 0 else now - then_ }

  predicate OperationExpired(e: Execution, now: nat, ttl: nat) {
    match e
    case Running(_) => false
    case Refreshing(_) => false
    case Finished(_, _, at) => Since(now, at) >= ttl
    case Failed(_, _, at) => Since(now, at) >= ttl
    case Canceled(_, at) => Since(now, at) >= ttl
  }

  function FromCompletion(c: Completion, now: nat): Execution {
    match c.outcome
    case Good(result) => Finished(result, c.duration, now)
    case Bad(error) => Failed(error, c.duration, now)
  }

  function FromJoin(started: nat, join: Join, now: nat): Execution {
    match join
    case Completed(c) => FromCompletion(c, now)
    case Cancelled => Canceled(Since(now, started), now)
    case Panicked => Failed(INTERNAL_ERROR, Since(now, started), now)
  }

  function Refreshed(e: Execution, started: nat, join: Join, now: nat): Execution {
    if e.Refreshing? then FromJoin(started, join, now) else e
  }

  function CancelledExecution(e: Execution, now: nat): Execution {
    if e.Running? then Canceled(Since(now, e.started), now) else e
  }

  // ----- what GetOperationStatus reports -----

  function StateCode(e: Execution): int {
    match e
    case Running(_) => RUNNING_STATE
    case Refreshing(_) => RUNNING_STATE
    case Finished(_, _, _) => FINISHED_STATE
    case Failed(_, _, _) => ERROR_STATE
    case Canceled(_, _) => CANCELED_STATE
  }

  function StatusCode(e: Execution): int { if e.Failed? then ERROR_STATUS else SUCCESS_STATUS }

  datatype Message = NoMessage | OperationRunning | OperationCanceled | Told(error: nat) | UnknownHandle

  function ErrorMessage(e: Execution): Message {
    match e
    case Running(_) => OperationRunning
    case Refreshing(_) => OperationRunning
    case Failed(error, _, _) => Told(error)
    case Canceled(_, _) => OperationCanceled
    case Finished(_, _, _) => NoMessage
  }

  datatype Status = Status(code: int, state: int, hasResult: bool, message: Message)

  function StatusOf(e: Execution): Status { Status(StatusCode(e), StateCode(e), e.Finished?, ErrorMessage(e)) }

  const INVALID_STATUS := Status(INVALID_HANDLE_STATUS, ERROR_STATE, false, UnknownHandle)

  // ----- cancels and refreshes in any order -----

  datatype Event = Take(taskEnded: bool) | Finish(started: nat, join: Join, now: nat) | Cancel(now: nat)

  function After(e: Execution, event: Event): Execution {
    match event
    case Take(taskEnded) => if e.Running? && taskEnded then Refreshing(e.started) else e
    case Finish(started, join, now) => Refreshed(e, started, join, now)
    case Cancel(now) => CancelledExecution(e, now)
  }

  function AfterAll(e: Execution, events: seq<Event>): Execution
    decreases |events|
  {
    if events == [] then e else AfterAll(After(e, events[0]), events[1..])
  }

  /** What ends a running operation, or commits it to the end of its task. */
  predicate Decides(event: Event) { event.Cancel? || (event.Take? && event.taskEnded) }

  /** The first of the events that decides the race. */
  predicate FirstDecides(events: seq<Event>, d: nat) {
    d < |events| && Decides(events[d]) && forall k | 0 <= k < d :: !Decides(events[k])
  }

  /** The first refresh to finish after d. */
  predicate FirstFinish(events: seq<Event>, d: nat, f: nat) {
    d < f < |events| && events[f].Finish? && forall k | d < k < f :: !events[k].Finish?
  }

  /** Once an operation has ended, nothing changes how. */
  lemma {:induction false} EndStands(e: Execution, events: seq<Event>)
    requires !Active(e)
    ensures AfterAll(e, events) == e
  {
    if events != [] {
      EndStands(e, events[1..]);
    }
  }

  lemma {:induction false} TakenEnds(started: nat, events: seq<Event>, f: nat)
    requires f < |events| && events[f].Finish? && forall k | 0 <= k < f :: !events[k].Finish?
    ensures AfterAll(Refreshing(started), events) == FromJoin(events[f].started, events[f].join, events[f].now)
  {
    if f == 0 {
      EndStands(After(Refreshing(started), events[0]), events[1..]);
    } else {
      TakenEnds(started, events[1..], f - 1);
    }
  }

  lemma {:induction false} TakenWaits(started: nat, events: seq<Event>)
    requires forall k | 0 <= k < |events| :: !events[k].Finish?
    ensures AfterAll(Refreshing(started), events) == Refreshing(started)
  {
    if events != [] {
      TakenWaits(started, events[1..]);
    }
  }

  /** A cancel decides if no refresh took the ended task before it, and then neither the task's own outcome nor another
      cancel changes anything. */
  lemma {:induction false} CancelDecides(started: nat, events: seq<Event>, d: nat)
    requires FirstDecides(events, d) && events[d].Cancel?
    ensures AfterAll(Running(started), events) == Canceled(Since(events[d].now, started), events[d].now)
  {
    if d == 0 {
      EndStands(After(Running(started), events[0]), events[1..]);
    } else {
      CancelDecides(started, events[1..], d - 1);
    }
  }

  /** A refresh that takes the ended task first decides: whatever cancels follow, the operation ends as its task did, at
      the moment of the first refresh to finish, and is active exactly until then. */
  lemma {:induction false} RefreshDecides(started: nat, events: seq<Event>, d: nat)
    requires FirstDecides(events, d) && events[d].Take?
    ensures forall f: nat | FirstFinish(events, d, f) ::
        AfterAll(Running(started), events) == FromJoin(events[f].started, events[f].join, events[f].now)
    ensures (forall k | d < k < |events| :: !events[k].Finish?) ==>
        AfterAll(Running(started), events) == Refreshing(started)
  {
    if d == 0 {
      var rest := events[1..];
      assert AfterAll(Running(started), events) == AfterAll(Refreshing(started), rest);
      forall f: nat | FirstFinish(events, 0, f)
        ensures AfterAll(Running(started), events) == FromJoin(events[f].started, events[f].join, events[f].now)
      {
        assert forall k | 0 <= k < f - 1 :: rest[k] == events[k + 1];
        TakenEnds(started, rest, f - 1);
      }
      if forall k | 0 < k < |events| :: !events[k].Finish? {
        TakenWaits(started, rest);
      }
    } else {
      var rest := events[1..];
      assert forall k | 0 <= k < |rest| :: rest[k] == events[k + 1];
      RefreshDecides(started, rest, d - 1);
      forall f: nat | FirstFinish(events, d, f)
        ensures AfterAll(Running(started), events) == FromJoin(events[f].started, events[f].join, events[f].now)
      {
        assert FirstFinish(rest, d - 1, f - 1);
      }
    }
  }

  class Operation {
    const secret: nat
    const sessionId: nat
    const token: nat
    var state: Execution
    var aborted: bool

    constructor (secret: nat, sessionId: nat, token: nat, started: nat)
      ensures this.secret == secret && this.sessionId == sessionId && this.token == token
      ensures state == Running(started) && !aborted
    {
      this.secret, this.sessionId, this.token := secret, sessionId, token;
      state, aborted := Running(started), false;
    }

    /** Only a running operation whose task has ended gives its task up, and at most once. */
    method TakeFinishedTask(taskFinished: bool) returns (started: Option<nat>)
      modifies this`state
      ensures started.Some? <==> old(state).Running? && taskFinished
      ensures started.Some? ==> old(state) == Running(started.value) && state == Refreshing(started.value)
      ensures started.None? ==> state == old(state)
      ensures state == After(old(state), Take(taskFinished))
    {
      if !(state.Running? && taskFinished) {
        return None;
      }
      started := Some(state.started);
      state := Refreshing(state.started);
    }

    /** Ends a refreshing operation as its task ended, and no other. */
    method FinishRefresh(started: nat, join: Join, now: nat)
      modifies this`state
      ensures !old(state).Refreshing? ==> state == old(state)
      ensures old(state).Refreshing? ==> !Active(state) && state.completedAt == now
      ensures old(state).Refreshing? && join.Completed? ==>
        match join.completion.outcome
        case Good(result) => state.Finished? && state.result == result && state.duration == join.completion.duration
        case Bad(error) => state.Failed? && state.error == error && state.duration == join.completion.duration
      ensures old(state).Refreshing? && !join.Completed? ==> state.duration == Since(now, started)
      ensures old(state).Refreshing? ==> (state.Canceled? <==> join.Cancelled?)
      ensures old(state).Refreshing? && join.Panicked? ==> state.Failed? && state.error == INTERNAL_ERROR
      ensures state == After(old(state), Finish(started, join, now))
    {
      match state {
        case Refreshing(_) =>
          match join {
            case Completed(c) =>
              match c.outcome {
                case Good(result) => state := Finished(result, c.duration, now);
                case Bad(error) => state := Failed(error, c.duration, now);
              }
            case Cancelled => state := Canceled(Since(now, started), now);
            case Panicked => state := Failed(INTERNAL_ERROR, Since(now, started), now);
          }
        case Running(_) =>
        case Finished(_, _, _) =>
        case Failed(_, _, _) =>
        case Canceled(_, _) =>
      }
    }

    method Abort()
      modifies this`aborted
      ensures aborted <==> old(aborted) || state.Running?
    {
      if state.Running? {
        aborted := true;
      }
    }

    /** Cancels a running operation, and leaves one that is refreshing or has ended as it is. */
    method Cancel(now: nat)
      modifies this
      ensures !old(state).Running? ==> state == old(state)
      ensures old(state).Running? ==> state.Canceled? && state.completedAt == now
      ensures old(state).Running? ==> state.duration == Since(now, old(state).started)
      ensures aborted <==> old(aborted) || old(state).Running?
      ensures state == After(old(state), Event.Cancel(now))
    {
      if !state.Running? {
        return;
      }
      var duration := Since(now, state.started);
      Abort();
      state := Canceled(duration, now);
    }
  }
}
