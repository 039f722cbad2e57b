/** Sessions and operations as interleaved atomic steps of handlers, query tasks, refreshers and background cleanup. */
module ServiceProtocol {
  import opened MapSizes
  import opened OperationState

  // ----- the shared state -----

  datatype Session = Session(lastAccess: nat)

  /** A query task; a GetColumns task that has its completion waits for the lock on the map before it reports. */
  datatype TaskState = Working | Reporting(completion: Completion) | Ended(join: Join)

  /** The handler that started an operation. A statement's returns the handle at once; that of GetColumns waits for its
      task, and may be dropped by its client before or after the task has sent it the outcome. */
  datatype Handler = NoHandler | Waiting | Undoing | Replied(ok: bool) | DroppedEarly | DroppedLate

  /** Everything about an operation that outlives its place in the map; its identifier is its position. */
  datatype Job = Job(session: nat, secret: nat, token: nat, task: TaskState, aborted: bool, handler: Handler)

  /** A refresh that has taken an operation's task, and a cleanup between its two locks. */
  datatype Refresher = Refresher(id: nat, started: nat, join: Join, pending: bool)
  datatype Cleaner = Cleaner(asOf: nat, expired: set<nat>, pending: bool)

  datatype Config = Config(maxSessions: nat, maxOperations: nat, idleTimeout: nat, completedTtl: nat)

  datatype State = State(now: nat, sessionsOpened: nat, sessions: map<nat, Session>, purging: set<nat>,
                         operations: map<nat, Execution>, jobs: seq<Job>, refreshers: seq<Refresher>,
                         cleaners: seq<Cleaner>)

  function InitialState(): State { State(0, 0, map[], {}, map[], [], [], []) }

  // ----- the steps -----

  datatype TaskEvent = Complete(completion: Completion) | Report | Panic | AbortLands
  datatype HandlerEvent = Receive | Undo | Drop

  datatype Step =
    | Tick(to: nat)
    | OpenSession
    | CloseSession(session: nat)
    | LookUpSession(session: nat, asOf: nat, ownHandle: bool)
    | TouchSession(session: nat)
    | Purge(session: nat)
    | Execute(session: nat, secret: nat, token: nat)
    | GetColumns(session: nat, secret: nat, token: nat)
    | TaskStep(id: nat, event: TaskEvent)
    | HandlerStep(id: nat, reaction: HandlerEvent)
    | TakeTask(id: nat)
    | PutBack(r: nat)
    | CleanSessions(asOf: nat)
    | SweepOperations(k: nat)
    | CloseOperation(id: nat)
    | CancelOperation(id: nat)

  predicate IsColumns(j: Job) { !j.handler.NoHandler? }

  /** The client has the handle: a statement's at once, that of GetColumns only with a successful reply. */
  predicate Disclosed(j: Job) { j.handler.NoHandler? || j.handler == Replied(true) }

  predicate KnownTo(s: State, id: nat) { id < |s.jobs| && Disclosed(s.jobs[id]) }

  predicate TaskCan(j: Job, event: TaskEvent) {
    match event
    case Complete(_) => j.task.Working?
    case Report => j.task.Reporting?
    case Panic => j.task.Working?
    case AbortLands => j.aborted && !j.task.Ended?
  }

  predicate HandlerCan(j: Job, reaction: HandlerEvent) {
    match reaction
    case Receive => j.handler.Waiting? && j.task.Ended?
    case Undo => j.handler.Undoing?
    case Drop => j.handler.Waiting? || j.handler.Undoing?
  }

  predicate Enabled(s: State, step: Step) {
    match step
    case Tick(to) => s.now <= to
    case OpenSession => true
    case CloseSession(session) => session in s.sessions
    case LookUpSession(session, asOf, _) => session in s.sessions && asOf <= s.now
    case TouchSession(session) => session in s.sessions
    case Purge(session) => session in s.purging
    case Execute(_, _, _) => true
    case GetColumns(_, _, _) => true
    case TaskStep(id, event) => id < |s.jobs| && TaskCan(s.jobs[id], event)
    case HandlerStep(id, reaction) => id < |s.jobs| && HandlerCan(s.jobs[id], reaction)
    case TakeTask(id) => id < |s.jobs| && id in s.operations && s.operations[id].Running? && s.jobs[id].task.Ended?
    case PutBack(r) => r < |s.refreshers| && s.refreshers[r].pending
    case CleanSessions(asOf) => asOf <= s.now
    case SweepOperations(k) => k < |s.cleaners| && s.cleaners[k].pending
    case CloseOperation(id) => KnownTo(s, id)
    case CancelOperation(id) => KnownTo(s, id)
  }

  predicate SessionExpired(c: Config, session: Session, now: nat) { Since(now, session.lastAccess) >= c.idleTimeout }

  function Idle(c: Config, s: State, asOf: nat): set<nat> {
    set id | id in s.sessions && SessionExpired(c, s.sessions[id], asOf)
  }

  function SessionsAfter(c: Config, s: State, step: Step): map<nat, Session>
    requires Enabled(s, step)
  {
    match step
    case OpenSession =>
      if |s.sessions| >= c.maxSessions then s.sessions else s.sessions[s.sessionsOpened := Session(s.now)]
    case CloseSession(session) => s.sessions - {session}
    case LookUpSession(session, asOf, ownHandle) =>
      if SessionExpired(c, s.sessions[session], asOf) then s.sessions - {session}
      else if ownHandle then s.sessions[session := Session(asOf)] else s.sessions
    case TouchSession(session) => s.sessions[session := Session(s.now)]
    case CleanSessions(asOf) => s.sessions - Idle(c, s, asOf)
    case _ => s.sessions
  }

  function PurgingAfter(c: Config, s: State, step: Step): set<nat>
    requires Enabled(s, step)
  {
    match step
    case CloseSession(session) => s.purging + {session}
    case LookUpSession(session, asOf, _) =>
      if SessionExpired(c, s.sessions[session], asOf) then s.purging + {session} else s.purging
    case _ => s.purging
  }

  predicate OfSessions(s: State, id: nat, sessions: set<nat>) { id < |s.jobs| && s.jobs[id].session in sessions }

  /** The operations a step takes out of the map, other than a GetColumns task its own. */
  predicate Drops(c: Config, s: State, step: Step, id: nat)
    requires Enabled(s, step) && id in s.operations
  {
    match step
    case Purge(session) => OfSessions(s, id, {session})
    case SweepOperations(k) =>
      OfSessions(s, id, s.cleaners[k].expired) || OperationExpired(s.operations[id], s.cleaners[k].asOf, c.completedTtl)
    case CloseOperation(closed) => id == closed
    case HandlerStep(undone, reaction) => id == undone && reaction.Undo?
    case _ => false
  }

  /** The report of a GetColumns task whose handler no longer listens takes its operation back out. */
  predicate Withdraws(s: State, step: Step, id: nat)
    requires Enabled(s, step)
  {
    step == TaskStep(id, Report) && !s.jobs[id].handler.Waiting?
  }

  /** What becomes of an operation that stays in the map. */
  function ExecutionAfter(c: Config, s: State, step: Step, id: nat): Execution
    requires Enabled(s, step) && id in s.operations
  {
    match step
    case TaskStep(reported, Report) =>
      if id == reported then FromCompletion(s.jobs[id].task.completion, s.now) else s.operations[id]
    case TakeTask(taken) => if id == taken then Refreshing(s.operations[id].started) else s.operations[id]
    case PutBack(r) =>
      if id == s.refreshers[r].id then Refreshed(s.operations[id], s.refreshers[r].started, s.refreshers[r].join, s.now)
      else s.operations[id]
    case CancelOperation(canceled) =>
      if id == canceled then CancelledExecution(s.operations[id], s.now) else s.operations[id]
    case _ => s.operations[id]
  }

  predicate Starts(c: Config, s: State, step: Step) {
    (step.Execute? || step.GetColumns?) && |s.operations| < c.maxOperations
  }

  function OperationsAfter(c: Config, s: State, step: Step): map<nat, Execution>
    requires Enabled(s, step)
  {
    if Starts(c, s, step) then s.operations[|s.jobs| := Running(s.now)]
    else
      map id | id in s.operations && !Drops(c, s, step, id) && !Withdraws(s, step, id) ::
        ExecutionAfter(c, s, step, id)
  }

  /** Running operations that are dropped or cancelled have their tasks aborted. */
  predicate Aborts(c: Config, s: State, step: Step, id: nat)
    requires Enabled(s, step)
  {
    id in s.operations && s.operations[id].Running? && (Drops(c, s, step, id) || step == CancelOperation(id))
  }

  function TaskAfter(j: Job, event: TaskEvent): TaskState
    requires TaskCan(j, event)
  {
    match event
    case Complete(completion) => if IsColumns(j) then Reporting(completion) else Ended(Completed(completion))
    case Report => Ended(Completed(j.task.completion))
    case Panic => Ended(Panicked)
    case AbortLands => Ended(Cancelled)
  }

  function HandlerAfter(j: Job, reaction: HandlerEvent): (h: Handler)
    requires HandlerCan(j, reaction)
    ensures !h.NoHandler?
  {
    match reaction
    case Receive => if Succeeded(j.task) then Replied(true) else Undoing
    case Undo => Replied(false)
    case Drop => if Sent(j.task) then DroppedLate else DroppedEarly
  }

  function JobAfter(c: Config, s: State, step: Step, id: nat): Job
    requires Enabled(s, step) && id < |s.jobs|
  {
    var j := s.jobs[id];
    Job(j.session, j.secret, j.token,
        if step.TaskStep? && step.id == id then TaskAfter(j, step.event) else j.task,
        j.aborted || Aborts(c, s, step, id),
        if step.HandlerStep? && step.id == id then HandlerAfter(j, step.reaction) else j.handler)
  }

  function NewJob(step: Step): Job
    requires step.Execute? || step.GetColumns?
  {
    Job(step.session, step.secret, step.token, Working, false, if step.Execute? then NoHandler else Waiting)
  }

  function JobsAfter(c: Config, s: State, step: Step): seq<Job>
    requires Enabled(s, step)
  {
    seq(|s.jobs|, id requires 0 <= id < |s.jobs| && Enabled(s, step) => JobAfter(c, s, step, id))
    + if Starts(c, s, step) then [NewJob(step)] else []
  }

  function RefreshersAfter(s: State, step: Step): seq<Refresher>
    requires Enabled(s, step)
  {
    match step
    case TakeTask(id) => s.refreshers + [Refresher(id, s.operations[id].started, s.jobs[id].task.join, true)]
    case PutBack(r) =>
      s.refreshers[r := Refresher(s.refreshers[r].id, s.refreshers[r].started, s.refreshers[r].join, false)]
    case _ => s.refreshers
  }

  function CleanersAfter(c: Config, s: State, step: Step): seq<Cleaner>
    requires Enabled(s, step)
  {
    match step
    case CleanSessions(asOf) => s.cleaners + [Cleaner(asOf, Idle(c, s, asOf), true)]
    case SweepOperations(k) => s.cleaners[k := Cleaner(s.cleaners[k].asOf, s.cleaners[k].expired, false)]
    case _ => s.cleaners
  }

  function Next(c: Config, s: State, step: Step): State
    requires Enabled(s, step)
  {
    State(if step.Tick? then step.to else s.now,
          if step.OpenSession? && |s.sessions| < c.maxSessions then s.sessionsOpened + 1 else s.sessionsOpened,
          SessionsAfter(c, s, step), PurgingAfter(c, s, step), OperationsAfter(c, s, step), JobsAfter(c, s, step),
          RefreshersAfter(s, step), CleanersAfter(c, s, step))
  }

  // ----- what every reachable state keeps -----

  /** An execution in the map tells the truth about its task. */
  predicate ExecutionOk(j: Job, e: Execution) {
    match e
    case Running(_) => !j.aborted && (IsColumns(j) && j.task.Ended? ==> j.task.join.Panicked?)
    case Refreshing(_) => !j.aborted && j.task.Ended? && (IsColumns(j) ==> j.task.join.Panicked?)
    case Finished(result, duration, _) => j.task == Ended(Completed(Completion(duration, Good(result))))
    case Failed(error, duration, _) =>
      || j.task == Ended(Completed(Completion(duration, Bad(error))))
      || (j.task == Ended(Panicked) && error == INTERNAL_ERROR)
    case Canceled(_, _) => j.aborted && !IsColumns(j)
  }

  predicate TaskOk(s: State, id: nat)
    requires id < |s.jobs|
  {
    var j := s.jobs[id];
    && (id in s.operations ==> ExecutionOk(j, s.operations[id]))
    && (j.task.Reporting? ==> IsColumns(j))
    && (j.task == Ended(Cancelled) ==> j.aborted)
    && (j.aborted && IsColumns(j) ==> id !in s.operations)
  }

  predicate Succeeded(task: TaskState) { task.Ended? && task.join.Completed? && task.join.completion.outcome.Good? }

  predicate Sent(task: TaskState) { task.Ended? && task.join.Completed? }

  predicate HandlerOk(s: State, id: nat)
    requires id < |s.jobs|
  {
    var j := s.jobs[id];
    match j.handler
    case NoHandler => true
    case Waiting => true
    case Undoing => j.task.Ended? && !Succeeded(j.task)
    case Replied(ok) => if ok then Succeeded(j.task) else id !in s.operations
    case DroppedEarly => Sent(j.task) ==> id !in s.operations
    case DroppedLate => Sent(j.task)
  }

  predicate JobOk(s: State, id: nat)
    requires id < |s.jobs|
  {
    TaskOk(s, id) && HandlerOk(s, id)
  }

  predicate RefresherOk(s: State, r: nat)
    requires r < |s.refreshers|
  {
    s.refreshers[r].id < |s.jobs| && s.jobs[s.refreshers[r].id].task == Ended(s.refreshers[r].join)
  }

  ghost predicate MapsOk(c: Config, s: State) {
    && |s.sessions| <= c.maxSessions
    && |s.operations| <= c.maxOperations
    && forall id | id in s.operations :: id < |s.jobs|
  }

  ghost predicate Inv(c: Config, s: State) {
    && MapsOk(c, s)
    && (forall id | 0 <= id < |s.jobs| :: JobOk(s, id))
    && (forall r | 0 <= r < |s.refreshers| :: RefresherOk(s, r))
  }

  lemma InitKeeps(c: Config)
    ensures Inv(c, InitialState())
  {
  }

  lemma JobIn(c: Config, s: State, id: nat)
    requires Inv(c, s) && id < |s.jobs|
    ensures JobOk(s, id)
  {
  }

  lemma OperationsBounded(c: Config, s: State, step: Step)
    requires MapsOk(c, s) && Enabled(s, step)
    ensures |OperationsAfter(c, s, step)| <= c.maxOperations
    ensures forall id | id in OperationsAfter(c, s, step) :: id < |JobsAfter(c, s, step)|
  {
    hide JobAfter, Drops, Withdraws, ExecutionAfter;
    if !Starts(c, s, step) {
      Smaller(OperationsAfter(c, s, step), s.operations);
    }
  }

  lemma SessionsBounded(c: Config, s: State, step: Step)
    requires MapsOk(c, s) && Enabled(s, step)
    ensures |SessionsAfter(c, s, step)| <= c.maxSessions
  {
    hide Idle, SessionExpired, Starts;
    match step {
      case LookUpSession(session, asOf, _) =>
        Smaller(SessionsAfter(c, s, step), s.sessions);
      case CloseSession(_) => Smaller(SessionsAfter(c, s, step), s.sessions);
      case CleanSessions(_) => Smaller(SessionsAfter(c, s, step), s.sessions);
      case _ =>
    }
  }

  lemma ExecutionKeeps(c: Config, s: State, step: Step, id: nat)
    requires Enabled(s, step) && id < |s.jobs| && JobOk(s, id)
    requires step.PutBack? ==> RefresherOk(s, step.r)
    requires id in OperationsAfter(c, s, step)
    ensures ExecutionOk(JobAfter(c, s, step, id), OperationsAfter(c, s, step)[id])
  {
    hide SessionsAfter, PurgingAfter, RefreshersAfter, CleanersAfter, OperationExpired, OfSessions, HandlerAfter;
  }

  lemma TaskKeeps(c: Config, s: State, step: Step, id: nat)
    requires Enabled(s, step) && id < |s.jobs| && JobOk(s, id)
    requires step.PutBack? ==> RefresherOk(s, step.r)
    ensures TaskOk(Next(c, s, step), id)
  {
    hide SessionsAfter, PurgingAfter, RefreshersAfter, CleanersAfter, OperationExpired, OfSessions, HandlerAfter,
      ExecutionAfter;
    if id in OperationsAfter(c, s, step) {
      ExecutionKeeps(c, s, step, id);
    }
  }

  lemma HandlerKeeps(c: Config, s: State, step: Step, id: nat)
    requires Enabled(s, step) && id < |s.jobs| && JobOk(s, id)
    ensures HandlerOk(Next(c, s, step), id)
  {
    hide SessionsAfter, PurgingAfter, RefreshersAfter, CleanersAfter, OperationExpired, OfSessions, ExecutionAfter,
      Aborts;
  }

  lemma JobKeeps(c: Config, s: State, step: Step, id: nat)
    requires Inv(c, s) && Enabled(s, step) && id < |s.jobs|
    ensures JobOk(Next(c, s, step), id)
  {
    hide Next, TaskOk, HandlerOk;
    JobIn(c, s, id);
    assert step.PutBack? ==> step.r < |s.refreshers| && RefresherOk(s, step.r);
    TaskKeeps(c, s, step, id);
    HandlerKeeps(c, s, step, id);
  }

  lemma StepKeeps(c: Config, s: State, step: Step)
    requires Inv(c, s) && Enabled(s, step)
    ensures Inv(c, Next(c, s, step))
  {
    hide SessionsAfter, PurgingAfter, CleanersAfter, OperationsAfter, JobOk, Drops;
    var s' := Next(c, s, step);
    OperationsBounded(c, s, step);
    SessionsBounded(c, s, step);
    forall id | 0 <= id < |s'.jobs| ensures JobOk(s', id) {
      if id < |s.jobs| {
        JobKeeps(c, s, step, id);
      } else {
        NewJobOk(c, s, step);
      }
    }
    forall r | 0 <= r < |s'.refreshers| ensures RefresherOk(s', r) {
      assert r < |s.refreshers| ==> RefresherOk(s, r);
    }
  }

  lemma NewJobOk(c: Config, s: State, step: Step)
    requires Inv(c, s) && Enabled(s, step) && Starts(c, s, step)
    ensures JobOk(Next(c, s, step), |s.jobs|)
  {
    hide SessionsAfter, PurgingAfter, RefreshersAfter, CleanersAfter, OperationExpired, Drops, JobAfter;
  }
}
