/** CREATE OR REPLACE TABLE AS SELECT as a protocol of many runs that may each stop at any step. */
module Ctas {
  import opened Ascii

  /** Trailing slashes do not tell two locations apart. */
  function Trim(location: string): (t: string)
    ensures t <= location && (t != "" ==> t[|t| - 1] != '/')
  {
    if location != "" && location[|location| - 1] == '/' then Trim(location[..|location| - 1]) else location
  }

  datatype Phase =
    | Start
    | Listed(existing: bool)
    | Validated(existing: bool)
    | Authorized(existing: bool)
    | Loaded(existing: bool)
    | Committed(existing: bool)
    | Done(ok: bool)

  datatype Run = Run(name: string, location: string, phase: Phase)

  /** The Delta log of each location, as the runs that committed to it in order; and the catalog's tables by name. */
  datatype State = State(logs: map<string, seq<nat>>, registered: map<string, string>, runs: seq<Run>)

  function InitialState(): State { State(map[], map[], []) }

  function LogAt(s: State, location: string): seq<nat> {
    if Trim(location) in s.logs then s.logs[Trim(location)] else []
  }

  /** Some table of the catalog is at that location. */
  predicate RegisteredAt(s: State, location: string) {
    exists name | name in s.registered :: Trim(s.registered[name]) == Trim(location)
  }

  /** A run's next step follows from its phase, but for what the outside answers: whether the existing table is one
      that may be replaced, which location the credentials are for, whether the write and the registration go through.
      */
  datatype Answer = Answer(acceptable: bool, credentialUrl: string, reaches: bool)

  datatype Step = Begin(name: string, location: string) | Act(r: nat, answer: Answer) | Crash(r: nat)
    | RegisterElsewhere(name: string, location: string)

  predicate Enabled(s: State, step: Step) {
    match step
    case Begin(_, _) => true
    case Act(r, _) => r < |s.runs| && !s.runs[r].phase.Done?
    case Crash(r) => r < |s.runs| && !s.runs[r].phase.Done?
    case RegisterElsewhere(name, _) => Fold(name) !in s.registered
  }

  predicate IsRegistered(s: State, name: string) { Fold(name) in s.registered }

  /** The write goes through. Version 0 is created only if the log has none; replacing adds a version. */
  predicate Commits(s: State, r: nat, answer: Answer) {
    && r < |s.runs| && s.runs[r].phase.Loaded? && answer.reaches
    && (s.runs[r].phase.existing || LogAt(s, s.runs[r].location) == [])
  }

  predicate Registers(s: State, r: nat, answer: Answer) {
    && r < |s.runs| && s.runs[r].phase == Committed(false) && answer.reaches && !IsRegistered(s, s.runs[r].name)
  }

  function PhaseAfter(s: State, r: nat, answer: Answer): Phase
    requires r < |s.runs| && !s.runs[r].phase.Done?
  {
    var run := s.runs[r];
    match run.phase
    case Start => Listed(IsRegistered(s, run.name))
    case Listed(existing) =>
      if !existing then Validated(false)
      else if answer.acceptable && IsRegistered(s, run.name) && Trim(s.registered[Fold(run.name)]) == Trim(run.location)
      then Validated(true) else Done(false)
    case Validated(existing) =>
      if Trim(answer.credentialUrl) == Trim(run.location) then Authorized(existing) else Done(false)
    case Authorized(existing) =>
      if (LogAt(s, run.location) != []) == existing then Loaded(existing) else Done(false)
    case Loaded(existing) => if Commits(s, r, answer) then Committed(existing) else Done(false)
    case Committed(existing) => Done(existing || Registers(s, r, answer))
  }

  function LogsAfter(s: State, step: Step): map<string, seq<nat>> {
    if step.Act? && Commits(s, step.r, step.answer) then
      s.logs[Trim(s.runs[step.r].location) := LogAt(s, s.runs[step.r].location) + [step.r]]
    else s.logs
  }

  function RegisteredAfter(s: State, step: Step): map<string, string> {
    match step
    case Act(r, answer) =>
      if Registers(s, r, answer) then s.registered[Fold(s.runs[r].name) := s.runs[r].location] else s.registered
    case RegisterElsewhere(name, location) => s.registered[Fold(name) := location]
    case Begin(_, _) => s.registered
    case Crash(_) => s.registered
  }

  function RunsAfter(s: State, step: Step): seq<Run>
    requires Enabled(s, step)
  {
    match step
    case Begin(name, location) => s.runs + [Run(name, location, Start)]
    case Act(r, answer) => s.runs[r := Run(s.runs[r].name, s.runs[r].location, PhaseAfter(s, r, answer))]
    case Crash(r) => s.runs[r := Run(s.runs[r].name, s.runs[r].location, Done(false))]
    case RegisterElsewhere(_, _) => s.runs
  }

  function Next(s: State, step: Step): State
    requires Enabled(s, step)
  {
    State(LogsAfter(s, step), RegisteredAfter(s, step), RunsAfter(s, step))
  }

  // ----- what every reachable state keeps -----

  /** A run that means to replace a table has found one registered at its location; a run that has committed is in the
      log there, and is its first entry if it created the table. */
  ghost predicate RunOk(s: State, r: nat)
    requires r < |s.runs|
  {
    var run := s.runs[r];
    match run.phase
    case Start => true
    case Listed(_) => true
    case Validated(existing) => existing ==> RegisteredAt(s, run.location)
    case Authorized(existing) => existing ==> RegisteredAt(s, run.location)
    case Loaded(existing) => existing ==> RegisteredAt(s, run.location)
    case Committed(existing) =>
      && r in LogAt(s, run.location) && (existing ==> RegisteredAt(s, run.location))
      && (!existing ==> LogAt(s, run.location)[0] == r)
    case Done(_) => true
  }

  ghost predicate Inv(s: State) { forall r | 0 <= r < |s.runs| :: RunOk(s, r) }

  lemma StaysRegistered(s: State, step: Step, location: string)
    requires Enabled(s, step) && RegisteredAt(s, location)
    ensures RegisteredAt(Next(s, step), location)
  {
    hide Trim, Fold, RunsAfter, LogsAfter;
    var name :| name in s.registered && Trim(s.registered[name]) == Trim(location);
    assert name in Next(s, step).registered && Next(s, step).registered[name] == s.registered[name];
  }

  lemma LogGrows(s: State, step: Step, location: string)
    requires Enabled(s, step)
    ensures LogAt(s, location) <= LogAt(Next(s, step), location)
  {
    hide Trim, RunsAfter, RegisteredAfter;
  }

  lemma RunKeeps(s: State, step: Step, r: nat)
    requires Enabled(s, step) && r < |Next(s, step).runs|
    requires r < |s.runs| ==> RunOk(s, r)
    ensures RunOk(Next(s, step), r)
  {
    hide Trim, Fold, RegisteredAt, RegisteredAfter;
    var s' := Next(s, step);
    if r < |s.runs| {
      var location := s.runs[r].location;
      LogGrows(s, step, location);
      if RegisteredAt(s, location) {
        StaysRegistered(s, step, location);
      }
      if step.Act? && step.r == r && s.runs[r].phase.Listed? {
        ValidatedRegistered(s, r, step.answer);
        if RegisteredAt(s, location) {
          StaysRegistered(s, step, location);
        }
      }
    }
  }

  lemma ValidatedRegistered(s: State, r: nat, answer: Answer)
    requires r < |s.runs| && s.runs[r].phase.Listed?
    ensures PhaseAfter(s, r, answer) == Validated(true) ==> RegisteredAt(s, s.runs[r].location)
  {
    hide Trim, Fold;
  }

  lemma StepKeeps(s: State, step: Step)
    requires Inv(s) && Enabled(s, step)
    ensures Inv(Next(s, step))
  {
    hide RunOk, LogsAfter, RegisteredAfter, RunsAfter;
    forall r | 0 <= r < |Next(s, step).runs| ensures RunOk(Next(s, step), r) {
      RunKeeps(s, step, r);
    }
  }

  ghost predicate IsRun(history: seq<State>, steps: seq<Step>) {
    && |history| == |steps| + 1
    && history[0] == InitialState()
    && forall i | 0 <= i < |steps| :: Enabled(history[i], steps[i]) && history[i + 1] == Next(history[i], steps[i])
  }

  lemma {:induction false} HistoryKeeps(history: seq<State>, steps: seq<Step>, m: nat)
    requires IsRun(history, steps) && m < |history|
    ensures Inv(history[m])
  {
    if m > 0 {
      hide Inv, Enabled, Next;
      HistoryKeeps(history, steps, m - 1);
      StepKeeps(history[m - 1], steps[m - 1]);
    }
  }

  // ----- what the protocol promises -----

  /** Data that was committed but never registered is never overwritten: while its location is unregistered, its log
      stays as it is, through any number of later runs, crashes and retries, and however the location is spelled. */
  lemma {:induction false} OrphanKept(history: seq<State>, steps: seq<Step>, i: nat, j: nat, location: string)
    requires IsRun(history, steps) && i <= j < |history|
    requires LogAt(history[i], location) != [] && !RegisteredAt(history[j], location)
    ensures LogAt(history[j], location) == LogAt(history[i], location)
  {
    if i < j {
      hide Inv, Trim, RegisteredAt, RunOk;
      var s, step := history[j - 1], steps[j - 1];
      assert Enabled(s, step) && history[j] == Next(s, step);
      HistoryKeeps(history, steps, j - 1);
      if RegisteredAt(s, location) {
        StaysRegistered(s, step, location);
      }
      OrphanKept(history, steps, i, j - 1, location);
      OrphanStep(s, step, location);
    }
  }

  lemma OrphanStep(s: State, step: Step, location: string)
    requires Inv(s) && Enabled(s, step) && LogAt(s, location) != [] && !RegisteredAt(s, location)
    ensures LogAt(Next(s, step), location) == LogAt(s, location)
  {
    hide Trim, RunsAfter, RegisteredAfter;
    if step.Act? && Commits(s, step.r, step.answer) {
      assert RunOk(s, step.r);
    }
  }

  /** A table is registered by a run only at the location where that same run's commit created it. */
  lemma RegistersOwnCommit(history: seq<State>, steps: seq<Step>, m: nat, r: nat, answer: Answer)
    requires IsRun(history, steps) && m < |steps| && steps[m] == Act(r, answer) && Registers(history[m], r, answer)
    ensures var log := LogAt(history[m], history[m].runs[r].location); log != [] && log[0] == r
  {
    hide Trim, Fold;
    HistoryKeeps(history, steps, m);
    assert RunOk(history[m], r);
  }

  lemma {:induction false} LogGrowsOver(history: seq<State>, steps: seq<Step>, i: nat, j: nat, location: string)
    requires IsRun(history, steps) && i <= j < |history|
    ensures LogAt(history[i], location) <= LogAt(history[j], location)
  {
    if i < j {
      hide LogAt, Next;
      assert Enabled(history[j - 1], steps[j - 1]);
      LogGrowsOver(history, steps, i, j - 1, location);
      LogGrows(history[j - 1], steps[j - 1], location);
    }
  }

  /** The step is a run's commit that creates the table at its location. */
  predicate Creates(s: State, step: Step, location: string) {
    && step.Act? && Commits(s, step.r, step.answer) && s.runs[step.r].phase == Loaded(false)
    && Trim(s.runs[step.r].location) == Trim(location)
  }

  /** A table is created at a location by one commit at most, ever: once a run has created it, no other does, whether
      that run has gone on, finished or crashed. */
  lemma OneCreator(history: seq<State>, steps: seq<Step>, i: nat, j: nat, location: string)
    requires IsRun(history, steps) && i < j < |steps|
    requires Creates(history[i], steps[i], location)
    ensures !Creates(history[j], steps[j], location)
  {
    hide Trim, RunsAfter, RegisteredAfter;
    assert Enabled(history[i], steps[i]) && history[i + 1] == Next(history[i], steps[i]);
    LogGrowsOver(history, steps, i + 1, j, location);
    assert LogAt(history[i + 1], location) != [];
  }

  /** The first entry of a location's log is the run that created the table there, for good. */
  lemma CreatorIsFirst(history: seq<State>, steps: seq<Step>, i: nat, j: nat, location: string)
    requires IsRun(history, steps) && i < j < |history|
    requires i < |steps| && Creates(history[i], steps[i], location)
    ensures LogAt(history[j], location) != [] && LogAt(history[j], location)[0] == steps[i].r
  {
    hide Trim, RunsAfter, RegisteredAfter;
    assert Enabled(history[i], steps[i]) && history[i + 1] == Next(history[i], steps[i]);
    LogGrowsOver(history, steps, i + 1, j, location);
  }
}
