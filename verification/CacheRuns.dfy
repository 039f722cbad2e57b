/** What holds over whole runs of the table cache, for every schedule of callers, loaders and writers. */
module CacheRuns {
  import opened Ascii
  import opened Wrappers
  import opened CacheProtocol

  ghost predicate IsRun(c: Config, run: seq<State>, steps: seq<Step>) {
    && |run| == |steps| + 1
    && run[0] == InitialState()
    && forall i | 0 <= i < |steps| :: Enabled(run[i], steps[i]) && run[i + 1] == Next(c, run[i], steps[i])
  }

  lemma {:induction false} RunKeeps(c: Config, run: seq<State>, steps: seq<Step>, i: nat)
    requires IsRun(c, run, steps) && i < |run|
    ensures Inv(c, run[i]) && run[i].epoch == i
  {
    hide Inv, Enabled, Next;
    if i == 0 {
      InitKeeps(c);
    } else {
      RunKeeps(c, run, steps, i - 1);
      StepKeeps(c, run[i - 1], steps[i - 1]);
      StepGrows(c, run[i - 1], steps[i - 1]);
    }
  }

  /** Calls and slots are only added, and keep their keys and the steps they began at. */
  predicate Grows(s: State, s': State) {
    && s'.now >= s.now && |s'.tasks| >= |s.tasks| && |s'.slots| >= |s.slots|
    && (forall t | 0 <= t < |s.tasks| ::
         s'.tasks[t].key == s.tasks[t].key && s'.tasks[t].started == s.tasks[t].started)
    && (forall i | 0 <= i < |s.slots| :: s'.slots[i].key == s.slots[i].key && s'.slots[i].created == s.slots[i].created)
  }

  lemma SlotsGrow(c: Config, s: State, t: nat, choice: Choice)
    requires CanAct(s, t, choice)
    ensures var slots := SlotsAfter(c, s, t, choice);
      && |slots| >= |s.slots|
      && forall i | 0 <= i < |s.slots| :: slots[i].key == s.slots[i].key && slots[i].created == s.slots[i].created
  {
    hide PhaseAfter, EntriesAfter, AfterLook, Kept, VersionOf;
  }

  lemma StepGrows(c: Config, s: State, step: Step)
    requires Enabled(s, step)
    ensures Grows(s, Next(c, s, step)) && Next(c, s, step).epoch == s.epoch + 1
  {
    hide PhaseAfter, EntriesAfter, LockAfter, SlotsAfter, Retain, VersionOf;
    if step.Act? {
      SlotsGrow(c, s, step.t, step.choice);
    }
  }

  // ----- freshness after an invalidation -----

  predicate TaskFresh(s: State, t: nat, since: nat)
    requires t < |s.tasks|
  {
    var p := s.tasks[t].phase;
    && Has(s, t)
    && (SlotOf(p).Some? ==> s.slots[SlotOf(p).value].created >= since)
    && (p.Done? && p.result.Some? ==> p.result.value.began >= since)
  }

  predicate EntryFresh(s: State, k: Key, since: nat)
    requires k in s.entries
  {
    s.entries[k] < |s.slots| && s.slots[s.entries[k]].created >= since
  }

  /** Nothing from before `since` is within reach of the map, or of the calls started after it, for this name. */
  ghost predicate Fresh(s: State, name: string, since: nat) {
    && (forall k | k in s.entries && SameName(k.name, name) :: EntryFresh(s, k, since))
    && (forall t | 0 <= t < |s.tasks| && s.tasks[t].started >= since && SameName(s.tasks[t].key.name, name) ::
         TaskFresh(s, t, since))
  }

  predicate Invalidates(s: State, step: Step, name: string) {
    step == Invalidate(name) || (step.Return? && step.w < |s.writers| && s.writers[step.w].name == name)
  }

  lemma InvalidationFreshens(c: Config, s: State, step: Step, name: string)
    requires Inv(c, s) && Enabled(s, step) && Invalidates(s, step, name)
    ensures Fresh(Next(c, s, step), name, s.epoch + 1)
  {
    hide SameName;
    forall t | 0 <= t < |s.tasks| ensures s.tasks[t].started <= s.epoch {
      TaskIn(c, s, t);
    }
  }

  /** An entry is as it was, or new with a new slot. */
  lemma EntryAfter(c: Config, s: State, t: nat, choice: Choice, k: Key)
    requires CanAct(s, t, choice) && k in EntriesAfter(c, s, t, choice)
    ensures var slot, slots := EntriesAfter(c, s, t, choice)[k], SlotsAfter(c, s, t, choice);
      (k in s.entries && slot == s.entries[k]) || (slot == |s.slots| < |slots| && slots[slot].created == s.epoch)
  {
  }

  lemma EntryStaysFresh(c: Config, s: State, step: Step, since: nat, k: Key)
    requires Enabled(s, step) && since <= s.epoch
    requires k in s.entries ==> EntryFresh(s, k, since)
    requires k in Next(c, s, step).entries
    ensures EntryFresh(Next(c, s, step), k, since)
  {
    hide SameName, PhaseAfter, LockAfter, EntriesAfter, SlotsAfter, CanAct, VersionOf;
    StepGrows(c, s, step);
    if step.Act? {
      EntryAfter(c, s, step.t, step.choice, k);
    }
  }

  /** A task's slot is the one it had, or the one the map holds for its key. */
  lemma SlotAfter(c: Config, s: State, t: nat, choice: Choice)
    requires CanAct(s, t, choice) && SlotOf(PhaseAfter(c, s, t, choice)).Some?
    ensures var key, entries := s.tasks[t].key, EntriesAfter(c, s, t, choice);
      || SlotOf(PhaseAfter(c, s, t, choice)) == SlotOf(s.tasks[t].phase)
      || (key in entries && SlotOf(PhaseAfter(c, s, t, choice)) == Some(entries[key]))
  {
    hide Prunable, VersionOf;
  }

  lemma HitAfter(c: Config, s: State, t: nat, choice: Choice)
    requires CanAct(s, t, choice)
    ensures var p, p' := s.tasks[t].phase, PhaseAfter(c, s, t, choice);
      p'.Done? && p'.hit ==> p.Looking? && p'.result.Some? && s.slots[p.slot].state == Ready(p'.result.value)
  {
    hide Prunable, VersionOf, Kept, Capped;
  }

  lemma ActorStaysFresh(c: Config, s: State, t: nat, choice: Choice, since: nat)
    requires CanAct(s, t, choice) && since <= s.epoch && TaskOk(Next(c, s, Act(t, choice)), t)
    requires SlotOf(s.tasks[t].phase).Some? ==> SlotOk(s, SlotOf(s.tasks[t].phase).value)
    requires s.tasks[t].key in s.entries ==> EntryFresh(s, s.tasks[t].key, since)
    requires s.tasks[t].started >= since && TaskFresh(s, t, since)
    ensures TaskFresh(Next(c, s, Act(t, choice)), t, since)
  {
    hide CanAct, PhaseAfter, LockAfter, EntriesAfter, SlotsAfter;
    var s' := Next(c, s, Act(t, choice));
    StepGrows(c, s, Act(t, choice));
    HitAfter(c, s, t, choice);
    if SlotOf(s'.tasks[t].phase).Some? {
      SlotAfter(c, s, t, choice);
    }
    if s.tasks[t].key in s'.entries {
      EntryStaysFresh(c, s, Act(t, choice), since, s.tasks[t].key);
    }
  }

  lemma OthersStayFresh(c: Config, s: State, step: Step, since: nat, t: nat)
    requires Enabled(s, step) && !(step.Act? && step.t == t)
    requires t < |Next(c, s, step).tasks|
    requires t < |s.tasks| ==> TaskFresh(s, t, since)
    ensures TaskFresh(Next(c, s, step), t, since)
  {
    hide PhaseAfter, LockAfter, EntriesAfter, Retain, VersionOf, SlotsAfter;
    StepGrows(c, s, step);
  }

  lemma FreshKeeps(c: Config, s: State, step: Step, name: string, since: nat)
    requires Inv(c, s) && Enabled(s, step) && Fresh(s, name, since) && since <= s.epoch
    ensures Fresh(Next(c, s, step), name, since)
  {
    hide Inv, SameName, TaskFresh, EntryFresh, PhaseAfter, EntriesAfter, LockAfter, SlotsAfter, TaskOk, SlotOk;
    var s' := Next(c, s, step);
    StepGrows(c, s, step);
    forall t | 0 <= t < |s'.tasks| && s'.tasks[t].started >= since && SameName(s'.tasks[t].key.name, name)
      ensures TaskFresh(s', t, since)
    {
      if step.Act? && step.t == t {
        StepKeeps(c, s, step);
        TaskIn(c, s', t);
        TaskIn(c, s, t);
        if SlotOf(s.tasks[t].phase).Some? {
          SlotIn(c, s, SlotOf(s.tasks[t].phase).value);
        }
        ActorStaysFresh(c, s, t, step.choice, since);
      } else {
        OthersStayFresh(c, s, step, since, t);
      }
    }
    forall k | k in s'.entries && SameName(k.name, name) ensures EntryFresh(s', k, since) {
      EntryStaysFresh(c, s, step, since, k);
    }
  }

  lemma {:induction false} FreshFrom(c: Config, run: seq<State>, steps: seq<Step>, name: string, b: nat, m: nat)
    requires IsRun(c, run, steps) && b < m < |run| && Invalidates(run[b], steps[b], name)
    ensures Fresh(run[m], name, b + 1)
  {
    hide Inv, Enabled, Next, Fresh, Invalidates;
    RunKeeps(c, run, steps, m - 1);
    if m == b + 1 {
      InvalidationFreshens(c, run[b], steps[b], name);
    } else {
      FreshFrom(c, run, steps, name, b, m - 1);
      FreshKeeps(c, run[m - 1], steps[m - 1], name, b + 1);
    }
  }

  /** A call keeps the key it was made with and the step it was made at. */
  lemma {:induction false} CallKept(c: Config, run: seq<State>, steps: seq<Step>, d: nat, m: nat)
    requires IsRun(c, run, steps) && d < m < |run| && steps[d].Call?
    ensures var t := |run[d].tasks|;
      t < |run[m].tasks| && run[m].tasks[t].key == steps[d].key && run[m].tasks[t].started == d
  {
    hide Inv;
    RunKeeps(c, run, steps, d);
    if m > d + 1 {
      hide Enabled, Next;
      CallKept(c, run, steps, d, m - 1);
      StepGrows(c, run[m - 1], steps[m - 1]);
    }
  }

  /** A call made after a name was invalidated returns no snapshot whose load began before that, under any casing of
      the name and for any principal, whatever loads were under way. */
  lemma InvalidationIsFinal(c: Config, run: seq<State>, steps: seq<Step>, name: string, b: nat, d: nat, m: nat)
    requires IsRun(c, run, steps) && b < d < m < |run|
    requires Invalidates(run[b], steps[b], name)
    requires steps[d].Call? && SameName(steps[d].key.name, name)
    ensures var t := |run[d].tasks|;
      && t < |run[m].tasks|
      && (run[m].tasks[t].phase.Done? && run[m].tasks[t].phase.result.Some? ==>
            run[m].tasks[t].phase.result.value.began > b)
  {
    hide Enabled, Next, Invalidates, SameName;
    FreshFrom(c, run, steps, name, b, m);
    CallKept(c, run, steps, d, m);
    assert TaskFresh(run[m], |run[d].tasks|, b + 1);
  }

  // ----- where snapshots come from -----

  function HeldBy(p: Phase): Option<Snapshot> {
    match p
    case Settling(_, loaded, _) => loaded
    case Storing(_, loaded, _) => loaded
    case Removing(_, loaded) => loaded
    case Notifying(_, loaded) => loaded
    case Done(result, _, _) => result
    case _ => None
  }

  predicate InTask(s: State, t: nat, x: Snapshot) { t < |s.tasks| && HeldBy(s.tasks[t].phase) == Some(x) }

  predicate InSlot(s: State, i: nat, x: Snapshot) { i < |s.slots| && s.slots[i].state == Ready(x) }

  /** Some slot or some call has the snapshot. */
  ghost predicate HeldIn(s: State, x: Snapshot) { (exists t :: InTask(s, t, x)) || (exists i :: InSlot(s, i, x)) }

  /** The call's loader has read the version that the snapshot carries. */
  predicate JustLoaded(s: State, t: nat, x: Snapshot) {
    && t < |s.tasks| && s.tasks[t].phase.Fetching? && s.tasks[t].key == x.key
    && s.tasks[t].phase.began == x.began && s.tasks[t].phase.seen == Some(x.version)
  }

  lemma TaskProvenance(c: Config, s: State, t: nat, choice: Choice)
    requires CanAct(s, t, choice) && HeldBy(PhaseAfter(c, s, t, choice)).Some?
    ensures var x := HeldBy(PhaseAfter(c, s, t, choice)).value;
      || InTask(s, t, x) || JustLoaded(s, t, x)
      || (s.tasks[t].phase.Looking? && InSlot(s, s.tasks[t].phase.slot, x))
  {
    hide Prunable, VersionOf, Kept, CheckedDeadline;
  }

  lemma SlotProvenance(c: Config, s: State, t: nat, choice: Choice, i: nat, x: Snapshot)
    requires CanAct(s, t, choice) && i < |SlotsAfter(c, s, t, choice)|
    requires SlotsAfter(c, s, t, choice)[i].state == Ready(x)
    ensures InSlot(s, i, x) || InTask(s, t, x)
  {
    hide Prunable, VersionOf, Kept, CheckedDeadline, PhaseAfter;
  }

  lemma Provenance(c: Config, s: State, step: Step, x: Snapshot)
    requires Enabled(s, step) && HeldIn(Next(c, s, step), x)
    ensures HeldIn(s, x) || (step.Act? && JustLoaded(s, step.t, x))
  {
    hide PhaseAfter, LockAfter, EntriesAfter, SlotsAfter, Retain, VersionOf, JustLoaded;
    var s' := Next(c, s, step);
    if t: nat :| InTask(s', t, x) {
      if step.Act? && step.t == t {
        TaskProvenance(c, s, t, step.choice);
      } else {
        assert InTask(s, t, x);
      }
    } else {
      var i: nat :| InSlot(s', i, x);
      if step.Act? {
        SlotProvenance(c, s, step.t, step.choice, i, x);
      } else {
        assert InSlot(s, i, x);
      }
    }
  }

  /** The step at which a call starts its loader: bypassing the cache, or having claimed a slot. */
  predicate StartsLoad(c: Config, s: State, step: Step, t: nat) {
    && step.Act? && step.t == t && CanAct(s, t, step.choice)
    && !s.tasks[t].phase.Fetching? && PhaseAfter(c, s, t, step.choice).Fetching?
  }

  lemma FetchingAfter(c: Config, s: State, t: nat, choice: Choice)
    requires CanAct(s, t, choice) && PhaseAfter(c, s, t, choice).Fetching?
    ensures PhaseAfter(c, s, t, choice).began
      == if s.tasks[t].phase.Fetching? then s.tasks[t].phase.began else s.epoch
  {
    hide Prunable, VersionOf, Kept, CheckedDeadline;
  }

  /** `began` is the step at which the running load was started, by this very call. */
  lemma {:induction false} LoadBegan(c: Config, run: seq<State>, steps: seq<Step>, m: nat, t: nat)
    requires IsRun(c, run, steps) && m < |run| && t < |run[m].tasks| && run[m].tasks[t].phase.Fetching?
    ensures var began := run[m].tasks[t].phase.began; began < m && StartsLoad(c, run[began], steps[began], t)
  {
    hide Inv, PhaseAfter, LockAfter, EntriesAfter, SlotsAfter, Retain, VersionOf, CanAct;
    var s, step := run[m - 1], steps[m - 1];
    assert Enabled(s, step) && run[m] == Next(c, s, step);
    RunKeeps(c, run, steps, m - 1);
    if step.Act? && step.t == t {
      CanActHas(s, t, step.choice);
      FetchingAfter(c, s, t, step.choice);
      if s.tasks[t].phase.Fetching? {
        LoadBegan(c, run, steps, m - 1, t);
      }
    } else {
      assert t < |s.tasks| && s.tasks[t] == run[m].tasks[t] by { Unmoved(c, s, step, t); }
      LoadBegan(c, run, steps, m - 1, t);
    }
  }

  lemma Unmoved(c: Config, s: State, step: Step, t: nat)
    requires Enabled(s, step) && !(step.Act? && step.t == t) && t < |Next(c, s, step).tasks|
    ensures t < |s.tasks| ==> Next(c, s, step).tasks[t] == s.tasks[t]
    ensures t >= |s.tasks| ==> Next(c, s, step).tasks[t].phase == Start
  {
    hide PhaseAfter, LockAfter, EntriesAfter, SlotsAfter, Retain, VersionOf;
  }

  /** A snapshot anyone holds comes from a load that some call for its key started at the step it names. */
  lemma {:induction false} SnapshotOrigin(c: Config, run: seq<State>, steps: seq<Step>, m: nat, x: Snapshot)
      returns (t: nat)
    requires IsRun(c, run, steps) && m < |run| && HeldIn(run[m], x)
    ensures x.began < m && StartsLoad(c, run[x.began], steps[x.began], t)
    ensures t < |run[m].tasks| && run[m].tasks[t].key == x.key
  {
    if m > 0 {
      hide Inv, Next, HeldIn, StartsLoad;
      assert Enabled(run[m - 1], steps[m - 1]);
      Provenance(c, run[m - 1], steps[m - 1], x);
      StepGrows(c, run[m - 1], steps[m - 1]);
      if HeldIn(run[m - 1], x) {
        t := SnapshotOrigin(c, run, steps, m - 1, x);
      } else {
        t := steps[m - 1].t;
        LoadBegan(c, run, steps, m - 1, t);
      }
    }
  }

  // ----- versions -----

  predicate SnapshotSees(x: Snapshot, name: string, version: nat, since: nat) {
    x.began >= since && SameName(x.key.name, name) ==> x.version >= version
  }

  predicate LoaderSees(task: Task, name: string, version: nat, since: nat) {
    task.phase.Fetching? && task.phase.seen.Some? && task.phase.began >= since && SameName(task.key.name, name) ==>
      task.phase.seen.value >= version
  }

  /** Every load of the table that began at `since` or later sees at least this version. */
  ghost predicate Sees(s: State, name: string, version: nat, since: nat) {
    && VersionOf(s, name) >= version
    && (forall x | HeldIn(s, x) :: SnapshotSees(x, name, version, since))
    && (forall t | 0 <= t < |s.tasks| :: LoaderSees(s.tasks[t], name, version, since))
  }

  ghost predicate Past(s: State) { forall x | HeldIn(s, x) :: x.began < s.epoch }

  lemma PastKeeps(c: Config, s: State, step: Step)
    requires Inv(c, s) && Enabled(s, step) && Past(s)
    ensures Past(Next(c, s, step))
  {
    hide Inv, Enabled, HeldIn;
    var s' := Next(c, s, step);
    assert s'.epoch == s.epoch + 1 by { StepGrows(c, s, step); }
    hide Next;
    forall x | HeldIn(s', x) ensures x.began < s'.epoch {
      Provenance(c, s, step, x);
      if !HeldIn(s, x) {
        TaskIn(c, s, step.t);
      }
    }
  }

  lemma {:induction false} RunPast(c: Config, run: seq<State>, steps: seq<Step>, m: nat)
    requires IsRun(c, run, steps) && m < |run|
    ensures Past(run[m])
  {
    if m > 0 {
      hide Inv, Enabled, Next, Past;
      RunPast(c, run, steps, m - 1);
      RunKeeps(c, run, steps, m - 1);
      PastKeeps(c, run[m - 1], steps[m - 1]);
    }
  }

  lemma LoaderSeesNext(c: Config, s: State, step: Step, name: string, version: nat, since: nat, t: nat)
    requires Enabled(s, step) && t < |Next(c, s, step).tasks| && VersionOf(s, name) >= version
    requires t < |s.tasks| ==> LoaderSees(s.tasks[t], name, version, since)
    ensures LoaderSees(Next(c, s, step).tasks[t], name, version, since)
  {
    hide Prunable, Kept, CheckedDeadline, LockAfter, EntriesAfter, SlotsAfter, Retain, Fold;
  }

  lemma VersionsGrow(c: Config, s: State, step: Step, name: string)
    requires Enabled(s, step)
    ensures VersionOf(Next(c, s, step), name) >= VersionOf(s, name)
  {
    hide PhaseAfter, LockAfter, EntriesAfter, SlotsAfter, CanAct, Retain, Fold;
  }

  lemma SeesKeeps(c: Config, s: State, step: Step, name: string, version: nat, since: nat)
    requires Enabled(s, step) && Sees(s, name, version, since)
    ensures Sees(Next(c, s, step), name, version, since)
  {
    hide Next, HeldIn, VersionOf, SameName, Enabled;
    var s' := Next(c, s, step);
    VersionsGrow(c, s, step, name);
    forall x | HeldIn(s', x) ensures SnapshotSees(x, name, version, since) {
      Provenance(c, s, step, x);
      if !HeldIn(s, x) {
        assert LoaderSees(s.tasks[step.t], name, version, since);
      }
    }
    forall t | 0 <= t < |s'.tasks| ensures LoaderSees(s'.tasks[t], name, version, since) {
      LoaderSeesNext(c, s, step, name, version, since, t);
    }
  }

  lemma CommitSeen(c: Config, s: State, w: nat)
    requires Inv(c, s) && Past(s) && Enabled(s, Commit(w))
    ensures Sees(Next(c, s, Commit(w)), s.writers[w].name, VersionOf(s, s.writers[w].name) + 1, s.epoch + 1)
  {
    hide Inv, HeldIn, SameName, Past;
    var s' := Next(c, s, Commit(w));
    forall x | HeldIn(s', x) ensures x.began <= s.epoch {
      Provenance(c, s, Commit(w), x);
      assert x.began < s.epoch by { OnePast(s, x); }
    }
    forall t | 0 <= t < |s'.tasks| && s'.tasks[t].phase.Fetching? ensures s'.tasks[t].phase.began <= s.epoch {
      TaskIn(c, s, t);
    }
  }

  lemma OnePast(s: State, x: Snapshot)
    requires Past(s) && HeldIn(s, x)
    ensures x.began < s.epoch
  {
  }

  lemma {:induction false} SeenFrom(c: Config, run: seq<State>, steps: seq<Step>, a: nat, m: nat)
    requires IsRun(c, run, steps) && a < m < |run| && steps[a].Commit?
    ensures steps[a].w < |run[a].writers|
    ensures var name := run[a].writers[steps[a].w].name; Sees(run[m], name, VersionOf(run[a], name) + 1, a + 1)
  {
    hide Inv, Next, Sees, Past, VersionOf;
    RunKeeps(c, run, steps, a);
    RunPast(c, run, steps, a);
    assert Enabled(run[a], steps[a]);
    if m == a + 1 {
      CommitSeen(c, run[a], steps[a].w);
    } else {
      SeenFrom(c, run, steps, a, m - 1);
      var name := run[a].writers[steps[a].w].name;
      SeesKeeps(c, run[m - 1], steps[m - 1], name, VersionOf(run[a], name) + 1, a + 1);
    }
  }

  /** A writer that has committed did so at some step, and carries the version it committed. */
  lemma {:induction false} CommitBefore(c: Config, run: seq<State>, steps: seq<Step>, w: nat, b: nat) returns (a: nat)
    requires IsRun(c, run, steps) && b < |run| && w < |run[b].writers| && run[b].writers[w].Committed?
    ensures a < b && steps[a] == Commit(w) && w < |run[a].writers|
    ensures run[a].writers[w].name == run[b].writers[w].name
    ensures VersionOf(run[a], run[a].writers[w].name) + 1 == run[b].writers[w].version
  {
    hide PhaseAfter, LockAfter, EntriesAfter, SlotsAfter, CanAct, Retain, VersionOf;
    var s, step := run[b - 1], steps[b - 1];
    assert Enabled(s, step) && run[b] == Next(c, s, step);
    if step == Commit(w) {
      a := b - 1;
    } else {
      a := CommitBefore(c, run, steps, w, b - 1);
    }
  }

  /** Read your writes: a call made after a CTAS returned successfully, by any principal and under any casing of the
      name, sees a Delta version at least the one committed, whatever loads were in flight during the write. */
  lemma ReadYourWrites(c: Config, run: seq<State>, steps: seq<Step>, w: nat, b: nat, d: nat, m: nat)
    requires IsRun(c, run, steps) && b < d < m < |run|
    requires steps[b] == Return(w) && w < |run[b].writers| && run[b].writers[w].Committed?
    requires steps[d].Call? && SameName(steps[d].key.name, run[b].writers[w].name)
    ensures var t := |run[d].tasks|;
      && t < |run[m].tasks|
      && (run[m].tasks[t].phase.Done? && run[m].tasks[t].phase.result.Some? ==>
            run[m].tasks[t].phase.result.value.version >= run[b].writers[w].version)
  {
    hide Enabled, Next, Inv, VersionOf, SameName;
    var name := run[b].writers[w].name;
    var a := CommitBefore(c, run, steps, w, b);
    InvalidationIsFinal(c, run, steps, name, b, d, m);
    SeenFrom(c, run, steps, a, m);
    CallKept(c, run, steps, d, m);
    RunKeeps(c, run, steps, m);
    var t := |run[d].tasks|;
    TaskIn(c, run[m], t);
    if run[m].tasks[t].phase.Done? && run[m].tasks[t].phase.result.Some? {
      var x := run[m].tasks[t].phase.result.value;
      assert InTask(run[m], t, x);
      assert SnapshotSees(x, name, run[b].writers[w].version, a + 1);
    }
  }
}
