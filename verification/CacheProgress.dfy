/** The table cache's exclusivity, bounds and progress, in every reachable state. */
module CacheProgress {
  import opened Ascii
  import opened Wrappers
  import opened CacheProtocol
  import opened CacheRuns

  /** A loading slot has exactly one loader, and a slot that is not loading has none. */
  lemma OneLoader(c: Config, run: seq<State>, steps: seq<Step>, m: nat, i: nat)
    requires IsRun(c, run, steps) && m < |run| && i < |run[m].slots|
    ensures var s := run[m];
      && (s.slots[i].state.Loading? <==> exists t | 0 <= t < |s.tasks| :: Owns(s.tasks[t].phase, i))
      && (forall t, u | 0 <= t < |s.tasks| && 0 <= u < |s.tasks| ::
           Owns(s.tasks[t].phase, i) && Owns(s.tasks[u].phase, i) ==> t == u)
  {
    hide Inv;
    var s := run[m];
    RunKeeps(c, run, steps, m);
    SlotIn(c, s, i);
    if s.slots[i].state.Loading? {
      assert Owns(s.tasks[s.slots[i].state.owner].phase, i);
    }
    forall t | 0 <= t < |s.tasks| && Owns(s.tasks[t].phase, i) ensures s.slots[i].state == Loading(t) {
      TaskIn(c, s, t);
    }
  }

  /** No lost wake-up: a parked call has already been notified, or the load it waits for has a call on it that
      has still to notify the slot's waiters. */
  lemma NoLostWakeup(c: Config, run: seq<State>, steps: seq<Step>, m: nat, t: nat)
    requires IsRun(c, run, steps) && m < |run| && t < |run[m].tasks| && run[m].tasks[t].phase.Parked?
    ensures var s, p := run[m], run[m].tasks[t].phase;
      || CanAct(s, t, Proceed)
      || (p.awaiting < |s.tasks| && WillNotify(s.tasks[p.awaiting].phase, p.slot))
  {
    hide Inv;
    RunKeeps(c, run, steps, m);
    TaskIn(c, run[m], t);
  }

  /** How many steps of its own a call is from notifying. */
  function ToNotify(p: Phase): nat {
    match p
    case Fetching(_, _, seen) => if seen.None? then 6 else 5
    case Settling(_, _, _) => 4
    case Storing(_, _, _) => 3
    case Removing(_, _) => 2
    case Notifying(_, _) => 1
    case _ => 0
  }

  /** Each step of that call brings it nearer, no other step moves it back, and its last one is the notification. */
  lemma NotifierMovesOn(c: Config, s: State, step: Step, t: nat, slot: nat)
    requires Enabled(s, step) && Has(s, t) && WillNotify(s.tasks[t].phase, slot)
    ensures var s' := Next(c, s, step);
      && (if step.Act? && step.t == t then ToNotify(s'.tasks[t].phase) < ToNotify(s.tasks[t].phase)
          else s'.tasks[t].phase == s.tasks[t].phase)
      && (WillNotify(s'.tasks[t].phase, slot) || s'.slots[slot].wakes == s.slots[slot].wakes + 1)
  {
    hide Prunable, VersionOf, Kept, CheckedDeadline, LockAfter, EntriesAfter, Retain;
  }

  // ----- no deadlock -----

  /** What a call waits for: the lock on the map, the lock on a slot, or a notification that it has not had yet. */
  predicate WaitsFor(s: State, t: nat, u: nat) {
    && Has(s, t)
    && match s.tasks[t].phase
       case Queued(_) => s.lock == Some(u)
       case Removing(_, _) => s.lock == Some(u)
       case Listening(slot, _) => s.slots[slot].guard == Some(u)
       case Settling(slot, _, _) => s.slots[slot].guard == Some(u)
       case Scanning(_, unchecked, _, None) =>
         exists k | k in unchecked ::
           k in s.entries && s.entries[k] < |s.slots| && s.slots[s.entries[k]].guard == Some(u)
       case Parked(slot, ticket, awaiting) => s.slots[slot].wakes <= ticket && awaiting == u
       case _ => false
  }

  /** How far the call can be from one that waits for nothing: no call waits for one of its own rank or above. */
  function WaitRank(p: Phase): nat {
    match p
    case Parked(_, _, _) => 3
    case Queued(_) => 2
    case Removing(_, _) => 2
    case Scanning(_, _, _, None) => 1
    case Listening(_, _) => 1
    case Settling(_, _, _) => 1
    case _ => 0
  }

  /** The order in which locks are taken is never reversed: whoever holds up a call is nearer to moving on. */
  lemma WaitDescends(c: Config, s: State, t: nat, u: nat)
    requires Inv(c, s) && t < |s.tasks| && WaitsFor(s, t, u)
    ensures u < |s.tasks| && WaitRank(s.tasks[u].phase) < WaitRank(s.tasks[t].phase) && !s.tasks[u].phase.Done?
  {
    hide Inv, TaskOk, SlotOk;
    var p := s.tasks[t].phase;
    if p.Queued? || p.Removing? {
      HolderScans(c, s);
    } else if p.Parked? {
      AwaitedNotifies(c, s, t);
    } else if p.Listening? || p.Settling? {
      GuardIn(c, s, p.slot);
    } else {
      var k :| k in p.unchecked && k in s.entries && s.entries[k] < |s.slots| && s.slots[s.entries[k]].guard == Some(u);
      GuardIn(c, s, s.entries[k]);
    }
  }

  lemma HolderScans(c: Config, s: State)
    requires Inv(c, s) && s.lock.Some?
    ensures s.lock.value < |s.tasks| && s.tasks[s.lock.value].phase.Scanning?
  {
  }

  lemma AwaitedNotifies(c: Config, s: State, t: nat)
    requires Inv(c, s) && Has(s, t) && s.tasks[t].phase.Parked?
    requires s.slots[s.tasks[t].phase.slot].wakes <= s.tasks[t].phase.ticket
    ensures var p := s.tasks[t].phase; p.awaiting < |s.tasks| && WillNotify(s.tasks[p.awaiting].phase, p.slot)
  {
    assert TaskOk(s, t);
  }

  lemma GuardIn(c: Config, s: State, i: nat)
    requires Inv(c, s) && i < |s.slots| && s.slots[i].guard.Some?
    ensures var u := s.slots[i].guard.value; u < |s.tasks| && GuardedBy(s.tasks[u].phase) == Some(i)
  {
    assert SlotOk(s, i);
  }

  /** A call that can make no step of its own waits for another. */
  lemma MovesOrWaits(c: Config, s: State, t: nat) returns (choice: Choice, blocker: Option<nat>)
    requires Inv(c, s) && t < |s.tasks| && !s.tasks[t].phase.Done?
    ensures if blocker.Some? then WaitsFor(s, t, blocker.value) else CanAct(s, t, choice)
  {
    hide Inv, SlotOk, PhaseOk;
    TaskIn(c, s, t);
    choice, blocker := Proceed, None;
    match s.tasks[t].phase {
      case Queued(_) => blocker := s.lock;
      case Removing(_, _) => blocker := s.lock;
      case Listening(slot, _) => blocker := s.slots[slot].guard;
      case Settling(slot, _, _) => blocker := s.slots[slot].guard;
      case Parked(slot, ticket, awaiting) =>
        if s.slots[slot].wakes <= ticket {
          blocker := Some(awaiting);
        }
      case Fetching(_, _, seen) => choice := if seen.None? then Proceed else LoaderReturns(None);
      case Scanning(_, unchecked, _, None) =>
        if k :| k in unchecked {
          ScanStep(c, s, t, k);
          choice, blocker := InspectKey(k), s.slots[s.entries[k]].guard;
        }
      case _ =>
    }
  }

  lemma ScanStep(c: Config, s: State, t: nat, k: Key)
    requires Inv(c, s) && t < |s.tasks| && s.tasks[t].phase.Scanning? && k in s.tasks[t].phase.unchecked
    ensures k in s.entries && s.entries[k] < |s.slots|
  {
    assert TaskOk(s, t);
    assert k in s.entries && EntryOk(s, k);
  }

  /** Each call of the path waits for the next. */
  ghost predicate WaitPath(s: State, path: seq<nat>) {
    && path != [] && (forall i | 0 <= i < |path| :: path[i] < |s.tasks|)
    && forall i | 0 < i < |path| :: WaitsFor(s, path[i - 1], path[i])
  }

  lemma {:induction false} WaitsEnd(c: Config, s: State, t: nat) returns (path: seq<nat>, choice: Choice)
    requires Inv(c, s) && t < |s.tasks| && !s.tasks[t].phase.Done?
    ensures WaitPath(s, path) && path[0] == t && |path| <= WaitRank(s.tasks[t].phase) + 1
    ensures CanAct(s, path[|path| - 1], choice)
    decreases WaitRank(s.tasks[t].phase)
  {
    hide Inv, CanAct, WaitsFor, WaitRank;
    var blocker;
    choice, blocker := MovesOrWaits(c, s, t);
    if blocker.None? {
      path := [t];
    } else {
      WaitDescends(c, s, t, blocker.value);
      var rest;
      rest, choice := WaitsEnd(c, s, blocker.value);
      path := [t] + rest;
    }
  }

  /** No deadlock: whatever locks are held and whatever an unfinished call waits for, following what each waits for
      leads in at most three steps to a call that can move. */
  lemma NoDeadlock(c: Config, run: seq<State>, steps: seq<Step>, m: nat, t: nat)
      returns (path: seq<nat>, choice: Choice)
    requires IsRun(c, run, steps) && m < |run| && t < |run[m].tasks| && !run[m].tasks[t].phase.Done?
    ensures WaitPath(run[m], path) && path[0] == t && |path| <= 4
    ensures CanAct(run[m], path[|path| - 1], choice)
  {
    hide Inv, WaitPath, CanAct;
    RunKeeps(c, run, steps, m);
    path, choice := WaitsEnd(c, run[m], t);
  }

  /** The map never outgrows its limit, and always sends a key to a slot of that key. */
  lemma MapBounded(c: Config, run: seq<State>, steps: seq<Step>, m: nat)
    requires IsRun(c, run, steps) && m < |run|
    ensures |run[m].entries| <= c.maxEntries
    ensures var s := run[m];
      forall k | k in s.entries :: s.entries[k] < |s.slots| && s.slots[s.entries[k]].key == k
  {
    RunKeeps(c, run, steps, m);
  }

  /** Principals, names and regions never share: a call ends with a snapshot loaded under its own key. */
  lemma OwnKeyOnly(c: Config, run: seq<State>, steps: seq<Step>, m: nat, t: nat)
    requires IsRun(c, run, steps) && m < |run| && t < |run[m].tasks|
    requires run[m].tasks[t].phase.Done? && run[m].tasks[t].phase.result.Some?
    ensures run[m].tasks[t].phase.result.value.key == run[m].tasks[t].key
  {
    hide Inv;
    RunKeeps(c, run, steps, m);
    TaskIn(c, run[m], t);
  }

  // ----- the age of a hit -----

  predicate Young(c: Config, x: Snapshot) { x.expiresAt <= x.loadedAt + c.ttl }

  predicate YoungTask(c: Config, p: Phase, now: nat) {
    match p
    case Settling(_, Some(x), _) => Young(c, x) && x.loadedAt <= now
    case Storing(_, Some(x), _) => Young(c, x) && x.loadedAt <= now
    case Done(Some(x), true, at) => Young(c, x) && x.loadedAt <= at < x.expiresAt
    case _ => true
  }

  predicate YoungSlot(c: Config, state: EntryState, now: nat) {
    state.Ready? ==> Young(c, state.cached) && state.cached.loadedAt <= now
  }

  ghost predicate AllYoung(c: Config, s: State) {
    && (forall t | 0 <= t < |s.tasks| :: YoungTask(c, s.tasks[t].phase, s.now))
    && (forall i | 0 <= i < |s.slots| :: YoungSlot(c, s.slots[i].state, s.now))
  }

  lemma YoungAfter(c: Config, s: State, t: nat, choice: Choice)
    requires CanAct(s, t, choice) && YoungTask(c, s.tasks[t].phase, s.now)
    requires s.tasks[t].phase.Looking? ==> YoungSlot(c, s.slots[s.tasks[t].phase.slot].state, s.now)
    ensures YoungTask(c, PhaseAfter(c, s, t, choice), s.now)
  {
    hide Prunable, VersionOf, Kept;
  }

  lemma YoungSlotAfter(c: Config, s: State, t: nat, choice: Choice, i: nat)
    requires CanAct(s, t, choice) && YoungTask(c, s.tasks[t].phase, s.now)
    requires i < |s.slots| ==> YoungSlot(c, s.slots[i].state, s.now)
    requires i < |SlotsAfter(c, s, t, choice)|
    ensures YoungSlot(c, SlotsAfter(c, s, t, choice)[i].state, s.now)
  {
    hide Prunable, VersionOf, Kept, Capped, Young;
  }

  lemma YoungKeeps(c: Config, s: State, step: Step)
    requires Enabled(s, step) && AllYoung(c, s)
    ensures AllYoung(c, Next(c, s, step))
  {
    hide PhaseAfter, LockAfter, EntriesAfter, SlotsAfter, CanAct, Retain, VersionOf, Young;
    var s' := Next(c, s, step);
    forall t | 0 <= t < |s'.tasks| ensures YoungTask(c, s'.tasks[t].phase, s'.now) {
      if step.Act? && step.t == t {
        CanActHas(s, t, step.choice);
        YoungAfter(c, s, t, step.choice);
      } else {
        Unmoved(c, s, step, t);
      }
    }
    forall i | 0 <= i < |s'.slots| ensures YoungSlot(c, s'.slots[i].state, s'.now) {
      if step.Act? {
        CanActHas(s, step.t, step.choice);
        YoungSlotAfter(c, s, step.t, step.choice, i);
      }
    }
  }

  /** A hit was not expired when it was handed out, and its load had ended less than the cache's ttl before. */
  lemma {:induction false} RunYoung(c: Config, run: seq<State>, steps: seq<Step>, m: nat)
    requires IsRun(c, run, steps) && m < |run|
    ensures AllYoung(c, run[m])
  {
    if m > 0 {
      hide Enabled, Next, AllYoung;
      RunYoung(c, run, steps, m - 1);
      YoungKeeps(c, run[m - 1], steps[m - 1]);
    }
  }

  lemma HitIsFresh(c: Config, run: seq<State>, steps: seq<Step>, m: nat, t: nat)
    requires IsRun(c, run, steps) && m < |run| && t < |run[m].tasks|
    requires run[m].tasks[t].phase.Done? && run[m].tasks[t].phase.hit
    ensures var p := run[m].tasks[t].phase;
      p.result.Some? && p.result.value.loadedAt <= p.at < p.result.value.expiresAt <= p.result.value.loadedAt + c.ttl
  {
    hide Inv;
    RunKeeps(c, run, steps, m);
    TaskIn(c, run[m], t);
    RunYoung(c, run, steps, m);
    assert YoungTask(c, run[m].tasks[t].phase, run[m].now);
  }

  // ----- why an entry leaves the map -----

  /** At that step the scan looked at the key's slot, and found it empty or expired as of the time it goes by. */
  predicate FoundPrunable(s: State, step: Step, t: nat, k: Key, asOf: nat) {
    && step == Act(t, Proceed) && t < |s.tasks| && k in s.entries && s.entries[k] < |s.slots|
    && s.tasks[t].phase.Scanning? && s.tasks[t].phase.inspected == Some(Spot(k, s.entries[k]))
    && Prunable(s.slots[s.entries[k]].state, asOf)
  }

  lemma ScanningAfter(c: Config, s: State, t: nat, choice: Choice, k: Key)
    requires CanAct(s, t, choice) && PhaseAfter(c, s, t, choice).Scanning? && k in PhaseAfter(c, s, t, choice).expired
    requires TaskOk(s, t)
    ensures s.tasks[t].phase.Scanning? && PhaseAfter(c, s, t, choice).asOf == s.tasks[t].phase.asOf
    ensures k in s.tasks[t].phase.expired || FoundPrunable(s, Act(t, choice), t, k, s.tasks[t].phase.asOf)
  {
    hide Prunable, VersionOf, Kept, CheckedDeadline;
  }

  /** A key that a scan counts as expired was found so when the scan looked at it. */
  lemma {:induction false} ExpiredFound(c: Config, run: seq<State>, steps: seq<Step>, m: nat, t: nat, k: Key)
      returns (i: nat)
    requires IsRun(c, run, steps) && m < |run| && t < |run[m].tasks|
    requires run[m].tasks[t].phase.Scanning? && k in run[m].tasks[t].phase.expired
    ensures i < m && FoundPrunable(run[i], steps[i], t, k, run[m].tasks[t].phase.asOf)
  {
    hide Inv, PhaseAfter, LockAfter, EntriesAfter, SlotsAfter, Retain, VersionOf, CanAct, FoundPrunable;
    var s, step := run[m - 1], steps[m - 1];
    assert Enabled(s, step) && run[m] == Next(c, s, step);
    if step.Act? && step.t == t {
      CanActHas(s, t, step.choice);
      RunKeeps(c, run, steps, m - 1);
      TaskIn(c, s, t);
      ScanningAfter(c, s, t, step.choice, k);
      if k in s.tasks[t].phase.expired {
        i := ExpiredFound(c, run, steps, m - 1, t, k);
      } else {
        i := m - 1;
      }
    } else {
      Unmoved(c, s, step, t);
      i := ExpiredFound(c, run, steps, m - 1, t, k);
    }
  }

  lemma EntryDropped(c: Config, s: State, t: nat, choice: Choice, k: Key)
    requires CanAct(s, t, choice) && k in s.entries && k !in EntriesAfter(c, s, t, choice)
    ensures (s.tasks[t].phase.Scanning? && k in s.tasks[t].phase.expired)
      || (s.tasks[t].phase.Removing? && s.tasks[t].key == k && s.entries[k] == s.tasks[t].phase.slot)
  {
  }

  /** An entry leaves the map only when its name is invalidated, when the call that loaded into its slot removes it, or
      when a scan had found its key's slot empty or expired: a load under way is never pruned on sight. */
  lemma EntryLeavesForReason(c: Config, run: seq<State>, steps: seq<Step>, m: nat, k: Key) returns (i: nat)
    requires IsRun(c, run, steps) && m < |steps| && k in run[m].entries && k !in run[m + 1].entries
    ensures var s, step := run[m], steps[m];
      || (exists name :: Invalidates(s, step, name) && SameName(k.name, name))
      || (step.Act? && step.t < |s.tasks| && s.tasks[step.t].phase.Removing?
          && s.tasks[step.t].phase.slot == s.entries[k])
      || (step.Act? && step.t < |s.tasks| && s.tasks[step.t].phase.Scanning? && i < m
          && FoundPrunable(run[i], steps[i], step.t, k, s.tasks[step.t].phase.asOf))
  {
    hide Inv, PhaseAfter, LockAfter, EntriesAfter, SlotsAfter, VersionOf, CanAct, FoundPrunable, SameName;
    var s, step := run[m], steps[m];
    assert Enabled(s, step) && run[m + 1] == Next(c, s, step);
    i := 0;
    if step.Act? {
      CanActHas(s, step.t, step.choice);
      EntryDropped(c, s, step.t, step.choice, k);
      if s.tasks[step.t].phase.Scanning? {
        i := ExpiredFound(c, run, steps, m, step.t, k);
      }
    } else {
      var name := if step.Invalidate? then step.name else s.writers[step.w].name;
      assert Invalidates(s, step, name) && SameName(k.name, name);
    }
  }
}
