/** The table cache as interleaved atomic steps, one for each lock acquisition, clock reading or wake-up. */
module CacheProtocol {
  import opened Ascii
  import opened MapSizes
  import opened Wrappers

  // ----- the shared state -----

  /** A principal's fingerprint, the table's name as given, and the region. */
  datatype Key = Key(principal: nat, name: string, region: string)

  /** What a load returned: which load it was (the step it began at), the Delta version it saw, and when it ended. */
  datatype Snapshot = Snapshot(key: Key, began: nat, version: nat, loadedAt: nat, expiresAt: nat)

  datatype EntryState = Empty | Loading(owner: nat) | Ready(cached: Snapshot)

  /** A slot remembers the step it was created at, counts the calls of `notify_waiters`, and has its own lock, which the
      call that guards it holds. */
  datatype Slot = Slot(key: Key, created: nat, state: EntryState, wakes: nat, guard: Option<nat>)

  /** The entry that a scan looks at, with its slot locked. */
  datatype Spot = Spot(key: Key, slot: nat)

  /** Where a call of `get_or_load` is: each phase is left by one atomic step. A waiter's ticket is the number of
      notifications there had been when it began to listen. */
  datatype Phase =
    | Start
    | Queued(asOf: nat)
    | Scanning(asOf: nat, unchecked: set<Key>, expired: set<Key>, inspected: Option<Spot>)
    | Entered(slot: nat)
    | Listening(slot: nat, ticket: nat)
    | Looking(slot: nat, ticket: nat)
    | Parked(slot: nat, ticket: nat, awaiting: nat)
    | Fetching(into: Option<nat>, began: nat, seen: Option<nat>)
    | Settling(slot: nat, loaded: Option<Snapshot>, publish: bool)
    | Storing(slot: nat, loaded: Option<Snapshot>, publish: bool)
    | Removing(slot: nat, loaded: Option<Snapshot>)
    | Notifying(slot: nat, loaded: Option<Snapshot>)
    | Done(result: Option<Snapshot>, hit: bool, at: nat)

  datatype Task = Task(key: Key, started: nat, phase: Phase)

  /** One CTAS, as far as the cache sees it: its commit, and the invalidation it cannot return without. */
  datatype Writer =
    | Writing(name: string)
    | Committed(name: string, version: nat)
    | Returned(name: string, committed: Option<nat>)

  datatype Config = Config(maxEntries: nat, ttl: nat, lastInstant: nat)

  /** The lock is the one on the map; each slot has its own besides. */
  datatype State = State(epoch: nat, now: nat, lock: Option<nat>, entries: map<Key, nat>, slots: seq<Slot>,
                         tasks: seq<Task>, writers: seq<Writer>, versions: map<string, nat>)

  function InitialState(): State { State(0, 0, None, map[], [], [], [], map[]) }

  function VersionOf(s: State, name: string): nat {
    if Fold(name) in s.versions then s.versions[Fold(name)] else 0
  }

  // ----- what the cache does to the map and to a snapshot -----

  /** What is left of the map when a name is invalidated, for every principal and region. */
  function Retain<V>(entries: map<Key, V>, name: string): map<Key, V> {
    map k | k in entries && !SameName(k.name, name) :: entries[k]
  }

  predicate Prunable(state: EntryState, now: nat) {
    state.Empty? || (state.Ready? && state.cached.expiresAt <= now)
  }

  /** `checked_deadline`: an instant that cannot be represented falls back to now. */
  function CheckedDeadline(now: nat, duration: nat, lastInstant: nat): nat {
    if now + duration <= lastInstant then now + duration else now
  }

  function Capped(c: Config, loaded: Snapshot, now: nat): Snapshot {
    var cap := CheckedDeadline(now, c.ttl, c.lastInstant);
    if loaded.expiresAt <= cap then loaded else loaded.(expiresAt := cap)
  }

  predicate CacheEnabled(c: Config) { c.maxEntries > 0 && c.ttl > 0 }

  // ----- the steps -----

  /** A task's next step follows from its phase, but for which key a scan inspects next, when a scan is over, and
      when and with what a loader returns: an expiry, or an error. */
  datatype Choice = Proceed | InspectKey(k: Key) | LoaderReturns(expiry: Option<nat>)

  datatype Step =
    | Tick(to: nat)
    | Call(key: Key)
    | Act(t: nat, choice: Choice)
    | Invalidate(name: string)
    | Write(name: string)
    | Commit(w: nat)
    | Return(w: nat)

  function SlotOf(p: Phase): Option<nat> {
    match p
    case Entered(slot) => Some(slot)
    case Listening(slot, _) => Some(slot)
    case Looking(slot, _) => Some(slot)
    case Parked(slot, _, _) => Some(slot)
    case Fetching(into, _, _) => into
    case Settling(slot, _, _) => Some(slot)
    case Storing(slot, _, _) => Some(slot)
    case Removing(slot, _) => Some(slot)
    case Notifying(slot, _) => Some(slot)
    case Start => None
    case Queued(_) => None
    case Scanning(_, _, _, _) => None
    case Done(_, _, _) => None
  }

  /** The slot whose lock a call holds: one that it inspects, looks at or stores into. */
  function GuardedBy(p: Phase): Option<nat> {
    match p
    case Scanning(_, _, _, Some(spot)) => Some(spot.slot)
    case Looking(slot, _) => Some(slot)
    case Storing(slot, _, _) => Some(slot)
    case _ => None
  }

  /** The task exists, and its slots with it. */
  predicate Has(s: State, t: nat) {
    && t < |s.tasks|
    && (SlotOf(s.tasks[t].phase).Some? ==> SlotOf(s.tasks[t].phase).value < |s.slots|)
    && (GuardedBy(s.tasks[t].phase).Some? ==> GuardedBy(s.tasks[t].phase).value < |s.slots|)
  }

  predicate CanInspect(s: State, k: Key) {
    k in s.entries && s.entries[k] < |s.slots| && s.slots[s.entries[k]].guard.None?
  }

  /** A lock is taken only when it is free. */
  predicate CanAct(s: State, t: nat, choice: Choice) {
    Has(s, t) && match s.tasks[t].phase
      case Start => choice.Proceed?
      case Queued(_) => choice.Proceed? && s.lock.None?
      case Scanning(_, unchecked, _, inspected) => (
        match choice
        case Proceed => inspected.Some? || unchecked == {}
        case InspectKey(k) => inspected.None? && k in unchecked && CanInspect(s, k)
        case LoaderReturns(_) => false)
      case Entered(_) => choice.Proceed?
      case Listening(slot, _) => choice.Proceed? && s.slots[slot].guard.None?
      case Looking(_, _) => choice.Proceed?
      case Parked(slot, ticket, _) => choice.Proceed? && s.slots[slot].wakes > ticket
      case Fetching(_, _, seen) => (
        match choice
        case Proceed => seen.None?
        case InspectKey(_) => false
        case LoaderReturns(expiry) => expiry.Some? ==> seen.Some?)
      case Settling(slot, _, _) => choice.Proceed? && s.slots[slot].guard.None?
      case Storing(_, _, _) => choice.Proceed?
      case Removing(_, _) => choice.Proceed? && s.lock.None?
      case Notifying(_, _) => choice.Proceed?
      case Done(_, _, _) => false
  }

  predicate Enabled(s: State, step: Step) {
    match step
    case Tick(to) => s.now <= to
    case Call(_) => true
    case Act(t, choice) => CanAct(s, t, choice)
    case Invalidate(_) => s.lock.None?
    case Write(_) => true
    case Commit(w) => w < |s.writers| && s.writers[w].Writing?
    case Return(w) => w < |s.writers| && !s.writers[w].Returned? && s.lock.None?
  }

  /** The map after the scan: the keys found expired are gone. */
  function Kept(s: State, expired: set<Key>): map<Key, nat> { s.entries - expired }

  /** All keys have been inspected, and the lock on the map is about to be released. */
  predicate EndsScan(p: Phase, choice: Choice) { p.Scanning? && p.inspected.None? && choice.Proceed? }

  predicate Inserts(c: Config, s: State, t: nat, choice: Choice) {
    && t < |s.tasks| && EndsScan(s.tasks[t].phase, choice)
    && s.tasks[t].key !in Kept(s, s.tasks[t].phase.expired)
    && |Kept(s, s.tasks[t].phase.expired)| < c.maxEntries
  }

  /** The end of `slot_for_key`: the key's slot, a load that bypasses the full map, or a new slot. */
  function AfterScan(c: Config, s: State, t: nat): Phase
    requires t < |s.tasks| && s.tasks[t].phase.Scanning?
  {
    var key, kept := s.tasks[t].key, Kept(s, s.tasks[t].phase.expired);
    if key in kept then Entered(kept[key])
    else if |kept| >= c.maxEntries then Fetching(None, s.epoch, None)
    else Entered(|s.slots|)
  }

  /** The match on the slot's state, under its lock. */
  function AfterLook(s: State, t: nat, slot: nat, ticket: nat): Phase
    requires slot < |s.slots|
  {
    match s.slots[slot].state
    case Ready(cached) =>
      if cached.expiresAt > s.now then Done(Some(cached), true, s.now) else Fetching(Some(slot), s.epoch, None)
    case Loading(owner) => Parked(slot, ticket, owner)
    case Empty => Fetching(Some(slot), s.epoch, None)
  }

  /** The loader returned; with a slot, `finish_load` reads the clock and caps the expiry. */
  function AfterLoad(c: Config, s: State, into: Option<nat>, loaded: Option<Snapshot>): Phase {
    match (into, loaded)
    case (None, _) => Done(loaded, false, s.now)
    case (Some(slot), None) => Settling(slot, None, false)
    case (Some(slot), Some(snapshot)) =>
      var capped := Capped(c, snapshot, s.now);
      Settling(slot, Some(capped), capped.expiresAt > s.now)
  }

  function PhaseAfter(c: Config, s: State, t: nat, choice: Choice): Phase
    requires CanAct(s, t, choice)
  {
    match s.tasks[t].phase
    case Start => if CacheEnabled(c) then Queued(s.now) else Fetching(None, s.epoch, None)
    case Queued(asOf) => Scanning(asOf, s.entries.Keys, {}, None)
    case Scanning(asOf, unchecked, expired, Some(spot)) =>
      Scanning(asOf, unchecked - {spot.key},
               if Prunable(s.slots[spot.slot].state, asOf) then expired + {spot.key} else expired, None)
    case Scanning(asOf, unchecked, expired, None) => (
      match choice
      case InspectKey(k) => Scanning(asOf, unchecked, expired, Some(Spot(k, s.entries[k])))
      case _ => AfterScan(c, s, t))
    case Entered(slot) => Listening(slot, s.slots[slot].wakes)
    case Listening(slot, ticket) => Looking(slot, ticket)
    case Looking(slot, ticket) => AfterLook(s, t, slot, ticket)
    case Parked(_, _, _) => Start
    case Fetching(into, began, seen) => (
      match choice
      case LoaderReturns(None) => AfterLoad(c, s, into, None)
      case LoaderReturns(Some(expiry)) =>
        AfterLoad(c, s, into, Some(Snapshot(s.tasks[t].key, began, seen.value, s.now, expiry)))
      case _ => Fetching(into, began, Some(VersionOf(s, s.tasks[t].key.name))))
    case Settling(slot, loaded, publish) => Storing(slot, loaded, publish)
    case Storing(slot, loaded, publish) => if publish then Notifying(slot, loaded) else Removing(slot, loaded)
    case Removing(slot, loaded) => Notifying(slot, loaded)
    case Notifying(_, loaded) => Done(loaded, false, s.now)
    case Done(_, _, _) => Start
  }

  function LockAfter(s: State, t: nat, choice: Choice): Option<nat>
    requires t < |s.tasks|
  {
    match s.tasks[t].phase
    case Queued(_) => Some(t)
    case Scanning(_, _, _, _) => if EndsScan(s.tasks[t].phase, choice) then None else s.lock
    case _ => s.lock
  }

  function EntriesAfter(c: Config, s: State, t: nat, choice: Choice): map<Key, nat>
    requires t < |s.tasks|
  {
    var key := s.tasks[t].key;
    match s.tasks[t].phase
    case Scanning(_, _, expired, _) =>
      if !EndsScan(s.tasks[t].phase, choice) then s.entries
      else if Inserts(c, s, t, choice) then Kept(s, expired)[key := |s.slots|]
      else Kept(s, expired)
    // only if the map still holds this very slot
    case Removing(slot, _) => if key in s.entries && s.entries[key] == slot then s.entries - {key} else s.entries
    case _ => s.entries
  }

  function Locked(slot: Slot, t: nat): Slot { Slot(slot.key, slot.created, slot.state, slot.wakes, Some(t)) }

  function Unlocked(slot: Slot, state: EntryState): Slot { Slot(slot.key, slot.created, state, slot.wakes, None) }

  function Notified(slot: Slot): Slot { Slot(slot.key, slot.created, slot.state, slot.wakes + 1, slot.guard) }

  /** The one slot a step locks, unlocks or notifies, and what it becomes. */
  function ChangedSlot(c: Config, s: State, t: nat, choice: Choice): Option<(nat, Slot)>
    requires CanAct(s, t, choice)
  {
    match s.tasks[t].phase
    case Scanning(_, _, _, Some(spot)) => Some((spot.slot, Unlocked(s.slots[spot.slot], s.slots[spot.slot].state)))
    case Scanning(_, _, _, None) =>
      if choice.InspectKey? then Some((s.entries[choice.k], Locked(s.slots[s.entries[choice.k]], t))) else None
    case Listening(slot, _) => Some((slot, Locked(s.slots[slot], t)))
    case Looking(slot, ticket) =>
      var state := if AfterLook(s, t, slot, ticket).Fetching? then Loading(t) else s.slots[slot].state;
      Some((slot, Unlocked(s.slots[slot], state)))
    case Settling(slot, _, _) => Some((slot, Locked(s.slots[slot], t)))
    case Storing(slot, loaded, publish) =>
      Some((slot, Unlocked(s.slots[slot], if publish && loaded.Some? then Ready(loaded.value) else Empty)))
    case Notifying(slot, _) => Some((slot, Notified(s.slots[slot])))
    case _ => None
  }

  function SlotsAfter(c: Config, s: State, t: nat, choice: Choice): seq<Slot>
    requires CanAct(s, t, choice)
  {
    match ChangedSlot(c, s, t, choice)
    case Some((i, slot)) => s.slots[i := slot]
    case None => if Inserts(c, s, t, choice) then s.slots + [Slot(s.tasks[t].key, s.epoch, Empty, 0, None)] else s.slots
  }

  function Next(c: Config, s: State, step: Step): State
    requires Enabled(s, step)
  {
    match step
    case Tick(to) => State(s.epoch + 1, to, s.lock, s.entries, s.slots, s.tasks, s.writers, s.versions)
    case Call(key) =>
      State(s.epoch + 1, s.now, s.lock, s.entries, s.slots, s.tasks + [Task(key, s.epoch, Start)], s.writers,
            s.versions)
    case Act(t, choice) =>
      var task := Task(s.tasks[t].key, s.tasks[t].started, PhaseAfter(c, s, t, choice));
      State(s.epoch + 1, s.now, LockAfter(s, t, choice), EntriesAfter(c, s, t, choice), SlotsAfter(c, s, t, choice),
            s.tasks[t := task], s.writers, s.versions)
    case Invalidate(name) =>
      State(s.epoch + 1, s.now, s.lock, Retain(s.entries, name), s.slots, s.tasks, s.writers, s.versions)
    case Write(name) =>
      State(s.epoch + 1, s.now, s.lock, s.entries, s.slots, s.tasks, s.writers + [Writing(name)], s.versions)
    case Commit(w) =>
      var name, version := s.writers[w].name, VersionOf(s, s.writers[w].name) + 1;
      State(s.epoch + 1, s.now, s.lock, s.entries, s.slots, s.tasks, s.writers[w := Committed(name, version)],
            s.versions[Fold(name) := version])
    case Return(w) =>
      var writer := s.writers[w];
      State(s.epoch + 1, s.now, s.lock, Retain(s.entries, writer.name), s.slots, s.tasks,
            s.writers[w := Returned(writer.name, if writer.Committed? then Some(writer.version) else None)], s.versions)
  }

  // ----- what every reachable state keeps -----

  /** The task is the one that put its slot in the loading state. */
  predicate Owns(p: Phase, slot: nat) {
    (p.Fetching? && p.into == Some(slot)) || ((p.Settling? || p.Storing?) && p.slot == slot)
  }

  /** The task has still to notify this slot's waiters. */
  predicate WillNotify(p: Phase, slot: nat) {
    Owns(p, slot) || ((p.Removing? || p.Notifying?) && p.slot == slot)
  }

  predicate SnapshotOf(key: Key, snapshot: Snapshot, since: nat) {
    snapshot.key == key && snapshot.began >= since
  }

  predicate LoadedOk(s: State, t: nat, slot: nat, loaded: Option<Snapshot>, publish: bool)
    requires t < |s.tasks| && slot < |s.slots|
  {
    var task := s.tasks[t];
    && s.slots[slot].state == Loading(t)
    && (publish ==> loaded.Some?)
    && (loaded.Some? ==>
          SnapshotOf(task.key, loaded.value, s.slots[slot].created) && loaded.value.began >= task.started)
  }

  predicate PhaseOk(s: State, t: nat)
    requires Has(s, t)
  {
    var task := s.tasks[t];
    match task.phase
    case Start => true
    case Queued(_) => true
    case Scanning(_, unchecked, _, inspected) =>
      && s.lock == Some(t) && unchecked <= s.entries.Keys
      && (inspected.Some? ==>
            inspected.value.key in s.entries && s.entries[inspected.value.key] == inspected.value.slot)
    case Entered(_) => true
    case Listening(slot, ticket) => ticket <= s.slots[slot].wakes
    case Looking(slot, ticket) => ticket <= s.slots[slot].wakes
    case Parked(slot, ticket, awaiting) =>
      && ticket <= s.slots[slot].wakes
      && (ticket == s.slots[slot].wakes ==> awaiting < |s.tasks| && WillNotify(s.tasks[awaiting].phase, slot))
    case Fetching(into, began, _) =>
      && task.started <= began < s.epoch
      && (into.Some? ==> s.slots[into.value].state == Loading(t) && s.slots[into.value].created <= began)
    case Settling(slot, loaded, publish) => LoadedOk(s, t, slot, loaded, publish)
    case Storing(slot, loaded, publish) => LoadedOk(s, t, slot, loaded, publish)
    case Removing(_, loaded) => loaded.Some? ==> SnapshotOf(task.key, loaded.value, task.started)
    case Notifying(_, loaded) => loaded.Some? ==> SnapshotOf(task.key, loaded.value, task.started)
    case Done(result, hit, at) =>
      && at <= s.now
      && (result.Some? ==> result.value.key == task.key)
      && (hit ==> result.Some? && at < result.value.expiresAt)
      && (!hit && result.Some? ==> result.value.began >= task.started)
  }

  predicate TaskOk(s: State, t: nat)
    requires t < |s.tasks|
  {
    var task := s.tasks[t];
    && Has(s, t)
    && task.started < s.epoch
    && (SlotOf(task.phase).Some? ==> s.slots[SlotOf(task.phase).value].key == task.key)
    && (GuardedBy(task.phase).Some? ==> s.slots[GuardedBy(task.phase).value].guard == Some(t))
    && PhaseOk(s, t)
  }

  predicate SlotOk(s: State, i: nat)
    requires i < |s.slots|
  {
    var slot := s.slots[i];
    && slot.created < s.epoch
    && (slot.guard.Some? ==> slot.guard.value < |s.tasks| && GuardedBy(s.tasks[slot.guard.value].phase) == Some(i))
    && match slot.state
       case Empty => true
       case Loading(owner) => owner < |s.tasks| && Owns(s.tasks[owner].phase, i)
       case Ready(cached) => SnapshotOf(slot.key, cached, slot.created)
  }

  /** The map sends a key to a slot of that key. */
  predicate EntryOk(s: State, k: Key) {
    k in s.entries ==> s.entries[k] < |s.slots| && s.slots[s.entries[k]].key == k
  }

  ghost predicate EntriesOk(c: Config, s: State) {
    && (forall k | k in s.entries :: EntryOk(s, k))
    && |s.entries| <= c.maxEntries
    && (s.lock.Some? ==> s.lock.value < |s.tasks| && s.tasks[s.lock.value].phase.Scanning?)
  }

  ghost predicate Inv(c: Config, s: State) {
    && EntriesOk(c, s)
    && (forall t | 0 <= t < |s.tasks| :: TaskOk(s, t))
    && (forall i | 0 <= i < |s.slots| :: SlotOk(s, i))
  }

  lemma TaskIn(c: Config, s: State, t: nat)
    requires Inv(c, s) && t < |s.tasks|
    ensures TaskOk(s, t)
  {
  }

  lemma SlotIn(c: Config, s: State, i: nat)
    requires Inv(c, s) && i < |s.slots|
    ensures SlotOk(s, i)
  {
  }

  lemma EntryIn(c: Config, s: State, k: Key)
    requires EntriesOk(c, s)
    ensures EntryOk(s, k)
  {
  }

  lemma InitKeeps(c: Config)
    ensures Inv(c, InitialState())
  {
  }

  // ----- a task's own step -----

  lemma InspectorKeeps(c: Config, s: State, t: nat, choice: Choice)
    requires CanAct(s, t, choice) && TaskOk(s, t) && s.tasks[t].phase.Scanning? && !EndsScan(s.tasks[t].phase, choice)
    ensures TaskOk(Next(c, s, Act(t, choice)), t)
  {
    hide Prunable, AfterScan, Kept;
  }

  lemma ScannerKeeps(c: Config, s: State, t: nat, choice: Choice)
    requires CanAct(s, t, choice) && TaskOk(s, t) && EndsScan(s.tasks[t].phase, choice)
    requires EntryOk(s, s.tasks[t].key)
    ensures TaskOk(Next(c, s, Act(t, choice)), t)
  {
    hide Prunable, LockAfter, EntriesAfter;
  }

  lemma LookerKeeps(c: Config, s: State, t: nat, choice: Choice)
    requires CanAct(s, t, choice) && TaskOk(s, t) && s.tasks[t].phase.Looking?
    requires SlotOk(s, s.tasks[t].phase.slot)
    ensures TaskOk(Next(c, s, Act(t, choice)), t)
  {
  }

  lemma LoaderKeeps(c: Config, s: State, t: nat, choice: Choice)
    requires CanAct(s, t, choice) && TaskOk(s, t) && s.tasks[t].phase.Fetching?
    ensures TaskOk(Next(c, s, Act(t, choice)), t)
  {
    hide VersionOf, CheckedDeadline;
  }

  lemma ActorKeeps(c: Config, s: State, t: nat, choice: Choice)
    requires CanAct(s, t, choice) && TaskOk(s, t) && EntryOk(s, s.tasks[t].key)
    requires SlotOf(s.tasks[t].phase).Some? ==> SlotOk(s, SlotOf(s.tasks[t].phase).value)
    ensures TaskOk(Next(c, s, Act(t, choice)), t)
  {
    hide EntryOk, Kept, AfterScan, AfterLook, AfterLoad, VersionOf, Prunable;
    match s.tasks[t].phase {
      case Scanning(_, _, _, inspected) =>
        if inspected.None? && choice.Proceed? {
          ScannerKeeps(c, s, t, choice);
        } else {
          InspectorKeeps(c, s, t, choice);
        }
      case Looking(_, _) => LookerKeeps(c, s, t, choice);
      case Listening(_, _) =>
      case Fetching(_, _, _) => LoaderKeeps(c, s, t, choice);
      case Start =>
      case Queued(_) =>
      case Entered(_) =>
      case Parked(_, _, _) =>
      case Settling(_, _, _) =>
      case Storing(_, _, _) =>
      case Removing(_, _) =>
      case Notifying(_, _) =>
    }
  }

  /** What another call sees of a slot: it stays that call's if it is, to guard or to load into. */
  lemma SlotSeen(c: Config, s: State, t: nat, choice: Choice, i: nat)
    requires CanAct(s, t, choice) && TaskOk(s, t) && i < |s.slots|
    ensures i < |SlotsAfter(c, s, t, choice)|
    ensures var a, b := s.slots[i], SlotsAfter(c, s, t, choice)[i];
      && a.key == b.key && a.created == b.created && a.wakes <= b.wakes
      && (a.guard.Some? && a.guard != Some(t) ==> b.guard == a.guard)
      && (a.state.Loading? && a.state != Loading(t) ==> b.state == a.state)
  {
    hide Prunable, AfterScan, AfterLoad, VersionOf, Kept, SnapshotOf;
  }

  /** A call that has still to notify does so, or still has to. */
  lemma NotifierKeeps(c: Config, s: State, t: nat, choice: Choice, slot: nat)
    requires CanAct(s, t, choice) && WillNotify(s.tasks[t].phase, slot) && slot < |s.slots|
    ensures slot < |SlotsAfter(c, s, t, choice)|
    ensures WillNotify(PhaseAfter(c, s, t, choice), slot)
      || SlotsAfter(c, s, t, choice)[slot].wakes == s.slots[slot].wakes + 1
  {
    hide Prunable, AfterScan, VersionOf, Kept, CheckedDeadline;
  }

  /** While a call holds the lock on the map, no other changes the map or the lock. */
  lemma LockKeeps(c: Config, s: State, t: nat, choice: Choice)
    requires CanAct(s, t, choice) && TaskOk(s, t) && s.lock.Some? && s.lock != Some(t)
    ensures LockAfter(s, t, choice) == s.lock && EntriesAfter(c, s, t, choice) == s.entries
  {
    hide Kept;
  }

  /** A slot as a call finds it in the next state: nothing it relies on has been taken from it. */
  predicate StillThere(s: State, s': State, u: nat, i: nat) {
    && i < |s.slots| && i < |s'.slots|
    && var a, b := s.slots[i], s'.slots[i];
       && a.key == b.key && a.created == b.created && a.wakes <= b.wakes
       && (a.guard == Some(u) ==> b.guard == Some(u))
       && (a.state == Loading(u) ==> b.state == Loading(u))
  }

  predicate StillAwaited(s': State, p: Phase) {
    && p.Parked? && p.slot < |s'.slots|
    && (p.ticket == s'.slots[p.slot].wakes ==>
          p.awaiting < |s'.tasks| && WillNotify(s'.tasks[p.awaiting].phase, p.slot))
  }

  lemma Undisturbed(s: State, s': State, u: nat)
    requires u < |s.tasks| && TaskOk(s, u) && u < |s'.tasks| && s'.tasks[u] == s.tasks[u]
    requires s'.epoch >= s.epoch && s'.now >= s.now
    requires SlotOf(s.tasks[u].phase).Some? ==> StillThere(s, s', u, SlotOf(s.tasks[u].phase).value)
    requires GuardedBy(s.tasks[u].phase).Some? ==> StillThere(s, s', u, GuardedBy(s.tasks[u].phase).value)
    requires s.tasks[u].phase.Scanning? ==> s'.lock == s.lock && s'.entries == s.entries
    requires s.tasks[u].phase.Parked? ==> StillAwaited(s', s.tasks[u].phase)
    ensures TaskOk(s', u)
  {
    hide SnapshotOf, WillNotify;
  }

  lemma OthersKeep(c: Config, s: State, t: nat, choice: Choice, u: nat)
    requires CanAct(s, t, choice) && TaskOk(s, t) && u < |s.tasks| && u != t && TaskOk(s, u)
    ensures TaskOk(Next(c, s, Act(t, choice)), u)
  {
    var p := s.tasks[u].phase;
    if SlotOf(p).Some? {
      SlotSeen(c, s, t, choice, SlotOf(p).value);
    }
    if GuardedBy(p).Some? {
      SlotSeen(c, s, t, choice, GuardedBy(p).value);
    }
    if p.Scanning? {
      LockKeeps(c, s, t, choice);
    }
    if p.Parked? {
      AwaitedKeeps(c, s, t, choice, u);
    }
    hide PhaseAfter, LockAfter, EntriesAfter, SlotsAfter, CanAct, StillAwaited;
    Undisturbed(s, Next(c, s, Act(t, choice)), u);
  }

  lemma AwaitedKeeps(c: Config, s: State, t: nat, choice: Choice, u: nat)
    requires CanAct(s, t, choice) && TaskOk(s, t) && u < |s.tasks| && u != t && TaskOk(s, u)
    requires s.tasks[u].phase.Parked?
    ensures StillAwaited(Next(c, s, Act(t, choice)), s.tasks[u].phase)
  {
    var p := s.tasks[u].phase;
    SlotSeen(c, s, t, choice, p.slot);
    if p.awaiting == t && WillNotify(s.tasks[t].phase, p.slot) {
      NotifierKeeps(c, s, t, choice, p.slot);
    }
    hide PhaseAfter, LockAfter, EntriesAfter, SlotsAfter, CanAct, WillNotify;
  }

  lemma GuardKeeps(c: Config, s: State, t: nat, choice: Choice, i: nat)
    requires CanAct(s, t, choice) && TaskOk(s, t)
    requires i < |s.slots| ==> SlotOk(s, i)
    requires i < |SlotsAfter(c, s, t, choice)| && SlotsAfter(c, s, t, choice)[i].guard.Some?
    ensures var s', guard := Next(c, s, Act(t, choice)), SlotsAfter(c, s, t, choice)[i].guard;
      guard.value < |s'.tasks| && GuardedBy(s'.tasks[guard.value].phase) == Some(i)
  {
    hide Prunable, AfterScan, AfterLook, AfterLoad, VersionOf, Kept, SnapshotOf;
  }

  /** A slot is loading exactly for the call that claimed it. */
  lemma LoadingKeeps(c: Config, s: State, t: nat, choice: Choice, i: nat)
    requires CanAct(s, t, choice) && TaskOk(s, t)
    requires i < |s.slots| ==> SlotOk(s, i)
    requires i < |SlotsAfter(c, s, t, choice)| && SlotsAfter(c, s, t, choice)[i].state.Loading?
    ensures var s', owner := Next(c, s, Act(t, choice)), SlotsAfter(c, s, t, choice)[i].state.owner;
      owner < |s'.tasks| && Owns(s'.tasks[owner].phase, i)
  {
    hide Prunable, AfterScan, VersionOf, Kept, SnapshotOf, CheckedDeadline;
  }

  /** A published snapshot is one of the slot's own key, loaded since the slot was created. */
  lemma ReadyKeeps(c: Config, s: State, t: nat, choice: Choice, i: nat)
    requires CanAct(s, t, choice) && TaskOk(s, t)
    requires i < |s.slots| ==> SlotOk(s, i)
    requires i < |SlotsAfter(c, s, t, choice)| && SlotsAfter(c, s, t, choice)[i].state.Ready?
    ensures var slot := SlotsAfter(c, s, t, choice)[i]; SnapshotOf(slot.key, slot.state.cached, slot.created)
  {
    hide Prunable, AfterScan, VersionOf, Kept, SnapshotOf, PhaseAfter;
  }

  lemma CreatedKeeps(c: Config, s: State, t: nat, choice: Choice, i: nat)
    requires CanAct(s, t, choice)
    requires i < |s.slots| ==> s.slots[i].created < s.epoch
    requires i < |SlotsAfter(c, s, t, choice)|
    ensures SlotsAfter(c, s, t, choice)[i].created <= s.epoch
  {
    hide Prunable, AfterScan, VersionOf, Kept, PhaseAfter, AfterLook;
  }

  lemma SlotsKeep(c: Config, s: State, t: nat, choice: Choice, i: nat)
    requires CanAct(s, t, choice) && TaskOk(s, t)
    requires i < |s.slots| ==> SlotOk(s, i)
    ensures i < |Next(c, s, Act(t, choice)).slots| ==> SlotOk(Next(c, s, Act(t, choice)), i)
  {
    if i < |Next(c, s, Act(t, choice)).slots| {
      CreatedKeeps(c, s, t, choice, i);
      if SlotsAfter(c, s, t, choice)[i].guard.Some? {
        GuardKeeps(c, s, t, choice, i);
      }
      if SlotsAfter(c, s, t, choice)[i].state.Loading? {
        LoadingKeeps(c, s, t, choice, i);
      } else if SlotsAfter(c, s, t, choice)[i].state.Ready? {
        ReadyKeeps(c, s, t, choice, i);
      }
      hide CanAct, TaskOk, PhaseAfter, LockAfter, EntriesAfter, SlotsAfter, SnapshotOf, GuardedBy, Owns;
    }
  }

  lemma KeptEntries(s: State, slots: seq<Slot>, expired: set<Key>)
    requires forall k | k in s.entries :: s.entries[k] < |s.slots| && s.slots[s.entries[k]].key == k
    requires |s.slots| <= |slots| && forall i | 0 <= i < |s.slots| :: slots[i].key == s.slots[i].key
    ensures forall k | k in Kept(s, expired) :: Kept(s, expired)[k] < |slots| && slots[Kept(s, expired)[k]].key == k
    ensures |Kept(s, expired)| <= |s.entries|
  {
    Smaller(Kept(s, expired), s.entries);
  }

  lemma ScanEntries(c: Config, s: State, t: nat, choice: Choice)
    requires EntriesOk(c, s) && CanAct(s, t, choice) && s.tasks[t].phase.Scanning? && s.lock == Some(t)
    ensures EntriesOk(c, Next(c, s, Act(t, choice)))
  {
    hide Kept, Prunable;
    var expired, slots := s.tasks[t].phase.expired, SlotsAfter(c, s, t, choice);
    KeptEntries(s, slots, expired);
  }

  lemma HolderKeeps(c: Config, s: State, t: nat, choice: Choice)
    requires EntriesOk(c, s) && CanAct(s, t, choice) && TaskOk(s, t) && !s.tasks[t].phase.Scanning?
    ensures LockAfter(s, t, choice) == Some(t) ==> PhaseAfter(c, s, t, choice).Scanning?
    ensures LockAfter(s, t, choice).Some? && LockAfter(s, t, choice) != Some(t) ==>
        LockAfter(s, t, choice).value < |s.tasks| && s.tasks[LockAfter(s, t, choice).value].phase.Scanning?
  {
    hide Prunable, AfterScan, AfterLook, AfterLoad, VersionOf, SnapshotOf, GuardedBy, Kept;
  }

  lemma SameKeys(c: Config, s: State, t: nat, choice: Choice)
    requires CanAct(s, t, choice)
    ensures |s.slots| <= |SlotsAfter(c, s, t, choice)|
    ensures forall i | 0 <= i < |s.slots| :: SlotsAfter(c, s, t, choice)[i].key == s.slots[i].key
  {
    hide AfterLook, Kept;
  }

  lemma EntriesKeep(c: Config, s: State, t: nat, choice: Choice)
    requires EntriesOk(c, s) && CanAct(s, t, choice) && TaskOk(s, t)
    ensures EntriesOk(c, Next(c, s, Act(t, choice)))
  {
    if s.tasks[t].phase.Scanning? {
      hide Next, CanAct, PhaseAfter, LockAfter, EntriesAfter, SlotsAfter;
      ScanEntries(c, s, t, choice);
    } else {
      HolderKeeps(c, s, t, choice);
      SameKeys(c, s, t, choice);
      Smaller(EntriesAfter(c, s, t, choice), s.entries);
      hide CanAct, PhaseAfter, LockAfter, SlotsAfter, TaskOk;
    }
  }

  lemma ActKeeps(c: Config, s: State, t: nat, choice: Choice)
    requires Inv(c, s) && CanAct(s, t, choice)
    ensures Inv(c, Next(c, s, Act(t, choice)))
  {
    hide TaskOk, SlotOk, EntriesOk, EntryOk, CanAct, PhaseAfter, EntriesAfter, SlotsAfter, LockAfter;
    var s' := Next(c, s, Act(t, choice));
    assert Has(s, t) by { CanActHas(s, t, choice); }
    TaskIn(c, s, t);
    EntryIn(c, s, s.tasks[t].key);
    ActorKeeps(c, s, t, choice);
    EntriesKeep(c, s, t, choice);
    forall u | 0 <= u < |s'.tasks| ensures TaskOk(s', u) {
      if u != t {
        OthersKeep(c, s, t, choice, u);
      }
    }
    forall i | 0 <= i < |s'.slots| ensures SlotOk(s', i) {
      SlotsKeep(c, s, t, choice, i);
    }
  }

  lemma CanActHas(s: State, t: nat, choice: Choice)
    requires CanAct(s, t, choice)
    ensures Has(s, t)
  {
  }

  // ----- the other steps -----

  lemma SameTask(s: State, s': State, t: nat)
    requires t < |s.tasks| && TaskOk(s, t)
    requires s.tasks <= s'.tasks && s'.slots == s.slots && s'.epoch >= s.epoch && s'.now >= s.now
    requires s.tasks[t].phase.Scanning? ==> s'.lock == s.lock && s'.entries == s.entries
    ensures TaskOk(s', t)
  {
    hide SnapshotOf;
  }

  lemma QuietTask(c: Config, s: State, step: Step, t: nat)
    requires Enabled(s, step) && !step.Act? && EntriesOk(c, s)
    requires t < |s.tasks| ==> TaskOk(s, t)
    ensures t < |Next(c, s, step).tasks| ==> TaskOk(Next(c, s, step), t)
  {
    hide VersionOf, SameName, SnapshotOf, Fold, Retain, WillNotify;
    if t < |s.tasks| {
      assert s.tasks[t].phase.Scanning? ==> s.lock == Some(t);
      SameTask(s, Next(c, s, step), t);
    }
  }

  lemma QuietEntries(c: Config, s: State, step: Step)
    requires Enabled(s, step) && !step.Act? && EntriesOk(c, s)
    ensures EntriesOk(c, Next(c, s, step))
  {
    hide VersionOf, SameName;
    Smaller(Next(c, s, step).entries, s.entries);
  }

  lemma QuietKeeps(c: Config, s: State, step: Step)
    requires Inv(c, s) && Enabled(s, step) && !step.Act?
    ensures Inv(c, Next(c, s, step))
  {
    hide VersionOf, SameName, TaskOk, EntriesOk, Retain;
    var s' := Next(c, s, step);
    QuietEntries(c, s, step);
    forall u | 0 <= u < |s'.tasks| ensures TaskOk(s', u) {
      QuietTask(c, s, step, u);
    }
    forall i | 0 <= i < |s'.slots| ensures SlotOk(s', i) {
      SlotIn(c, s, i);
    }
  }

  lemma StepKeeps(c: Config, s: State, step: Step)
    requires Inv(c, s) && Enabled(s, step)
    ensures Inv(c, Next(c, s, step))
  {
    hide Inv, CanAct, Next;
    if step.Act? {
      ActKeeps(c, s, step.t, step.choice);
    } else {
      QuietKeeps(c, s, step);
    }
  }
}
