/** The table cache's own data structure: slots shared by reference, in a map that is changed in place. */
module TableCache {
  import opened Ascii
  import opened MapSizes
  import opened Wrappers
  import opened CacheProtocol

  class EntrySlot {
    var state: EntryState
    var wakes: nat

    constructor ()
      ensures state == Empty && wakes == 0
    {
      state, wakes := Empty, 0;
    }
  }

  datatype Claim = Hit(cached: Snapshot) | Wait | Load

  class TableCache {
    const config: Config
    var entries: map<Key, EntrySlot>

    /** No slot serves two keys, and the map is within its limit. */
    ghost predicate Valid()
      reads this
    {
      && |entries| <= config.maxEntries
      && forall j, k | j in entries && k in entries && j != k :: entries[j] != entries[k]
    }

    constructor (config: Config)
      ensures Valid() && this.config == config && entries == map[]
    {
      this.config := config;
      entries := map[];
    }

    /** Every key of the name goes, whatever its principal, region or casing; every other key keeps its slot. */
    method InvalidateTable(name: string)
      requires Valid()
      modifies this`entries
      ensures Valid()
      ensures forall k :: k in entries <==> k in old(entries) && Fold(k.name) != Fold(name)
      ensures forall k | k in entries :: entries[k] == old(entries)[k]
    {
      var kept := Retain(entries, name);
      Smaller(kept, entries);
      entries := kept;
    }

    ghost function Unexpired(now: nat): map<Key, EntrySlot>
      reads this, entries.Values
    {
      map k | k in entries && !Prunable(entries[k].state, now) :: entries[k]
    }

    method PruneExpired(now: nat)
      requires Valid()
      modifies this`entries
      ensures Valid() && entries == old(Unexpired(now))
    {
      hide Prunable;
      var expired: set<Key>, unchecked := {}, entries.Keys;
      while unchecked != {}
        invariant unchecked <= entries.Keys && entries == old(entries)
        invariant forall k :: k in expired <==> k in entries && k !in unchecked && Prunable(entries[k].state, now)
        decreases |unchecked|
      {
        var k :| k in unchecked;
        if Prunable(entries[k].state, now) {
          expired := expired + {k};
        }
        unchecked := unchecked - {k};
      }
      var kept := entries - expired;
      Smaller(kept, entries);
      entries := kept;
    }

    /** The key's slot once expired entries are gone: the one there, a new one, or none when the map is full. */
    method SlotForKey(key: Key, now: nat) returns (slot: EntrySlot?)
      requires Valid()
      modifies this`entries
      ensures Valid()
      ensures var kept := old(Unexpired(now));
        if key in kept then slot == kept[key] && entries == kept
        else if |kept| >= config.maxEntries then slot == null && entries == kept
        else slot != null && fresh(slot) && slot.state == Empty && slot.wakes == 0 && entries == kept[key := slot]
    {
      PruneExpired(now);
      if key in entries {
        return entries[key];
      }
      if |entries| >= config.maxEntries {
        return null;
      }
      slot := new EntrySlot();
      entries := entries[key := slot];
    }

    /** What the slot's state tells a caller to do; only a caller told to load changes it. */
    method Look(slot: EntrySlot, caller: nat, now: nat) returns (claim: Claim)
      modifies slot`state
      ensures claim.Hit? <==> old(slot.state).Ready? && now < old(slot.state).cached.expiresAt
      ensures claim.Hit? ==> old(slot.state) == Ready(claim.cached)
      ensures claim == Wait <==> old(slot.state).Loading?
      ensures slot.state == if claim == Load then Loading(caller) else old(slot.state)
    {
      match slot.state {
        case Ready(cached) =>
          if now < cached.expiresAt {
            return Hit(cached);
          }
          slot.state := Loading(caller);
          return Load;
        case Loading(_) =>
          return Wait;
        case Empty =>
          slot.state := Loading(caller);
          return Load;
      }
    }

    /** Only if the map still holds this very slot under the key. */
    method RemoveSlot(key: Key, slot: EntrySlot)
      requires Valid()
      modifies this`entries
      ensures Valid()
      ensures entries == if key in old(entries) && old(entries)[key] == slot then old(entries) - {key} else old(entries)
    {
      if key in entries && entries[key] == slot {
        var kept := entries - {key};
        Smaller(kept, entries);
        entries := kept;
      }
    }

    /** Publishes a load that has not expired already, and wakes the slot's waiters whatever its outcome. */
    method FinishLoad(key: Key, slot: EntrySlot, loaded: Option<Snapshot>, now: nat) returns (result: Option<Snapshot>)
      requires Valid()
      modifies this`entries, slot
      ensures Valid() && slot.wakes == old(slot.wakes) + 1
      ensures result.Some? <==> loaded.Some?
      ensures result.Some? ==> result == Some(Capped(config, loaded.value, now))
      ensures result.Some? && result.value.expiresAt > now ==>
        slot.state == Ready(result.value) && entries == old(entries)
      ensures !(result.Some? && result.value.expiresAt > now) ==>
        slot.state == Empty
        && entries == if key in old(entries) && old(entries)[key] == slot then old(entries) - {key} else old(entries)
    {
      match loaded {
        case Some(snapshot) =>
          var cached := Capped(config, snapshot, now);
          if cached.expiresAt <= now {
            slot.state := Empty;
            RemoveSlot(key, slot);
          } else {
            slot.state := Ready(cached);
          }
          result := Some(cached);
        case None =>
          slot.state := Empty;
          RemoveSlot(key, slot);
          result := None;
      }
      slot.wakes := slot.wakes + 1;
    }

    /** What a load leaves: nothing if it failed, and otherwise its snapshot, capped at the moment it ended. */
    function Outcome(loaded: Option<Snapshot>, finished: nat): Option<Snapshot> {
      match loaded case Some(snapshot) => Some(Capped(config, snapshot, finished)) case None => None
    }

    /** From a slot that nobody is loading: its snapshot if that has not expired when it is looked at, and a load into
        it otherwise. */
    method UseSlot(key: Key, slot: EntrySlot, caller: nat, looked: nat, finished: nat, loaded: Option<Snapshot>)
      returns (result: Option<Snapshot>)
      requires Valid() && key in entries && entries[key] == slot && !slot.state.Loading?
      modifies this`entries, slot
      ensures Valid()
      ensures !Prunable(old(slot.state), looked) ==>
        result == Some(old(slot.state).cached) && slot.state == old(slot.state) && entries == old(entries)
      ensures Prunable(old(slot.state), looked) ==>
        && result == Outcome(loaded, finished)
        && (if result.Some? && result.value.expiresAt > finished
            then slot.state == Ready(result.value) && entries == old(entries)
            else slot.state == Empty && entries == old(entries) - {key})
    {
      hide CheckedDeadline, Capped;
      var claim := Look(slot, caller, looked);
      if claim.Hit? {
        return Some(claim.cached);
      }
      result := FinishLoad(key, slot, loaded, finished);
    }

    /** A whole call that nobody interferes with and that need not wait, with its three readings of the clock: when it
        asks for the slot, when it looks at it, and when its load has ended. An unexpired snapshot is handed out as it
        is; with the map full the loader's outcome is, and nothing is kept; otherwise that outcome, capped, is what the
        key's slot then holds, unless it has failed or has expired. */
    method GetOrLoad(key: Key, caller: nat, asked: nat, looked: nat, finished: nat, loaded: Option<Snapshot>)
      returns (result: Option<Snapshot>)
      requires Valid() && CacheEnabled(config)
      requires key in entries ==> !entries[key].state.Loading?
      modifies this`entries, entries.Values
      ensures Valid()
      ensures var kept := old(Unexpired(asked));
        if key in kept && !Prunable(old(entries[key].state), looked) then
          && result == Some(old(entries[key].state).cached) && entries == kept
          && entries[key].state == Ready(result.value)
        else if key !in kept && |kept| >= config.maxEntries then result == loaded && entries == kept
        else
          && result == Outcome(loaded, finished)
          && (key in entries <==> result.Some? && result.value.expiresAt > finished)
          && (key in entries ==> entries[key].state == Ready(result.value))
      ensures forall k | k != key :: k in entries <==> k in old(Unexpired(asked))
      ensures forall k | k in entries && k != key :: entries[k] == old(entries)[k]
      ensures forall k | k in old(entries) && k != key :: old(entries)[k].state == old(entries[k].state)
    {
      hide CheckedDeadline, Capped;
      var slot := SlotForKey(key, asked);
      if slot == null {
        return loaded;
      }
      result := UseSlot(key, slot, caller, looked, finished, loaded);
    }
  }

  // ----- the expiry of a credential -----

  /** `expires_at_from_unity_expiration_ms_at`, in nanoseconds of the system clock and of the monotonic one. */
  function ExpiresAtFromUnity(expirationMs: int, skew: nat, nowSystem: nat, nowInstant: nat, lastInstant: nat): nat {
    if expirationMs < 0 then nowInstant
    else
      var expiry := expirationMs * 1_000_000;
      var remaining := if expiry <= nowSystem then 0 else expiry - nowSystem;
      CheckedDeadline(nowInstant, if remaining <= skew then 0 else remaining - skew, lastInstant)
  }

  /** While a snapshot has not expired, its credential has more than the safety skew left; and when the deadline can be
      represented, it expires at the first instant at which that is no longer so. */
  lemma CredentialOutlives(expirationMs: int, skew: nat, nowSystem: nat, nowInstant: nat, lastInstant: nat,
                           elapsed: nat)
    ensures var expiresAt := ExpiresAtFromUnity(expirationMs, skew, nowSystem, nowInstant, lastInstant);
      && (nowInstant + elapsed < expiresAt ==> nowSystem + elapsed + skew < expirationMs * 1_000_000)
      && (nowInstant + expirationMs * 1_000_000 <= lastInstant ==>
            (nowInstant + elapsed < expiresAt <==> nowSystem + elapsed + skew < expirationMs * 1_000_000))
  {
  }

  /** The cap only ever shortens the life of a snapshot, to at most the ttl. */
  lemma CapShortens(c: Config, loaded: Snapshot, now: nat)
    ensures var capped := Capped(c, loaded, now);
      && capped.expiresAt <= loaded.expiresAt && capped.expiresAt <= now + c.ttl
      && capped == loaded.(expiresAt := capped.expiresAt)
      && (now + c.ttl <= c.lastInstant ==> capped.expiresAt == loaded.expiresAt || capped.expiresAt == now + c.ttl)
  {
  }
}
