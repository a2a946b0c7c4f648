/** The controller's in-memory retry ledger, how it stands to the durable one, and how
    it is rebuilt (internal/reconcile/persistence.go). */
module ReconcileMemory {
  import opened Basics
  import opened Enforcement
  import opened ReconcileStore
  import opened ReconcileTrace

  type States = map<Ref, RetryState>
  type PendingProbes = map<ProbeKey, Ref>

  // ----- memory against store, slot by slot

  /** Nothing in memory is ahead of the slot's row, and at most one key of the slot
      awaits a Probe. */
  ghost predicate SlotLoose(s: Store, states: States, pending: PendingProbes, synthetic: set<Ref>, slot: Slot) {
    && (forall ref | ref in states && ref.slot == slot :: slot in s.rows && AtMost(ref, RowRef(slot, s.rows[slot])))
    && (forall ref | ref in synthetic && ref.slot == slot :: slot in s.rows && Below(ref, RowRef(slot, s.rows[slot])))
    && (forall key | key in pending && key.slot == slot ::
          && pending[key].slot == slot && pending[key].version == key.version
          && slot in s.rows && AtMost(pending[key], RowRef(slot, s.rows[slot])))
    && (forall key, other | key in pending && other in pending && key.slot == slot && other.slot == slot :: key == other)
  }

  /** The slot's row and its attempt count are known, or the row is still clean; no
      entry is Applying unless the row is. */
  ghost predicate SlotCounted(s: Store, states: States, slot: Slot) {
    slot in s.rows ==>
      var ref := RowRef(slot, s.rows[slot]);
      if ref in states then
        states[ref].attempts == s.rows[slot].state.attempts &&
        (states[ref].status.Applying? ==> s.rows[slot].state.status.Applying?)
      else s.rows[slot].state.attempts == 0
  }

  /** Every stored requirement of the slot is pending, with its attempt. */
  ghost predicate SlotBarred(s: Store, states: States, pending: PendingProbes, slot: Slot) {
    forall r | r in s.probes && r.key.slot == slot ::
      && r.key in pending && pending[r.key] == RequirementRef(r)
      && RequirementRef(r) in states && states[RequirementRef(r)].attempts == r.attempts
  }

  ghost predicate SlotMemory(s: Store, states: States, pending: PendingProbes, synthetic: set<Ref>, slot: Slot) {
    && SlotLoose(s, states, pending, synthetic, slot)
    && SlotCounted(s, states, slot)
    && SlotBarred(s, states, pending, slot)
  }

  ghost predicate InMemory(s: Store, states: States, pending: PendingProbes, synthetic: set<Ref>) {
    forall slot :: SlotMemory(s, states, pending, synthetic, slot)
  }

  /** The ledger entries that can still begin an attempt carry their backoff. */
  ghost predicate MemoryCarriesBackoff(s: Store, states: States, trace: Trace, now: Time) {
    forall slot | slot in s.rows && RowRef(slot, s.rows[slot]) in states ::
      && CarriesBackoff(states[RowRef(slot, s.rows[slot])], LastApply(trace, RowRef(slot, s.rows[slot])), now)
      && Rested(states[RowRef(slot, s.rows[slot])], trace, RowRef(slot, s.rows[slot]))
  }

  lemma SameSlotMemory(s: Store, s': Store, states: States, pending: PendingProbes, synthetic: set<Ref>, slot: Slot)
    requires SlotMemory(s, states, pending, synthetic, slot) && SameSlot(s, s', slot)
    ensures SlotMemory(s', states, pending, synthetic, slot)
  {
    forall r | r in s'.probes && r.key.slot == slot
      ensures r in s.probes
    {
      assert r in RequirementsAt(s', slot);
    }
  }

  /** Resets by other transactions leave memory behind, never ahead. */
  lemma ResetReachKeepsMemory(s: Store, s': Store, states: States, pending: PendingProbes, synthetic: set<Ref>)
    requires Durable(s) && ResetReach(s, s') && InMemory(s, states, pending, synthetic)
    ensures InMemory(s', states, pending, synthetic)
  {
    forall slot
      ensures SlotMemory(s', states, pending, synthetic, slot)
    {
      assert SlotMemory(s, states, pending, synthetic, slot);
      if slot in s.rows && s'.rows[slot] != s.rows[slot] {
        assert Below(RowRef(slot, s.rows[slot]), RowRef(slot, s'.rows[slot]));
      }
    }
  }

  lemma ResetReachKeepsMemoryBackoff(s: Store, s': Store, states: States, pending: PendingProbes, synthetic: set<Ref>,
                                     trace: Trace, now: Time)
    requires Durable(s) && ResetReach(s, s') && InMemory(s, states, pending, synthetic)
    requires MemoryCarriesBackoff(s, states, trace, now)
    ensures MemoryCarriesBackoff(s', states, trace, now)
  {
    forall slot | slot in s'.rows && RowRef(slot, s'.rows[slot]) in states
      ensures slot in s.rows && s'.rows[slot] == s.rows[slot]
    {
      assert SlotMemory(s, states, pending, synthetic, slot);
    }
  }

  ghost predicate BesideCarriesBackoff(s: Store, states: States, trace: Trace, now: Time, except: Slot) {
    forall slot | slot != except && slot in s.rows && RowRef(slot, s.rows[slot]) in states ::
      && CarriesBackoff(states[RowRef(slot, s.rows[slot])], LastApply(trace, RowRef(slot, s.rows[slot])), now)
      && Rested(states[RowRef(slot, s.rows[slot])], trace, RowRef(slot, s.rows[slot]))
  }

  /** After a commit memory is behind in the committed slot only, and not even there
      when the commit only dropped a requirement. */
  lemma CommitKeepsOtherSlots(s: Store, t: Transition, states: States, pending: PendingProbes, synthetic: set<Ref>)
    requires Durable(s) && InMemory(s, states, pending, synthetic) && Commit(s, t).Some? && KeepsBarrier(s, t)
    ensures forall slot :: slot != SlotOf(t) ==> SlotMemory(Commit(s, t).value, states, pending, synthetic, slot)
    ensures SlotLoose(Commit(s, t).value, states, pending, synthetic, SlotOf(t))
    ensures t.DeleteOnly? ==> InMemory(Commit(s, t).value, states, pending, synthetic)
  {
    var s' := Commit(s, t).value;
    CommitEffect(s, t);
    forall slot
      ensures slot != SlotOf(t) ==> SlotMemory(s', states, pending, synthetic, slot)
      ensures slot == SlotOf(t) ==> SlotLoose(s', states, pending, synthetic, slot)
      ensures t.DeleteOnly? ==> SlotMemory(s', states, pending, synthetic, slot)
    {
      hide Durable, InMemory, KeepsBarrier, Commit;
      assert SlotMemory(s, states, pending, synthetic, slot) by { InMemoryAt(s, states, pending, synthetic, slot); }
      if slot != SlotOf(t) {
        SameSlotMemory(s, s', states, pending, synthetic, slot);
      } else if t.WriteState? {
        LooseForward(s, s', states, pending, synthetic, slot);
      } else {
        assert forall r | r in s'.probes && r.key.slot == slot :: r in RequirementsAt(s', slot);
      }
    }
  }

  lemma InMemoryAt(s: Store, states: States, pending: PendingProbes, synthetic: set<Ref>, slot: Slot)
    requires InMemory(s, states, pending, synthetic)
    ensures SlotMemory(s, states, pending, synthetic, slot)
  {
  }

  lemma LooseForward(s: Store, s': Store, states: States, pending: PendingProbes, synthetic: set<Ref>, slot: Slot)
    requires SlotLoose(s, states, pending, synthetic, slot)
    requires slot in s.rows ==> slot in s'.rows && AtMost(RowRef(slot, s.rows[slot]), RowRef(slot, s'.rows[slot]))
    ensures SlotLoose(s', states, pending, synthetic, slot)
  {
  }

  lemma CommitKeepsOtherBackoff(s: Store, t: Transition, states: States, pending: PendingProbes, synthetic: set<Ref>,
                                trace: Trace, now: Time)
    requires Durable(s) && MemoryCarriesBackoff(s, states, trace, now) && Commit(s, t).Some? && KeepsBarrier(s, t)
    ensures BesideCarriesBackoff(Commit(s, t).value, states, trace + [Committed(t)], now, SlotOf(t))
    ensures t.DeleteOnly? ==> MemoryCarriesBackoff(Commit(s, t).value, states, trace + [Committed(t)], now)
  {
    var s' := Commit(s, t).value;
    CommitEffect(s, t);
    Snoc(trace, Committed(t));
    forall slot | slot in s'.rows && RowRef(slot, s'.rows[slot]) in states && (slot != SlotOf(t) || t.DeleteOnly?)
      ensures CarriesBackoff(states[RowRef(slot, s'.rows[slot])],
                             LastApply(trace + [Committed(t)], RowRef(slot, s'.rows[slot])), now)
      ensures Rested(states[RowRef(slot, s'.rows[slot])], trace + [Committed(t)], RowRef(slot, s'.rows[slot]))
    {
      assert SameSlot(s, s', slot) || t.DeleteOnly?;
      assert slot in s.rows && s'.rows[slot] == s.rows[slot];
    }
  }

  /** Memory rebuilt from a consistent store is in step with it. */
  lemma HydratedInMemory(s: Store, states: States, pending: PendingProbes, synthetic: set<Ref>)
    requires Durable(s) && HydratedMemory(s, states, pending, synthetic)
    ensures InMemory(s, states, pending, synthetic)
  {
    forall slot
      ensures SlotMemory(s, states, pending, synthetic, slot)
    {
      HydratedSlotLoose(s, states, pending, synthetic, slot);
      assert SlotDurable(s, slot);
      assert forall ref | ref in states && ref.slot == slot :: slot in s.rows && AtMost(ref, RowRef(slot, s.rows[slot]));
    }
  }

  lemma HydratedSlotLoose(s: Store, states: States, pending: PendingProbes, synthetic: set<Ref>, slot: Slot)
    requires Durable(s) && HydratedMemory(s, states, pending, synthetic)
    ensures SlotLoose(s, states, pending, synthetic, slot)
  {
    hide HydratedMemory, Durable;
    DurableAt(s, slot);
    forall ref | ref in states && ref.slot == slot
      ensures slot in s.rows && AtMost(ref, RowRef(slot, s.rows[slot]))
    {
      HydratedEntryBelow(s, states, pending, synthetic, ref);
    }
    forall ref | ref in synthetic && ref.slot == slot
      ensures slot in s.rows && Below(ref, RowRef(slot, s.rows[slot]))
    {
      HydratedEntryBelow(s, states, pending, synthetic, ref);
    }
    forall key | key in pending && key.slot == slot
      ensures pending[key].slot == slot && pending[key].version == key.version
      ensures slot in s.rows && AtMost(pending[key], RowRef(slot, s.rows[slot]))
    {
      var r := PendingRequirement(s, states, pending, synthetic, key);
    }
    forall key, other | key in pending && other in pending && key.slot == slot && other.slot == slot
      ensures key == other
    {
      var r := PendingRequirement(s, states, pending, synthetic, key);
      var q := PendingRequirement(s, states, pending, synthetic, other);
    }
  }

  lemma PendingRequirement(s: Store, states: States, pending: PendingProbes, synthetic: set<Ref>, key: ProbeKey)
    returns (r: Requirement)
    requires Durable(s) && HydratedMemory(s, states, pending, synthetic) && key in pending
    ensures r in s.probes && r.key == key && pending[key] == RequirementRef(r)
  {
    r :| r in s.probes && r.key == key;
  }

  lemma HydratedEntryBelow(s: Store, states: States, pending: PendingProbes, synthetic: set<Ref>, ref: Ref)
    requires Durable(s) && HydratedMemory(s, states, pending, synthetic)
    ensures ref in states ==> ref.slot in s.rows && AtMost(ref, RowRef(ref.slot, s.rows[ref.slot]))
    ensures ref in synthetic ==> ref.slot in s.rows && Below(ref, RowRef(ref.slot, s.rows[ref.slot]))
  {
    if ref in synthetic {
      SyntheticIsBelow(s, ref);
    }
  }

  lemma DurableAt(s: Store, slot: Slot)
    requires Durable(s)
    ensures SlotDurable(s, slot)
  {
  }

  lemma SyntheticIsBelow(s: Store, ref: Ref)
    requires Durable(s) && ref in SyntheticRefs(s)
    ensures ref.slot in s.rows && Below(ref, RowRef(ref.slot, s.rows[ref.slot]))
  {
    assert SlotDurable(s, ref.slot);
    var r :| r in s.probes && RequirementRef(r) == ref &&
      (r.key.slot in s.rows ==> RequirementRef(r) != RowRef(r.key.slot, s.rows[r.key.slot]));
  }

  lemma HydratedMemoryCarriesBackoff(s: Store, states: States, pending: PendingProbes, synthetic: set<Ref>,
                                     trace: Trace, now: Time)
    requires Durable(s) && HydratedMemory(s, states, pending, synthetic) && LedgerCarriesBackoff(s, trace, now)
    ensures MemoryCarriesBackoff(s, states, trace, now)
  {
    forall slot | slot in s.rows && RowRef(slot, s.rows[slot]) in states
      ensures CarriesBackoff(states[RowRef(slot, s.rows[slot])], LastApply(trace, RowRef(slot, s.rows[slot])), now)
      ensures Rested(states[RowRef(slot, s.rows[slot])], trace, RowRef(slot, s.rows[slot]))
    {
      assert SlotDurable(s, slot);
      HydratedCarriesBackoff(s.rows[slot].state, LastApply(trace, RowRef(slot, s.rows[slot])), now);
    }
  }

  // ----- hydrateRecovery

  /** hydrateRecovery: three passes over the recovered rows and requirements. On a
      consistent store it never fails and rebuilds exactly what is stored. */
  method HydrateRecovery(s: Store) returns (ok: bool, states: States, pending: PendingProbes, synthetic: set<Ref>)
    ensures Durable(s) ==> ok && HydratedMemory(s, states, pending, synthetic)
  {
    states, pending, synthetic := map[], map[], {};
    ok, states := HydrateStates(s);
    if !ok {
      return;
    }
    ok, states, pending, synthetic := HydrateProbes(s, states);
    if !ok {
      return;
    }
    var rows := s.rows.Keys;
    while rows != {}
      invariant rows <= s.rows.Keys
      decreases |rows|
    {
      var slot :| slot in rows;
      rows := rows - {slot};
      var row := s.rows[slot];
      assert Durable(s) ==> SlotDurable(s, slot);
      if row.state.status.Applying? && forall key | key in pending :: pending[key] != RowRef(slot, row) {
        return false, states, pending, synthetic;
      }
    }
  }

  /** The recovered rows as ledger entries. */
  ghost predicate RowsHydrated(s: Store, slots: set<Slot>, states: States) {
    && (forall slot | slot in slots ::
          && slot in s.rows && RecoverableState(s.rows[slot].state)
          && RowRef(slot, s.rows[slot]) in states
          && states[RowRef(slot, s.rows[slot])] == Hydrated(s.rows[slot].state))
    && (forall ref | ref in states :: ref.slot in slots && ref.slot in s.rows && ref == RowRef(ref.slot, s.rows[ref.slot]))
  }

  method HydrateStates(s: Store) returns (ok: bool, states: States)
    ensures Durable(s) ==> ok
    ensures ok ==> RowsHydrated(s, s.rows.Keys, states)
  {
    states := map[];
    var rows := s.rows.Keys;
    while rows != {}
      invariant rows <= s.rows.Keys
      invariant RowsHydrated(s, s.rows.Keys - rows, states)
      decreases |rows|
    {
      var slot :| slot in rows;
      var row := s.rows[slot];
      assert Durable(s) ==> SlotDurable(s, slot);
      if row.version == 0 || !RecoverableState(row.state) {
        return false, states;
      }
      states := states[RowRef(slot, row) := Hydrated(row.state)];
      rows := rows - {slot};
    }
    ok := true;
  }

  /** Requirements recovered so far: pending with their attempt, the superseded ones
      through a placeholder entry. */
  ghost predicate ProbesHydrated(s: Store, done: set<Requirement>, base: States,
                                 states: States, pending: PendingProbes, synthetic: set<Ref>) {
    && done <= s.probes
    && (forall ref | ref in base :: ref in states && states[ref] == base[ref])
    && (forall ref | ref in states :: ref in base || ref in synthetic)
    && synthetic == Superseded(done, base)
    && (forall r | r in done ::
          && r.key in pending && pending[r.key] == RequirementRef(r)
          && RequirementRef(r) in states && states[RequirementRef(r)].attempts == r.attempts)
    && pending.Keys == KeysOf(done)
  }

  ghost function Superseded(done: set<Requirement>, base: States): set<Ref> {
    set r | r in done && RequirementRef(r) !in base :: RequirementRef(r)
  }

  ghost function KeysOf(done: set<Requirement>): set<ProbeKey> {
    set r | r in done :: r.key
  }

  lemma OneMore(done: set<Requirement>, base: States, r: Requirement)
    ensures KeysOf(done + {r}) == KeysOf(done) + {r.key}
    ensures Superseded(done + {r}, base)
         == Superseded(done, base) + (if RequirementRef(r) in base then {} else {RequirementRef(r)})
  {
  }

  method HydrateProbes(s: Store, base: States)
    returns (ok: bool, states: States, pending: PendingProbes, synthetic: set<Ref>)
    requires RowsHydrated(s, s.rows.Keys, base)
    ensures Durable(s) ==> ok && HydratedMemory(s, states, pending, synthetic)
  {
    hide Durable, HydratedMemory, RowsHydrated, ProbesHydrated;
    states, pending, synthetic := base, map[], {};
    var probes := s.probes;
    assert s.probes - probes == {};
    NoneHydrated(s, base);
    while probes != {}
      invariant probes <= s.probes
      invariant ProbesHydrated(s, s.probes - probes, base, states, pending, synthetic)
      decreases |probes|
    {
      var r :| r in probes;
      ok, states, pending, synthetic := HydrateProbe(s, s.probes - probes, base, states, pending, synthetic, r);
      if !ok {
        return;
      }
      assert s.probes - (probes - {r}) == (s.probes - probes) + {r};
      probes := probes - {r};
    }
    ok := true;
    assert s.probes - probes == s.probes;
    ghost var durable := Durable(s);
    if durable {
      AllHydrated(s, base, states, pending, synthetic);
    }
  }

  lemma NoneHydrated(s: Store, base: States)
    ensures ProbesHydrated(s, {}, base, base, map[], {})
  {
  }

  method HydrateProbe(s: Store, ghost done: set<Requirement>, ghost base: States,
                      states: States, pending: PendingProbes, synthetic: set<Ref>, r: Requirement)
    returns (ok: bool, states': States, pending': PendingProbes, synthetic': set<Ref>)
    requires RowsHydrated(s, s.rows.Keys, base) && r in s.probes && r !in done
    requires ProbesHydrated(s, done, base, states, pending, synthetic)
    ensures Durable(s) ==> ok
    ensures ok ==> ProbesHydrated(s, done + {r}, base, states', pending', synthetic')
  {
    states', pending', synthetic' := states, pending, synthetic;
    ghost var durable := Durable(s);
    if durable {
      FreshRequirement(s, done, base, states, pending, synthetic, r);
    }
    var ref := RequirementRef(r);
    if ref.version == 0 || r.attempts == 0 || MAX_ATTEMPTS < r.attempts || r.key in pending {
      return false, states, pending, synthetic;
    }
    if ref in states {
      if states[ref].attempts != r.attempts || !Ambiguous(states[ref].status) {
        return false, states, pending, synthetic;
      }
    } else {
      states' := states[ref := RetryState(Applying, r.attempts, None, None, "")];
      synthetic' := synthetic + {ref};
    }
    AddRequirement(s, done, base, states, synthetic, states', pending, synthetic', r);
    pending' := pending[r.key := ref];
    ok := true;
  }

  /** On a consistent store no check of the second pass can fail. */
  lemma FreshRequirement(s: Store, done: set<Requirement>, base: States,
                         states: States, pending: PendingProbes, synthetic: set<Ref>, r: Requirement)
    requires Durable(s) && RowsHydrated(s, s.rows.Keys, base)
    requires ProbesHydrated(s, done, base, states, pending, synthetic) && r in s.probes && r !in done
    ensures ValidRequirement(r) && r.key !in pending
    ensures RequirementRef(r) in states ==>
              states[RequirementRef(r)].attempts == r.attempts && Ambiguous(states[RequirementRef(r)].status)
  {
    assert SlotDurable(s, r.key.slot);
    assert forall q | q in done :: q.key.slot != r.key.slot;
  }

  lemma AddRequirement(s: Store, done: set<Requirement>, base: States, priorStates: States, priorSynthetic: set<Ref>,
                       states: States, pending: PendingProbes, synthetic: set<Ref>, r: Requirement)
    requires ProbesHydrated(s, done, base, priorStates, pending, priorSynthetic)
    requires r in s.probes && r !in done && r.key !in pending
    requires
      var ref := RequirementRef(r);
      if ref in priorStates then
        states == priorStates && synthetic == priorSynthetic && priorStates[ref].attempts == r.attempts
      else
        states == priorStates[ref := RetryState(Applying, r.attempts, None, None, "")] &&
        synthetic == priorSynthetic + {ref}
    ensures ProbesHydrated(s, done + {r}, base, states, pending[r.key := RequirementRef(r)], synthetic)
  {
    OneMore(done, base, r);
  }

  lemma AllHydrated(s: Store, base: States, states: States, pending: PendingProbes, synthetic: set<Ref>)
    requires Durable(s) && RowsHydrated(s, s.rows.Keys, base)
    requires ProbesHydrated(s, s.probes, base, states, pending, synthetic)
    ensures HydratedMemory(s, states, pending, synthetic)
  {
    AllSuperseded(s, base);
    hide SyntheticRefs, Superseded;
    forall slot | slot in s.rows
      ensures SlotDurable(s, slot)
    {
    }
  }

  lemma AllSuperseded(s: Store, base: States)
    requires RowsHydrated(s, s.rows.Keys, base)
    ensures Superseded(s.probes, base) == SyntheticRefs(s)
  {
  }
}
