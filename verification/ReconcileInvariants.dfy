/** What every step of the reconcile controller keeps between its memory, its durable
    store and its history, and how one durable transition moves all three. */
module ReconcileInvariants {
  import opened Basics
  import opened Addresses
  import opened Enforcement
  import opened ReconcileStore
  import opened ReconcileTrace
  import opened ReconcileMemory

  /** The current version of a slot, when the Desired snapshot has one. */
  function CurrentVersion(desired: Option<Desired>, slot: Slot): Option<nat> {
    if desired.None? then None
    else
      match slot
      case InfrastructureSlot => Some(desired.value.infrastructureRevision)
      case PolicySlot => Some(desired.value.policyRevision)
      case TargetSlot(t) => if t in desired.value.targets then Some(desired.value.targets[t].generation) else None
  }

  /** Published snapshots come from the database, whose revisions only grow. */
  predicate NotBehind(latest: Option<Desired>, d: Desired) {
    latest.Some? ==> Forward(latest.value, d)
  }

  /** A key of a published plan: infrastructure is fenced, and the version was published. */
  ghost predicate KnownKey(latest: Option<Desired>, key: ProbeKey) {
    && (key.fence.Some? <==> key.slot.InfrastructureSlot?)
    && CurrentVersion(latest, key.slot).Some?
    && key.version <= CurrentVersion(latest, key.slot).value
  }

  ghost predicate KnownRequirements(latest: Option<Desired>, probes: set<Requirement>) {
    forall r | r in probes :: KnownKey(latest, r.key)
  }

  ghost predicate KnownPending(latest: Option<Desired>, pending: PendingProbes) {
    forall key | key in pending :: KnownKey(latest, key)
  }

  lemma PendingIsKnown(latest: Option<Desired>, pending: PendingProbes, key: ProbeKey)
    requires KnownPending(latest, pending) && key in pending
    ensures KnownKey(latest, key)
  {
  }

  lemma NoneKnown(latest: Option<Desired>)
    ensures KnownRequirements(latest, OptionSet(None))
  {
  }

  lemma KnownLess(latest: Option<Desired>, pending: PendingProbes, key: ProbeKey, ref: Ref)
    requires KnownPending(latest, pending) && KnownKey(latest, key)
    ensures KnownPending(latest, pending - {key}) && KnownPending(latest, pending[key := ref])
  {
  }

  lemma StaysKnown(latest: Option<Desired>, d: Desired, key: ProbeKey)
    requires KnownKey(latest, key) && NotBehind(latest, d)
    ensures KnownKey(Some(d), key)
  {
  }

  // ----- invariants

  /** What holds of store and history whether or not the process is alive. */
  ghost predicate Safe(s: Store, trace: Trace, now: Time) {
    && Durable(s)
    && Unresolved(trace) <= s.probes
    && BarrierHeld(trace)
    && WithinBudget(s, trace)
    && BackoffHeld(trace)
    && LedgerCarriesBackoff(s, trace, now)
  }

  ghost predicate Synced(s: Store, states: States, pending: PendingProbes, synthetic: set<Ref>, trace: Trace, now: Time) {
    && InMemory(s, states, pending, synthetic)
    && MemoryCarriesBackoff(s, states, trace, now)
  }

  /** A confirmed generation is the current one, and a Probe saw that very intent. */
  ghost predicate Confirmations(desired: Option<Desired>, confirmed: map<Prefix, nat>, evidence: map<Prefix, Snapshot>,
                                trace: Trace) {
    forall t | t in confirmed ::
      && desired.Some? && t in desired.value.targets && confirmed[t] == desired.value.targets[t].generation
      && t in evidence && Probed(evidence[t]) in trace
      && PhysicalTargetMatches(evidence[t].targets, desired.value.targets[t])
  }

  /** What the controller may ask the store to write: it keeps the barrier, drops no
      requirement of an unresolved Apply that was not rejected, and carries the backoff forward. */
  ghost predicate Writable(s: Store, trace: Trace, now: Time, t: Transition) {
    Commit(s, t).Some? ==>
      && KeepsBarrier(s, t)
      && (t.DeleteOnly? ==> {t.gone} * Unresolved(trace) <= Refused(trace))
      && (t.WriteState? ==>
            && OptionSet(t.remove) * Unresolved(trace) <= Refused(trace)
            && (Ambiguous(t.row.state.status) ==>
                  CarriesBackoff(t.row.state, LastApply(trace, RowRef(t.slot, t.row)), now)))
  }

  /** What a persisted transition leaves: it stands in its slot, and memory is in step
      everywhere else. */
  ghost predicate Stands(s: Store, states: States, pending: PendingProbes, synthetic: set<Ref>, trace: Trace, now: Time,
                         t: Transition) {
    && (forall slot :: slot != SlotOf(t) ==> SlotMemory(s, states, pending, synthetic, slot))
    && SlotLoose(s, states, pending, synthetic, SlotOf(t))
    && BesideCarriesBackoff(s, states, trace, now, SlotOf(t))
    && (match t
        case DeleteOnly(_) =>
          Synced(s, states, pending, synthetic, trace, now) && RequirementsAt(s, SlotOf(t)) == {}
        case WriteState(slot, row, upsert, _) =>
          slot in s.rows && s.rows[slot] == row && RequirementsAt(s, slot) == OptionSet(upsert))
  }

  /** Ledger rows only move forward: never to an older version or epoch, never to a
      smaller attempt count, and to a larger one only in the slot `moving`. */
  ghost predicate Onward(s: Store, s': Store, moving: Option<Slot>) {
    forall slot :: slot in s.rows ==>
      && slot in s'.rows
      && AtMost(RowRef(slot, s.rows[slot]), RowRef(slot, s'.rows[slot]))
      && (RowRef(slot, s.rows[slot]) == RowRef(slot, s'.rows[slot]) ==>
            && s.rows[slot].state.attempts <= s'.rows[slot].state.attempts
            && (moving != Some(slot) ==> s.rows[slot].state.attempts == s'.rows[slot].state.attempts))
  }

  /** Over any stretch of time: rows stay, move forward and never lose attempts. */
  ghost predicate NeverFalls(s: Store, s': Store) {
    forall slot :: slot in s.rows ==>
      && slot in s'.rows
      && AtMost(RowRef(slot, s.rows[slot]), RowRef(slot, s'.rows[slot]))
      && (RowRef(slot, s.rows[slot]) == RowRef(slot, s'.rows[slot]) ==>
            s.rows[slot].state.attempts <= s'.rows[slot].state.attempts)
  }

  lemma NeverFallsItself(s: Store)
    ensures NeverFalls(s, s)
  {
  }

  lemma NeverFallsThrough(s: Store, s': Store, s'': Store, moving: Option<Slot>)
    requires NeverFalls(s, s') && Onward(s', s'', moving)
    ensures NeverFalls(s, s'')
  {
  }

  lemma OnwardItself(s: Store)
    ensures Onward(s, s, None)
  {
  }

  lemma OnwardThrough(s: Store, s': Store, s'': Store, moving: Option<Slot>, moving': Option<Slot>)
    requires Onward(s, s', moving) && Onward(s', s'', moving') && (moving.None? || moving'.None? || moving == moving')
    ensures Onward(s, s'', if moving.None? then moving' else moving)
  {
  }

  lemma ResetsOnward(s: Store, s': Store)
    requires ResetReach(s, s')
    ensures Onward(s, s', None)
  {
  }

  /** The slot in which a transition may raise an attempt count. */
  ghost function Raises(s: Store, t: Transition): Option<Slot> {
    if t.WriteState? && t.slot in s.rows && RowRef(t.slot, t.row) == RowRef(t.slot, s.rows[t.slot]) &&
       t.row.state.attempts != s.rows[t.slot].state.attempts
    then Some(t.slot)
    else None
  }

  lemma BegunOnward(s: Store, s': Store, t: Transition)
    requires Onward(s, s', Raises(s, t))
    ensures Onward(s, s', Some(SlotOf(t)))
  {
  }

  lemma SettledOnward(s: Store, s': Store, s'': Store, t: Transition)
    requires ResetReach(s, s') && Onward(s', s'', Raises(s', t)) && Raises(s', t).None?
    ensures Onward(s, s'', None)
  {
  }

  lemma CommitOnward(s: Store, t: Transition)
    requires Durable(s) && Commit(s, t).Some? && KeepsBarrier(s, t)
    ensures Onward(s, Commit(s, t).value, Raises(s, t))
  {
    CommitEffect(s, t);
  }

  lemma WritableKeepsBarrier(s: Store, trace: Trace, now: Time, t: Transition)
    requires Writable(s, trace, now, t) && Commit(s, t).Some?
    ensures KeepsBarrier(s, t)
  {
  }

  lemma AfterResets(s: Store, s': Store, states: States, pending: PendingProbes, synthetic: set<Ref>, trace: Trace, now: Time)
    requires Safe(s, trace, now) && ResetReach(s, s')
    ensures Safe(s', trace, now)
    ensures Synced(s, states, pending, synthetic, trace, now) ==> Synced(s', states, pending, synthetic, trace, now)
  {
    ResetReachKeepsDurable(s, s');
    ResetReachKeepsBudget(s, s', trace);
    ResetReachKeepsBackoff(s, s', trace, now);
    if Synced(s, states, pending, synthetic, trace, now) {
      ResetReachKeepsMemory(s, s', states, pending, synthetic);
      ResetReachKeepsMemoryBackoff(s, s', states, pending, synthetic, trace, now);
    }
  }

  /** A commit keeps everything that concerns store and history. */
  lemma CommitKeepsSafe(s: Store, trace: Trace, now: Time, t: Transition)
    requires Safe(s, trace, now) && Commit(s, t).Some? && Writable(s, trace, now, t)
    ensures Safe(Commit(s, t).value, trace + [Committed(t)], now)
  {
    Snoc(trace, Committed(t));
    CommitKeepsDurable(s, t);
    CommitKeepsBudget(s, t, trace);
    CommitKeepsBackoff(s, t, trace, now);
  }

  lemma CommitStands(s: Store, t: Transition, states: States, pending: PendingProbes, synthetic: set<Ref>, trace: Trace, now: Time)
    requires Safe(s, trace, now) && Synced(s, states, pending, synthetic, trace, now)
    requires Commit(s, t).Some? && KeepsBarrier(s, t)
    ensures Stands(Commit(s, t).value, states, pending, synthetic, trace + [Committed(t)], now, t)
  {
    CommitEffect(s, t);
    CommitKeepsOtherSlots(s, t, states, pending, synthetic);
    CommitKeepsOtherBackoff(s, t, states, pending, synthetic, trace, now);
  }

  lemma SafeIsDurable(s: Store, trace: Trace, now: Time)
    requires Safe(s, trace, now)
    ensures Durable(s)
  {
  }

  lemma ConfirmationsGrow(desired: Option<Desired>, confirmed: map<Prefix, nat>, evidence: map<Prefix, Snapshot>,
                          trace: Trace, e: Event)
    requires Confirmations(desired, confirmed, evidence, trace)
    ensures Confirmations(desired, confirmed, evidence, trace + [e])
  {
  }

  /** Recording a transition that the store already shows changes nothing that matters. */
  lemma NotedCommit(s: Store, states: States, pending: PendingProbes, synthetic: set<Ref>, trace: Trace, now: Time, t: Transition)
    requires Safe(s, trace, now) && TransitionApplied(s, t)
    ensures Safe(s, trace + [Committed(t)], now)
    ensures Synced(s, states, pending, synthetic, trace, now) ==>
              Synced(s, states, pending, synthetic, trace + [Committed(t)], now)
  {
    Snoc(trace, Committed(t));
    forall ref
      ensures Applies(trace + [Committed(t)], ref) <= Accounted(s, ref)
    {
      assert Applies(trace, ref) <= Accounted(s, ref);
    }
    if Synced(s, states, pending, synthetic, trace, now) {
      InMemoryAt(s, states, pending, synthetic, SlotOf(t));
    }
  }

  /** If the readback shows the transition, its slot holds exactly the written requirement. */
  lemma ShownInSlot(before: Store, s: Store, committed: bool, t: Transition)
    requires Durable(before) && Commit(before, t).Some? && KeepsBarrier(before, t)
    requires s.probes == (if committed then Commit(before, t).value.probes else before.probes) && TransitionApplied(s, t)
    ensures t.WriteState? ==> RequirementsAt(s, t.slot) == OptionSet(t.upsert)
    ensures t.DeleteOnly? ==> RequirementsAt(s, SlotOf(t)) == {}
  {
    CommitEffect(before, t);
    var slot := SlotOf(t);
    assert SlotDurable(before, slot);
    assert RequirementsAt(s, slot) == RequirementsAt(if committed then Commit(before, t).value else before, slot);
    if !committed && t.WriteState? {
      assert t.upsert.Some? ==> t.upsert.value in RequirementsAt(before, slot);
    }
  }

  /** Memory follows a persisted transition: once its row is known in its slot and the
      written requirement is the slot's only pending one, memory is in step again. */
  lemma Settled(s: Store, states: States, pending: PendingProbes, synthetic: set<Ref>, trace: Trace, now: Time, t: Transition,
                states': States, pending': PendingProbes, synthetic': set<Ref>)
    requires t.WriteState? && ValidTransition(t) && Stands(s, states, pending, synthetic, trace, now, t)
    requires forall ref: Ref | ref.slot != t.slot :: (ref in states' <==> ref in states) && (ref in states ==> states'[ref] == states[ref])
    requires forall ref | ref in states' && ref.slot == t.slot :: ref in states || AtMost(ref, RowRef(t.slot, t.row))
    requires
      var row := RowRef(t.slot, t.row);
      && row in states' && states'[row].attempts == t.row.state.attempts
      && (states'[row].status.Applying? ==> t.row.state.status.Applying?)
      && CarriesBackoff(states'[row], LastApply(trace, row), now) && Rested(states'[row], trace, row)
    requires synthetic' <= synthetic
    requires forall key: ProbeKey | key.slot != t.slot :: (key in pending' <==> key in pending) && (key in pending ==> pending'[key] == pending[key])
    requires forall key | key in pending' && key.slot == t.slot ::
      if t.upsert.Some? then key == t.upsert.value.key && pending'[key] == RowRef(t.slot, t.row)
      else key in pending && pending'[key] == pending[key]
    requires t.upsert.Some? ==> t.upsert.value.key in pending'
    ensures Synced(s, states', pending', synthetic', trace, now)
  {
    forall slot
      ensures SlotMemory(s, states', pending', synthetic', slot)
    {
      if slot != t.slot {
        assert SlotMemory(s, states, pending, synthetic, slot);
      } else {
        assert forall r | r in s.probes && r.key.slot == slot :: r in RequirementsAt(s, slot);
      }
    }
  }

  /** A pending key without a stored requirement may be forgotten. */
  lemma Forgotten(s: Store, states: States, pending: PendingProbes, synthetic: set<Ref>, trace: Trace, now: Time, key: ProbeKey)
    requires Synced(s, states, pending, synthetic, trace, now)
    requires RequirementsAt(s, key.slot) == {}
    ensures Synced(s, states, pending - {key}, synthetic, trace, now)
  {
    forall slot
      ensures SlotMemory(s, states, pending - {key}, synthetic, slot)
    {
      assert SlotMemory(s, states, pending, synthetic, slot);
      assert forall r | r in s.probes :: r in RequirementsAt(s, r.key.slot);
    }
  }

  /** A key whose slot has no other pending key may be barred again. */
  lemma Barred(s: Store, states: States, pending: PendingProbes, synthetic: set<Ref>, trace: Trace, now: Time,
               key: ProbeKey, ref: Ref)
    requires Synced(s, states, pending, synthetic, trace, now)
    requires ref.slot == key.slot && ref.version == key.version
    requires key.slot in s.rows && AtMost(ref, RowRef(key.slot, s.rows[key.slot]))
    requires forall k | k in pending && k.slot == key.slot :: k == key && pending[k] == ref
    ensures Synced(s, states, pending[key := ref], synthetic, trace, now)
  {
    var pending' := pending[key := ref];
    forall slot
      ensures SlotMemory(s, states, pending', synthetic, slot)
    {
      assert SlotMemory(s, states, pending, synthetic, slot);
    }
  }

  /** A superseded entry may be rewritten and leave the synthetic ones. */
  lemma Retired(s: Store, states: States, pending: PendingProbes, synthetic: set<Ref>, trace: Trace, now: Time,
                ref: Ref, state: RetryState)
    requires Synced(s, states, pending, synthetic, trace, now)
    requires RequirementsAt(s, ref.slot) == {}
    requires ref.slot in s.rows && Below(ref, RowRef(ref.slot, s.rows[ref.slot]))
    ensures Synced(s, states[ref := state], pending, synthetic - {ref}, trace, now)
  {
    var states' := states[ref := state];
    forall slot
      ensures SlotMemory(s, states', pending, synthetic - {ref}, slot)
    {
      assert SlotMemory(s, states, pending, synthetic, slot);
      assert forall r | r in s.probes :: r in RequirementsAt(s, r.key.slot);
    }
  }

  /** Rebuilding memory from a store that gained at most one requirement adds at most
      its key to the pending ones. */
  ghost predicate PendingWithin(pending: PendingProbes, pending': PendingProbes, upsert: Option<Requirement>) {
    forall key | key in pending' ::
      || (key in pending && pending'[key] == pending[key])
      || (upsert.Some? && key == upsert.value.key && pending'[key] == RequirementRef(upsert.value))
  }

  lemma HydratedWithin(s: Store, states: States, pending: PendingProbes, synthetic: set<Ref>, s': Store, states': States,
                       pending': PendingProbes, synthetic': set<Ref>, upsert: Option<Requirement>)
    requires InMemory(s, states, pending, synthetic) && s'.probes <= s.probes + OptionSet(upsert)
    requires Durable(s') && HydratedMemory(s', states', pending', synthetic')
    ensures PendingWithin(pending, pending', upsert)
  {
    forall key | key in pending'
      ensures (key in pending && pending'[key] == pending[key]) ||
              (upsert.Some? && key == upsert.value.key && pending'[key] == RequirementRef(upsert.value))
    {
      var r :| r in s'.probes && r.key == key;
      assert SlotMemory(s, states, pending, synthetic, key.slot);
    }
  }

  lemma HydratedKnown(latest: Option<Desired>, s: Store, states: States, pending: PendingProbes, synthetic: set<Ref>)
    requires Durable(s) && HydratedMemory(s, states, pending, synthetic) && KnownRequirements(latest, s.probes)
    ensures KnownPending(latest, pending)
  {
  }

  function Upserted(t: Transition): Option<Requirement> {
    if t.WriteState? then t.upsert else None
  }

  lemma CommittedProbes(s: Store, t: Transition)
    requires Commit(s, t).Some?
    ensures Commit(s, t).value.probes <= s.probes + OptionSet(Upserted(t))
  {
  }

  lemma CommitKnown(latest: Option<Desired>, s: Store, t: Transition)
    requires Commit(s, t).Some? && KnownRequirements(latest, s.probes) && KnownRequirements(latest, OptionSet(Upserted(t)))
    ensures KnownRequirements(latest, Commit(s, t).value.probes)
  {
  }

  lemma OnwardMore(s: Store, s': Store, moving: Option<Slot>, moving': Option<Slot>)
    requires Onward(s, s', moving) && (moving.None? || moving == moving')
    ensures Onward(s, s', moving')
  {
  }

  lemma SameWithin(pending: PendingProbes, states: States, t: Transition)
    ensures PendingWithin(pending, pending, Upserted(t)) && RowEntry(states, states, t)
  {
  }

  /** What a readback leaves of the row it wrote. */
  ghost predicate RowEntry(states: States, states': States, t: Transition) {
    t.WriteState? ==>
      || states' == states
      || (ValidRow(t.row) && RowRef(t.slot, t.row) in states' && states'[RowRef(t.slot, t.row)] == Hydrated(t.row.state))
  }

  lemma HydratedEntry(s: Store, states: States, states': States, pending': PendingProbes, synthetic': set<Ref>, t: Transition)
    requires Durable(s) && HydratedMemory(s, states', pending', synthetic') && TransitionApplied(s, t)
    ensures RowEntry(states, states', t)
  {
    assert SlotDurable(s, SlotOf(t));
  }

  lemma SyncedStands(s: Store, states: States, pending: PendingProbes, synthetic: set<Ref>, trace: Trace, now: Time, t: Transition)
    requires Synced(s, states, pending, synthetic, trace, now) && TransitionApplied(s, t)
    requires t.WriteState? ==> RequirementsAt(s, t.slot) == OptionSet(t.upsert)
    requires t.DeleteOnly? ==> RequirementsAt(s, SlotOf(t)) == {}
    ensures Stands(s, states, pending, synthetic, trace, now, t)
  {
    InMemoryAt(s, states, pending, synthetic, SlotOf(t));
  }

  // ----- one attempt

  /** beginAttemptLocked's admission test on a ledger entry. */
  predicate Admits(state: RetryState, now: Time) {
    && !(state.status.Degraded? || MAX_ATTEMPTS <= state.attempts)
    && !(state.status.RetryWaiting? && state.nextAttempt.Some? && now < state.nextAttempt.value)
  }

  function Begun(state: RetryState, now: Time): RetryState {
    RetryState(Applying, state.attempts + 1, Some(now), None, "")
  }

  ghost predicate Resolved(trace: Trace) {
    Unresolved(trace) == {}
  }

  /** Every unresolved Apply was rejected: a commit may resolve it. */
  ghost predicate Answered(trace: Trace) {
    Unresolved(trace) <= Refused(trace)
  }

  lemma NothingRemoved(t: Transition)
    requires t.WriteState? && t.remove.None?
    ensures Removed(t) == {}
  {
  }

  lemma ResolvedIsAnswered(trace: Trace)
    requires Resolved(trace)
    ensures Answered(trace)
  {
  }

  function AttemptOf(key: ProbeKey, ref: Ref, state: RetryState): Requirement {
    Requirement(key, ref.epoch, state.attempts)
  }

  lemma KnownMore(latest: Option<Desired>, pending: PendingProbes, key: ProbeKey, ref: Ref, state: RetryState)
    requires KnownPending(latest, pending) && KnownKey(latest, key)
    ensures KnownPending(latest, pending[key := ref])
    ensures KnownRequirements(latest, OptionSet(None)) && KnownRequirements(latest, OptionSet(Some(AttemptOf(key, ref, state))))
  {
  }

  /** An attempt that has begun and not yet finished: memory and store both show it. */
  ghost predicate Underway(s: Store, states: States, pending: PendingProbes, key: ProbeKey, ref: Ref, at: Time) {
    && ref.slot == key.slot && ref.version == key.version
    && key in pending && pending[key] == ref
    && ref in states && states[ref].status.Applying? && 1 <= states[ref].attempts <= MAX_ATTEMPTS
    && states[ref].lastAttempt == Some(at)
    && AttemptOf(key, ref, states[ref]) in s.probes
    && key.slot in s.rows
    && (RowRef(key.slot, s.rows[key.slot]) == ref ==> s.rows[key.slot].state == states[ref])
  }

  /** It may call Apply: the barrier, the budget and the backoff allow it. */
  ghost predicate Cleared(trace: Trace, key: ProbeKey, ref: Ref, state: RetryState, at: Time, resumed: bool) {
    && Resolved(trace)
    && Ahead(trace, AttemptOf(key, ref, state), at)
    && Applies(trace, ref) < state.attempts
    && ((!resumed || Ended(trace, ref)) && LastApply(trace, ref).Some? ==> Waited(LastApply(trace, ref).value, at))
  }

  lemma ClearedIsResolved(trace: Trace, key: ProbeKey, ref: Ref, state: RetryState, at: Time, resumed: bool)
    requires Cleared(trace, key, ref, state, at, resumed)
    ensures Resolved(trace)
  {
  }

  lemma UnderwayEntry(s: Store, states: States, pending: PendingProbes, key: ProbeKey, ref: Ref, at: Time)
    requires Underway(s, states, pending, key, ref, at)
    ensures ref in states && key in pending && pending[key] == ref && states[ref].lastAttempt == Some(at)
    ensures ref.slot == key.slot && ref.version == key.version && 1 <= states[ref].attempts <= MAX_ATTEMPTS
  {
  }

  /** Calling Apply for a cleared attempt keeps every promise of the history. */
  lemma ApplyKeepsSafe(s: Store, states: States, pending: PendingProbes, synthetic: set<Ref>, trace: Trace, now: Time,
                       key: ProbeKey, ref: Ref, at: Time, resumed: bool)
    requires Safe(s, trace, now) && Synced(s, states, pending, synthetic, trace, now) && at <= now
    requires Underway(s, states, pending, key, ref, at) && Cleared(trace, key, ref, states[ref], at, resumed)
    ensures
      var trace' := trace + [Applied(AttemptOf(key, ref, states[ref]), at, resumed)];
      Safe(s, trace', now) && Synced(s, states, pending, synthetic, trace', now)
  {
    var r := AttemptOf(key, ref, states[ref]);
    var e := Applied(r, at, resumed);
    Snoc(trace, e);
    assert SlotDurable(s, key.slot);
    assert RequirementRef(r) == ref;
    forall q
      ensures Applies(trace + [e], q) <= Accounted(s, q)
    {
      assert Applies(trace, q) <= Accounted(s, q);
    }
  }

  lemma ProbeKeepsSafe(s: Store, states: States, pending: PendingProbes, synthetic: set<Ref>, trace: Trace, now: Time,
                       snapshot: Snapshot)
    requires Safe(s, trace, now)
    ensures Safe(s, trace + [Probed(snapshot)], now) && Resolved(trace + [Probed(snapshot)])
    ensures Synced(s, states, pending, synthetic, trace, now) ==>
              Synced(s, states, pending, synthetic, trace + [Probed(snapshot)], now)
  {
    Snoc(trace, Probed(snapshot));
    forall q
      ensures Applies(trace + [Probed(snapshot)], q) <= Accounted(s, q)
    {
      assert Applies(trace, q) <= Accounted(s, q);
    }
  }

  lemma RejectionKeepsSafe(s: Store, states: States, pending: PendingProbes, synthetic: set<Ref>, trace: Trace, now: Time,
                           r: Requirement)
    requires Safe(s, trace, now) && Synced(s, states, pending, synthetic, trace, now) && Unresolved(trace) <= {r}
    ensures Safe(s, trace + [Rejected(r)], now) && Answered(trace + [Rejected(r)])
    ensures Synced(s, states, pending, synthetic, trace + [Rejected(r)], now)
  {
    Snoc(trace, Rejected(r));
    forall q
      ensures Applies(trace + [Rejected(r)], q) <= Accounted(s, q)
    {
      assert Applies(trace, q) <= Accounted(s, q);
    }
  }

  /** Other transactions leave an attempt under way. */
  lemma StaysUnderway(s: Store, s': Store, states: States, pending: PendingProbes, key: ProbeKey, ref: Ref, at: Time,
                      trace: Trace, now: Time)
    requires Underway(s, states, pending, key, ref, at) && ResetReach(s, s') && Safe(s', trace, now)
    ensures Underway(s', states, pending, key, ref, at)
  {
    assert SlotDurable(s', key.slot);
  }

  // ----- the transitions of one attempt

  function Entry(states: States, ref: Ref): RetryState {
    if ref in states then states[ref] else CLEAN
  }

  /** What memory knows of a ledger key that the store would not refuse as a regression:
      its attempts, its Apply calls and its backoff. */
  lemma OwnEntry(s: Store, states: States, pending: PendingProbes, synthetic: set<Ref>, trace: Trace, now: Time, ref: Ref)
    requires Safe(s, trace, now) && Synced(s, states, pending, synthetic, trace, now)
    requires ref.slot in s.rows ==> !Below(ref, RowRef(ref.slot, s.rows[ref.slot]))
    ensures ref in states ==> ref.slot in s.rows && RowRef(ref.slot, s.rows[ref.slot]) == ref
    ensures ref.slot in s.rows && RowRef(ref.slot, s.rows[ref.slot]) == ref ==>
              && Entry(states, ref).attempts == s.rows[ref.slot].state.attempts
              && (Entry(states, ref).status.Applying? ==> s.rows[ref.slot].state.status.Applying?)
    ensures Applies(trace, ref) <= Entry(states, ref).attempts
    ensures CarriesBackoff(Entry(states, ref), LastApply(trace, ref), now) && Rested(Entry(states, ref), trace, ref)
  {
    InMemoryAt(s, states, pending, synthetic, ref.slot);
    assert Applies(trace, ref) <= Accounted(s, ref);
    if ref !in states {
      NeverApplied(trace, ref);
    }
  }

  lemma Accepted(s: Store, t: Transition)
    requires t.WriteState? && Commit(s, t).Some?
    ensures ValidTransition(t) && (t.slot in s.rows ==> !Below(RowRef(t.slot, t.row), RowRef(t.slot, s.rows[t.slot])))
    ensures t.remove.Some? ==> t.remove.value in s.probes
  {
  }

  /** The write-ahead transition of an attempt is one the controller may write, and
      clears the attempt for Apply. */
  lemma BeginWritable(s: Store, states: States, pending: PendingProbes, synthetic: set<Ref>, trace: Trace, now: Time,
                      key: ProbeKey, ref: Ref, t: Transition)
    requires Safe(s, trace, now) && Synced(s, states, pending, synthetic, trace, now) && Resolved(trace)
    requires ref.slot == key.slot && ref.version == key.version
    requires forall k | k in pending && k.slot == key.slot :: k == key
    requires key in pending ==> pending[key] in states
    requires Admits(Entry(states, ref), now)
    requires t == WriteState(key.slot, Row(ref.version, ref.epoch, Begun(Entry(states, ref), now)),
                             Some(AttemptOf(key, ref, Begun(Entry(states, ref), now))),
                             if key in pending then Some(AttemptOf(key, pending[key], states[pending[key]])) else None)
    ensures Writable(s, trace, now, t)
    ensures Commit(s, t).Some? ==>
              Cleared(trace + [Committed(t)], key, ref, t.row.state, now, Entry(states, ref).status.Applying?)
  {
    if Commit(s, t).Some? {
      Accepted(s, t);
      var state := Entry(states, ref);
      var last := LastApply(trace, ref);
      OwnEntry(s, states, pending, synthetic, trace, now, ref);
      Snoc(trace, Committed(t));
      assert RowRef(t.slot, t.row) == ref;
      assert KeepsBarrier(s, t) by {
        InMemoryAt(s, states, pending, synthetic, key.slot);
      }
      if last.Some? && state.attempts + 1 < MAX_ATTEMPTS {
        DelayGrows(last.value.attempts, state.attempts + 1);
      }
      assert WritesAhead(t, AttemptOf(key, ref, t.row.state), now);
    }
  }

  /** An attempt's entry once it has failed: degraded, or waiting out its delay from now. */
  ghost predicate Ends(states: States, ref: Ref, state: RetryState, at: Time, now: Time) {
    && ref in states && state.attempts == states[ref].attempts && state.lastAttempt == Some(at)
    && (state.status.Degraded? ||
        (state.status.RetryWaiting? && 1 <= state.attempts < MAX_ATTEMPTS &&
         state.nextAttempt == Some(now + Delay(state.attempts))))
  }

  lemma EndsIsNotApplying(states: States, ref: Ref, state: RetryState, at: Time, now: Time)
    requires Ends(states, ref, state, at, now)
    ensures !state.status.Applying?
  {
  }

  /** So is the transition that ends an attempt under way with a deadline or degraded. */
  lemma FailureWritable(s: Store, states: States, pending: PendingProbes, synthetic: set<Ref>, trace: Trace, now: Time,
                        key: ProbeKey, ref: Ref, at: Time, state: RetryState, requireProbe: bool, t: Transition)
    requires Safe(s, trace, now) && Synced(s, states, pending, synthetic, trace, now)
    requires Underway(s, states, pending, key, ref, at) && (!requireProbe ==> Answered(trace))
    requires Ends(states, ref, state, at, now)
    requires var r := AttemptOf(key, ref, state);
             t == WriteState(key.slot, Row(ref.version, ref.epoch, state),
                             if requireProbe then Some(r) else None, if requireProbe then None else Some(r))
    ensures Writable(s, trace, now, t) && Raises(s, t) == None
  {
    OnlyRequirement(s, states, pending, key, ref, at);
    if key.slot in s.rows ==> !Below(ref, RowRef(ref.slot, s.rows[ref.slot])) {
      OwnEntry(s, states, pending, synthetic, trace, now, ref);
      var last := LastApply(trace, ref);
      if last.Some? && state.status.RetryWaiting? {
        DelayGrows(last.value.attempts, state.attempts);
      }
      assert RowRef(t.slot, t.row) == ref;
    }
  }

  lemma OnlyRequirement(s: Store, states: States, pending: PendingProbes, key: ProbeKey, ref: Ref, at: Time)
    requires Durable(s) && Underway(s, states, pending, key, ref, at)
    ensures RequirementsAt(s, key.slot) == {AttemptOf(key, ref, states[ref])}
    ensures AtMost(ref, RowRef(key.slot, s.rows[key.slot]))
  {
    assert SlotDurable(s, key.slot);
  }

  /** So is a transition that settles a requirement after a Probe: the key's own entry
      becomes converged or pending again, or a later epoch's entry is kept as it is. */
  lemma ClearWritable(s: Store, states: States, pending: PendingProbes, synthetic: set<Ref>, trace: Trace, now: Time,
                      key: ProbeKey, ref: Ref, stateRef: Ref, state: RetryState, t: Transition)
    requires Safe(s, trace, now) && Synced(s, states, pending, synthetic, trace, now) && Resolved(trace)
    requires ref in states && ref.slot == key.slot && ref.version == key.version
    requires stateRef.slot == key.slot && state.attempts == Entry(states, stateRef).attempts
    requires !Ambiguous(state.status) || (stateRef != ref && state == Entry(states, stateRef))
    requires t == WriteState(key.slot, Row(stateRef.version, stateRef.epoch, state), None, Some(AttemptOf(key, ref, states[ref])))
    ensures Writable(s, trace, now, t) && Raises(s, t) == None
    ensures Commit(s, t).Some? ==> Rested(state, trace + [Committed(t)], stateRef)
  {
    Snoc(trace, Committed(t));
    assert RowRef(t.slot, t.row) == stateRef;
    if key.slot in s.rows ==> !Below(stateRef, RowRef(key.slot, s.rows[key.slot])) {
      OwnEntry(s, states, pending, synthetic, trace, now, stateRef);
      assert SlotDurable(s, key.slot);
    }
  }

  /** So is one that records convergence in a slot without requirements. */
  lemma ConvergeWritable(s: Store, states: States, pending: PendingProbes, synthetic: set<Ref>, trace: Trace, now: Time,
                         ref: Ref, state: RetryState, t: Transition)
    requires Safe(s, trace, now) && Synced(s, states, pending, synthetic, trace, now) && RequirementsAt(s, ref.slot) == {}
    requires state.attempts == Entry(states, ref).attempts && state.status.Converged?
    requires t == WriteState(ref.slot, Row(ref.version, ref.epoch, state), None, None)
    ensures Writable(s, trace, now, t) && Raises(s, t) == None
  {
    if ref.slot in s.rows ==> !Below(ref, RowRef(ref.slot, s.rows[ref.slot])) {
      OwnEntry(s, states, pending, synthetic, trace, now, ref);
    }
  }

  /** So is dropping a requirement that a newer row has superseded. */
  lemma DropWritable(s: Store, trace: Trace, now: Time, r: Requirement)
    requires Resolved(trace) && r.key.slot in s.rows && Below(RequirementRef(r), RowRef(r.key.slot, s.rows[r.key.slot]))
    ensures Writable(s, trace, now, DeleteOnly(r))
  {
  }

  /** The write-ahead transition of an attempt for `key`. */
  ghost predicate Begins(key: ProbeKey, ref: Ref, t: Transition, now: Time) {
    && t.WriteState? && t.slot == key.slot && ref == RowRef(t.slot, t.row) && ref.version == key.version
    && t.upsert == Some(AttemptOf(key, ref, t.row.state))
    && t.row.state.status.Applying? && t.row.state.lastAttempt == Some(now)
  }

  /** Once its write-ahead stands and memory follows, the attempt is under way. */
  lemma BeginSettled(s: Store, states: States, known: PendingProbes, pending: PendingProbes, synthetic: set<Ref>,
                     trace: Trace, now: Time, key: ProbeKey, ref: Ref, t: Transition, synthetic': set<Ref>, resumed: bool)
    requires Begins(key, ref, t, now) && ValidTransition(t) && Cleared(trace, key, ref, t.row.state, now, resumed)
    requires Safe(s, trace, now) && Stands(s, states, pending, synthetic, trace, now, t)
    requires PendingWithin(known, pending, t.upsert) && (forall k | k in known && k.slot == key.slot :: k == key)
    requires synthetic' <= synthetic
    ensures Synced(s, states[ref := t.row.state], pending[key := ref], synthetic', trace, now)
    ensures Underway(s, states[ref := t.row.state], pending[key := ref], key, ref, now)
  {
    assert t.upsert.value in RequirementsAt(s, key.slot);
    Settled(s, states, pending, synthetic, trace, now, t, states[ref := t.row.state], pending[key := ref], synthetic');
  }

  /** The transition of an attempt under way adds no other pending key to its slot. */
  ghost predicate Reinstatable(s: Store, pending: PendingProbes, key: ProbeKey, ref: Ref) {
    && key.slot in s.rows && AtMost(ref, RowRef(key.slot, s.rows[key.slot]))
    && (forall k | k in pending && k.slot == key.slot :: k == key && pending[k] == ref)
  }

  lemma ReinstateReady(s: Store, states: States, pending: PendingProbes, synthetic: set<Ref>, trace: Trace, now: Time,
                       key: ProbeKey, ref: Ref, at: Time)
    requires Synced(s, states, pending, synthetic, trace, now) && Underway(s, states, pending, key, ref, at)
    ensures Reinstatable(s, pending, key, ref)
  {
    InMemoryAt(s, states, pending, synthetic, key.slot);
  }

  lemma StillReady(s: Store, s': Store, known: PendingProbes, pending: PendingProbes, key: ProbeKey, ref: Ref, t: Transition)
    requires Reinstatable(s, known, key, ref) && Onward(s, s', Raises(s, t))
    requires Upserted(t).Some? ==> Upserted(t).value.key == key && RequirementRef(Upserted(t).value) == ref
    ensures PendingWithin(known, pending, Upserted(t)) ==> Reinstatable(s', pending, key, ref)
  {
  }

  lemma FailureSettled(before: Store, s: Store, states: States, known: PendingProbes, pending: PendingProbes,
                       synthetic: set<Ref>, trace: Trace, now: Time, key: ProbeKey, ref: Ref, t: Transition)
    requires t.WriteState? && t.slot == key.slot && ref == RowRef(t.slot, t.row) && ref.version == key.version
    requires !t.row.state.status.Applying?
    requires ValidTransition(t) && (t.upsert.Some? ==> t.upsert.value.key == key)
    requires Safe(s, trace, now) && Stands(s, states, pending, synthetic, trace, now, t)
    requires PendingWithin(known, pending, t.upsert) && Reinstatable(before, known, key, ref)
    ensures Synced(s, states[ref := t.row.state], if t.upsert.Some? then pending[key := ref] else pending - {key}, synthetic,
                   trace, now)
  {
    var pending' := if t.upsert.Some? then pending[key := ref] else pending - {key};
    Settled(s, states, pending, synthetic, trace, now, t, states[ref := t.row.state], pending', synthetic);
  }

  // ----- settling a requirement

  lemma PendingItself(pending: PendingProbes)
    ensures PendingWithin(pending, pending, None)
  {
  }

  lemma ResolvedSame(trace: Trace, trace': Trace)
    requires Resolved(trace) && Unresolved(trace') <= Unresolved(trace)
    ensures Resolved(trace')
  {
  }

  lemma EntryIsBehind(s: Store, states: States, pending: PendingProbes, synthetic: set<Ref>, trace: Trace, now: Time, ref: Ref)
    requires Synced(s, states, pending, synthetic, trace, now) && ref in states
    ensures ref.slot in s.rows && AtMost(ref, RowRef(ref.slot, s.rows[ref.slot]))
  {
    InMemoryAt(s, states, pending, synthetic, ref.slot);
  }

  /** The row has moved past a superseded entry, and past the version of any other key
      that memory holds for the current version. */
  lemma NewerRow(latest: Option<Desired>, s: Store, states: States, pending: PendingProbes, synthetic: set<Ref>, trace: Trace,
                 now: Time, key: ProbeKey, ref: Ref, current: Ref)
    requires Synced(s, states, pending, synthetic, trace, now) && KnownKey(latest, key)
    requires ref in states && ref.slot == key.slot && ref.version == key.version
    requires ref in synthetic ||
             (current in states && current.slot == key.slot && Some(current.version) == CurrentVersion(latest, key.slot) &&
              current.version != ref.version)
    ensures key.slot in s.rows && Below(ref, RowRef(key.slot, s.rows[key.slot]))
  {
    InMemoryAt(s, states, pending, synthetic, key.slot);
  }

  lemma DropOnward(s: Store, s': Store, t: Transition)
    requires t.DeleteOnly? && Onward(s, s', Raises(s, t))
    ensures Onward(s, s', None)
  {
  }

  lemma DropSettled(before: Store, s: Store, states: States, pending: PendingProbes, synthetic: set<Ref>, trace: Trace,
                    now: Time, t: Transition, ref: Ref, state: RetryState)
    requires t.DeleteOnly? && t.gone.key.slot == ref.slot && Stands(s, states, pending, synthetic, trace, now, t)
    requires ref.slot in before.rows && Below(ref, RowRef(ref.slot, before.rows[ref.slot])) && Onward(before, s, None)
    ensures Synced(s, states[ref := state], pending, synthetic - {ref}, trace, now) && RequirementsAt(s, ref.slot) == {}
  {
    Retired(s, states, pending, synthetic, trace, now, ref, state);
  }

  lemma ClearSettled(before: Store, s: Store, entries: States, states: States, pending: PendingProbes, synthetic: set<Ref>,
                     trace: Trace, now: Time, key: ProbeKey, ref: Ref, stateRef: Ref, stale: RetryState, t: Transition)
    requires t.WriteState? && t.slot == key.slot && t.upsert.None? && ValidTransition(t) && stateRef == RowRef(t.slot, t.row)
    requires Safe(s, trace, now) && Stands(s, states, pending, synthetic, trace, now, t) && RowEntry(entries, states, t)
    requires ref.slot == key.slot && key.slot in before.rows && AtMost(ref, RowRef(key.slot, before.rows[key.slot]))
    requires Onward(before, s, None)
    requires if stateRef == ref then stale == t.row.state else stateRef in entries && entries[stateRef] == t.row.state
    requires Rested(t.row.state, trace, stateRef)
    ensures Synced(s, states[ref := stale], pending, synthetic - {ref}, trace, now) && RequirementsAt(s, key.slot) == {}
  {
    if stateRef != ref {
      HydratedCarriesBackoff(t.row.state, LastApply(trace, stateRef), now);
    }
    Settled(s, states, pending, synthetic, trace, now, t, states[ref := stale], pending, synthetic - {ref});
  }

  lemma ConvergeSettled(s: Store, states: States, pending: PendingProbes, synthetic: set<Ref>, trace: Trace, now: Time,
                        t: Transition, synthetic': set<Ref>)
    requires t.WriteState? && t.upsert.None? && ValidTransition(t) && synthetic' <= synthetic && !t.row.state.status.Applying?
    requires Safe(s, trace, now) && Stands(s, states, pending, synthetic, trace, now, t)
    ensures Synced(s, states[RowRef(t.slot, t.row) := t.row.state], pending, synthetic', trace, now)
    ensures RequirementsAt(s, t.slot) == {}
  {
    Settled(s, states, pending, synthetic, trace, now, t, states[RowRef(t.slot, t.row) := t.row.state], pending, synthetic');
  }

  lemma PendingLess(known: PendingProbes, pending: PendingProbes, key: ProbeKey)
    requires PendingWithin(known, pending, None)
    ensures PendingWithin(known, pending - {key}, None)
  {
  }

  lemma PendingThrough(known: PendingProbes, pending: PendingProbes, pending': PendingProbes)
    requires PendingWithin(known, pending, None) && PendingWithin(pending, pending', None)
    ensures PendingWithin(known, pending', None)
  {
  }

  ghost predicate Keyed(pending: PendingProbes) {
    forall key | key in pending :: pending[key].slot == key.slot && pending[key].version == key.version
  }

  lemma KeyedEntries(s: Store, states: States, pending: PendingProbes, synthetic: set<Ref>, trace: Trace, now: Time)
    requires Synced(s, states, pending, synthetic, trace, now)
    ensures Keyed(pending)
  {
    forall key | key in pending
      ensures pending[key].slot == key.slot && pending[key].version == key.version
    {
      InMemoryAt(s, states, pending, synthetic, key.slot);
    }
  }

  lemma KeyedAt(pending: PendingProbes, key: ProbeKey)
    requires Keyed(pending) && key in pending
    ensures pending[key].slot == key.slot && pending[key].version == key.version
  {
  }

  /** Where nothing is pending, nothing bars. */
  lemma NothingPending(s: Store, states: States, pending: PendingProbes, synthetic: set<Ref>, trace: Trace, now: Time, slot: Slot)
    requires Synced(s, states, pending, synthetic, trace, now) && (forall key | key in pending :: key.slot != slot)
    ensures RequirementsAt(s, slot) == {}
  {
    InMemoryAt(s, states, pending, synthetic, slot);
  }

  /** And if nothing at all is pending, every Apply is resolved. */
  lemma NothingUnresolved(s: Store, states: States, pending: PendingProbes, synthetic: set<Ref>, trace: Trace, now: Time)
    requires Safe(s, trace, now) && Synced(s, states, pending, synthetic, trace, now) && pending == map[]
    ensures Resolved(trace)
  {
    forall r | r in Unresolved(trace)
      ensures false
    {
      InMemoryAt(s, states, pending, synthetic, r.key.slot);
    }
  }

  lemma StaysUnbarred(s: Store, s': Store, slot: Slot)
    requires RequirementsAt(s, slot) == {} && ResetReach(s, s')
    ensures RequirementsAt(s', slot) == {}
  {
    assert RequirementsAt(s', slot) == RequirementsAt(s, slot);
  }

  lemma StillReinstatable(s: Store, s': Store, known: PendingProbes, pending: PendingProbes, key: ProbeKey, ref: Ref)
    requires Reinstatable(s, known, key, ref) && Onward(s, s', None)
    ensures PendingWithin(known, pending, None) ==> Reinstatable(s', pending, key, ref)
  {
  }

  function SlotsOf(pending: PendingProbes): set<Slot> {
    set key | key in pending :: key.slot
  }

  lemma WithinSlots(known: PendingProbes, pending: PendingProbes)
    requires PendingWithin(known, pending, None)
    ensures SlotsOf(pending) <= SlotsOf(known)
  {
  }

  lemma NothingDrifted(known: PendingProbes, pending: PendingProbes, s: Store, states: States, synthetic: set<Ref>,
                       trace: Trace, now: Time, slot: Slot)
    requires Synced(s, states, pending, synthetic, trace, now) && PendingWithin(known, pending, None)
    requires slot !in SlotsOf(known)
    ensures RequirementsAt(s, slot) == {}
  {
    forall key | key in pending
      ensures key.slot != slot
    {
      assert key in known;
    }
    NothingPending(s, states, pending, synthetic, trace, now, slot);
  }

  // ----- administrator retries and restarts

  /** markPendingRefsSupersededLocked: pending entries of the same version that the new
      epoch replaces. */
  function SupersededBy(pending: PendingProbes, ref: Ref): set<Ref> {
    set key | key in pending && pending[key].slot == ref.slot && pending[key].version == ref.version && pending[key] != ref ::
      pending[key]
  }

  /** A committed retry epoch keeps what is safe; with its entry and the superseded ones in
      memory, memory stays in step. */
  lemma RetryKeepsSafe(s: Store, states: States, pending: PendingProbes, synthetic: set<Ref>, trace: Trace, now: Time,
                       ref: Ref, previous: nat, synthetic': set<Ref>)
    requires Safe(s, trace, now) && Synced(s, states, pending, synthetic, trace, now) && CommitRetry(s, ref, previous).Some?
    requires synthetic' == synthetic || synthetic' == synthetic + SupersededBy(pending, ref)
    ensures var s' := CommitRetry(s, ref, previous).value;
            && Safe(s', trace, now) && Onward(s, s', None) && s'.probes == s.probes && ref in s'.audits
            && Synced(s', states[ref := CLEAN], pending, synthetic', trace, now)
  {
    var s' := CommitRetry(s, ref, previous).value;
    RetryKeepsDurable(s, ref, previous);
    RetryKeepsBudget(s, ref, previous, trace);
    RetryKeepsBackoff(s, ref, previous, trace, now);
    var states' := states[ref := CLEAN];
    forall slot
      ensures SlotMemory(s', states', pending, synthetic', slot)
    {
      RetriedSlot(s, states, pending, synthetic, ref, previous, synthetic', slot);
    }
    RetriedBackoff(s, states, pending, synthetic, trace, now, ref, previous);
  }

  lemma RetriedSlot(s: Store, states: States, pending: PendingProbes, synthetic: set<Ref>, ref: Ref, previous: nat,
                    synthetic': set<Ref>, slot: Slot)
    requires Durable(s) && InMemory(s, states, pending, synthetic) && CommitRetry(s, ref, previous).Some?
    requires synthetic' == synthetic || synthetic' == synthetic + SupersededBy(pending, ref)
    ensures SlotMemory(CommitRetry(s, ref, previous).value, states[ref := CLEAN], pending, synthetic', slot)
  {
    var s' := CommitRetry(s, ref, previous).value;
    RetryKeepsDurable(s, ref, previous);
    InMemoryAt(s, states, pending, synthetic, slot);
    SupersededAreBehind(s, states, pending, synthetic, ref);
    assert s'.probes == s.probes && s'.rows == s.rows[ref.slot := RetryRow(ref)];
    hide Durable, InMemory, SupersededBy, CommitRetry;
    if slot == ref.slot && slot in s.rows {
      LooseForward(s, s', states, pending, synthetic, slot);
    }
  }

  lemma SupersededAreBehind(s: Store, states: States, pending: PendingProbes, synthetic: set<Ref>, ref: Ref)
    requires InMemory(s, states, pending, synthetic)
    ensures forall r | r in SupersededBy(pending, ref) ::
              ref.slot in s.rows && r.slot == ref.slot && AtMost(r, RowRef(ref.slot, s.rows[ref.slot]))
  {
    forall r | r in SupersededBy(pending, ref)
      ensures ref.slot in s.rows && r.slot == ref.slot && AtMost(r, RowRef(ref.slot, s.rows[ref.slot]))
    {
      var key :| key in pending && pending[key] == r;
      InMemoryAt(s, states, pending, synthetic, key.slot);
    }
  }

  lemma RetriedBackoff(s: Store, states: States, pending: PendingProbes, synthetic: set<Ref>, trace: Trace, now: Time,
                       ref: Ref, previous: nat)
    requires Safe(s, trace, now) && Synced(s, states, pending, synthetic, trace, now) && CommitRetry(s, ref, previous).Some?
    ensures MemoryCarriesBackoff(CommitRetry(s, ref, previous).value, states[ref := CLEAN], trace, now)
  {
    RetryKeepsBudget(s, ref, previous, trace);
    CleanRowOwesNothing(CommitRetry(s, ref, previous).value, trace, ref.slot, now);
  }

  /** The same, when the epoch was read back and memory rebuilt from it. */
  lemma RetryRead(s: Store, states: States, pending: PendingProbes, synthetic: set<Ref>, trace: Trace, now: Time, ref: Ref)
    requires Safe(s, trace, now) && Synced(s, states, pending, synthetic, trace, now) && ReadRetry(s, ref) == Some(true)
    ensures Synced(s, states[ref := CLEAN], pending, synthetic + SupersededBy(pending, ref), trace, now) && ref in s.audits
  {
    CleanRowOwesNothing(s, trace, ref.slot, now);
    var states' := states[ref := CLEAN];
    forall slot
      ensures SlotMemory(s, states', pending, synthetic + SupersededBy(pending, ref), slot)
    {
      InMemoryAt(s, states, pending, synthetic, slot);
      assert SlotDurable(s, slot);
      SupersededAreBehind(s, states, pending, synthetic, ref);
    }
  }

  lemma HydratedSynced(s: Store, states: States, pending: PendingProbes, synthetic: set<Ref>, trace: Trace, now: Time)
    requires Durable(s) && HydratedMemory(s, states, pending, synthetic) && Safe(s, trace, now)
    ensures Synced(s, states, pending, synthetic, trace, now)
  {
    HydratedInMemory(s, states, pending, synthetic);
    HydratedMemoryCarriesBackoff(s, states, pending, synthetic, trace, now);
  }

  lemma ReopenKeepsSafe(s: Store, trace: Trace, now: Time)
    requires Safe(s, trace, now)
    ensures Safe(s, trace + [Reopened], now)
  {
    Snoc(trace, Reopened);
    forall ref
      ensures Applies(trace + [Reopened], ref) <= Accounted(s, ref)
    {
      assert Applies(trace, ref) <= Accounted(s, ref);
    }
  }

  lemma NothingConfirmed(trace: Trace)
    ensures Confirmations(None, map[], map[], trace)
  {
  }

  /** However often and whenever the process restarts on one database state, it rebuilds
      the same deadlines, the same pending requirements and the same placeholders. */
  lemma RestartsAgree(s: Store, states: States, pending: PendingProbes, synthetic: set<Ref>,
                      states': States, pending': PendingProbes, synthetic': set<Ref>)
    requires Durable(s) && HydratedMemory(s, states, pending, synthetic) && HydratedMemory(s, states', pending', synthetic')
    ensures pending == pending' && synthetic == synthetic'
    ensures forall slot | slot in s.rows :: states[RowRef(slot, s.rows[slot])] == states'[RowRef(slot, s.rows[slot])]
  {
    forall key
      ensures key in pending <==> key in pending'
      ensures key in pending ==> pending[key] == pending'[key]
    {
    }
  }

  // ----- when an attempt waits out its backoff

  /** An entry left Applying, because its last transition was not stored, is admitted at once. */
  lemma LeftApplyingIsAdmitted(at: Time)
    ensures var s := RetryState(Applying, 1, Some(at), None, "");
            && ValidState(s) == (0 < at)
            && CarriesBackoff(s, Some(Attempt(1, at)), at) && Admits(s, at) && !Waited(Attempt(1, at), at)
  {
  }

  /** For every entry that carries the backoff of its key's last Apply, admission waits it
      out if and only if the entry is not Applying, has no attempts left, or the delay has
      already passed. */
  lemma AdmissionWaitsExactlyWhen(s: RetryState, last: Attempt, now: Time)
    requires s.attempts <= MAX_ATTEMPTS && CarriesBackoff(s, Some(last), now)
    ensures (forall t | now <= t :: Admits(s, t) ==> Waited(last, t)) <==>
              (!s.status.Applying? || s.attempts == MAX_ATTEMPTS || Waited(last, now))
  {
    if s.status.Applying? && s.attempts < MAX_ATTEMPTS {
      assert Admits(s, now);
    }
  }

  /** The ledger row shows the entry, and a requirement stands for it or none does. */
  ghost predicate Recorded(s: Store, key: ProbeKey, ref: Ref, state: RetryState, barred: bool) {
    && key.slot in s.rows && s.rows[key.slot] == Row(ref.version, ref.epoch, state)
    && RequirementsAt(s, key.slot) == (if barred then {AttemptOf(key, ref, state)} else {})
  }

  lemma RowStands(s: Store, states: States, pending: PendingProbes, synthetic: set<Ref>, trace: Trace, now: Time, t: Transition)
    requires t.WriteState? && Stands(s, states, pending, synthetic, trace, now, t)
    ensures t.slot in s.rows && s.rows[t.slot] == t.row
  {
  }

  lemma RecordedWhen(s: Store, states: States, pending: PendingProbes, synthetic: set<Ref>, trace: Trace, now: Time,
                     key: ProbeKey, ref: Ref, t: Transition)
    requires t.WriteState? && t.slot == key.slot && ref == RowRef(t.slot, t.row)
    requires t.upsert.Some? ==> t.upsert.value == AttemptOf(key, ref, t.row.state)
    requires Stands(s, states, pending, synthetic, trace, now, t)
    ensures Recorded(s, key, ref, t.row.state, t.upsert.Some?)
  {
  }
}
