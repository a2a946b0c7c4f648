/** The durable retry ledger and Probe requirements of one node
    (internal/core/reconcile_persistence.go, internal/store/reconcile_state.go), and
    what a restarted controller rebuilds from them
    (internal/reconcile/persistence.go). */
module ReconcileStore {
  import opened Basics
  import opened Addresses

  /** One retry ledger row: infrastructure, policy, or one target. */
  datatype Slot = InfrastructureSlot | PolicySlot | TargetSlot(prefix: Prefix)

  /** A retry key: the revision or generation and the administrator epoch. */
  datatype Ref = Ref(slot: Slot, version: nat, epoch: nat)

  /** pendingProbeKey. Only infrastructure carries a snapshot fence. */
  datatype ProbeKey = ProbeKey(slot: Slot, version: nat, fence: Option<nat>)

  datatype Status = Pending | Applying | Converged | RetryWaiting | Degraded

  datatype RetryState = RetryState(
    status: Status, attempts: nat, lastAttempt: Option<Time>, nextAttempt: Option<Time>, code: string)

  datatype Row = Row(version: nat, epoch: nat, state: RetryState)

  datatype Requirement = Requirement(key: ProbeKey, epoch: nat, attempts: nat)

  /** `audits` holds the retry epochs whose administrator audit is stored. */
  datatype Store = Store(rows: map<Slot, Row>, probes: set<Requirement>, audits: set<Ref>)

  datatype Transition =
    | WriteState(slot: Slot, row: Row, upsert: Option<Requirement>, remove: Option<Requirement>)
    | DeleteOnly(gone: Requirement)

  const MAX_ATTEMPTS: nat := 6

  /** 1s, 5s, 30s, 5m and 15m. */
  const BACKOFF: seq<Time> := [1_000_000, 5_000_000, 30_000_000, 300_000_000, 900_000_000]

  function Delay(attempts: nat): (d: Time)
    requires 1 <= attempts < MAX_ATTEMPTS
    ensures 1_000_000 <= d
  {
    BACKOFF[attempts - 1]
  }

  function RowRef(slot: Slot, row: Row): Ref {
    Ref(slot, row.version, row.epoch)
  }

  function RequirementRef(r: Requirement): Ref {
    Ref(r.key.slot, r.key.version, r.epoch)
  }

  predicate Below(r: Ref, q: Ref) {
    r.slot == q.slot && (r.version < q.version || (r.version == q.version && r.epoch < q.epoch))
  }

  predicate AtMost(r: Ref, q: Ref) {
    r == q || Below(r, q)
  }

  // ----- validation

  /** validatePersistedReconcileState. */
  predicate ValidState(s: RetryState) {
    && s.attempts <= MAX_ATTEMPTS
    && |s.code| <= 128
    && (s.attempts == 0 <==> s.lastAttempt.None?)
    && (s.lastAttempt.Some? ==> 0 < s.lastAttempt.value)
    && (s.nextAttempt.Some? <==> s.status.RetryWaiting?)
    && (s.status.RetryWaiting? ==> 0 < s.attempts && s.lastAttempt.value < s.nextAttempt.value)
    && (s.status.Applying? ==> 0 < s.attempts)
  }

  predicate ValidRow(row: Row) {
    0 < row.version <= MAX_INT64 && row.epoch <= MAX_INT64 && ValidState(row.state)
  }

  /** validateProbeRequirement. */
  predicate ValidRequirement(r: Requirement) {
    && 0 < r.key.version <= MAX_INT64 && r.epoch <= MAX_INT64
    && 1 <= r.attempts <= MAX_ATTEMPTS
    && (r.key.fence.Some? ==> r.key.slot.InfrastructureSlot? && 0 < r.key.fence.value <= MAX_INT64)
  }

  /** The statuses under which a Probe requirement may stand. */
  predicate Ambiguous(s: Status) {
    s.Applying? || s.RetryWaiting? || s.Degraded?
  }

  predicate SameKey(slot: Slot, row: Row, r: Requirement) {
    r.key.slot == slot && r.key.version == row.version
  }

  /** validateReconcileTransition. */
  predicate ValidTransition(t: Transition) {
    match t
    case DeleteOnly(r) => ValidRequirement(r)
    case WriteState(slot, row, upsert, remove) =>
      && ValidRow(row)
      && (upsert.Some? ==>
            && ValidRequirement(upsert.value) && SameKey(slot, row, upsert.value)
            && upsert.value.epoch == row.epoch && upsert.value.attempts == row.state.attempts
            && Ambiguous(row.state.status))
      && (remove.Some? ==> ValidRequirement(remove.value) && SameKey(slot, row, remove.value))
      && (upsert.Some? && remove.Some? ==> upsert.value.key.fence == remove.value.key.fence)
  }

  // ----- transactions

  /** rejectReconcileRegression: the written version, epoch and attempt come before
      the stored ones. */
  predicate Regresses(s: Store, slot: Slot, row: Row) {
    slot in s.rows &&
    var current := s.rows[slot];
    (Below(RowRef(slot, row), RowRef(slot, current)) ||
     (RowRef(slot, row) == RowRef(slot, current) && row.state.attempts < current.state.attempts))
  }

  function OptionSet<T>(o: Option<T>): set<T> {
    if o.Some? then {o.value} else {}
  }

  /** ApplyReconcileTransition, up to its commit: `None` when it is refused. */
  function Commit(s: Store, t: Transition): Option<Store> {
    if !ValidTransition(t) then None
    else
      match t
      case DeleteOnly(r) =>
        if r in s.probes then Some(s.(probes := s.probes - {r})) else None
      case WriteState(slot, row, upsert, remove) =>
        if Regresses(s, slot, row) || (remove.Some? && remove.value !in s.probes) then None
        else Some(s.(rows := s.rows[slot := row], probes := s.probes - OptionSet(remove) + OptionSet(upsert)))
  }

  const CLEAN: RetryState := RetryState(Pending, 0, None, None, "")

  function RetryRow(ref: Ref): Row {
    Row(ref.version, ref.epoch, CLEAN)
  }

  /** ApplyReconcileRetryTransition: an administrator epoch follows the stored one
      and its audit is new. */
  function CommitRetry(s: Store, ref: Ref, previous: nat): Option<Store> {
    if ref.epoch != previous + 1 || !ValidRow(RetryRow(ref)) || Regresses(s, ref.slot, RetryRow(ref))
       || previous != (if ref.slot in s.rows then s.rows[ref.slot].epoch else 0) || ref in s.audits then None
    else Some(s.(rows := s.rows[ref.slot := RetryRow(ref)], audits := s.audits + {ref}))
  }

  /** ResetTargetReconcileState and ResetPolicyReconcileState, as written by other
      transactions of the same database: only to a newer version, keeping a target's
      epoch and clearing the policy's. */
  predicate ResetAllowed(s: Store, slot: Slot, version: nat) {
    !slot.InfrastructureSlot? && 0 < version <= MAX_INT64 && (slot in s.rows ==> s.rows[slot].version < version)
  }

  function Reset(s: Store, slot: Slot, version: nat): Store
    requires ResetAllowed(s, slot, version)
  {
    var epoch := if slot.TargetSlot? && slot in s.rows then s.rows[slot].epoch else 0;
    s.(rows := s.rows[slot := Row(version, epoch, CLEAN)])
  }

  /** reconcileTransitionApplied, on the snapshot read back. */
  predicate TransitionApplied(s: Store, t: Transition) {
    match t
    case DeleteOnly(r) => r !in s.probes
    case WriteState(slot, row, upsert, remove) =>
      && slot in s.rows && s.rows[slot] == row
      && (upsert.Some? ==> upsert.value in s.probes)
      && (remove.Some? ==> remove.value !in s.probes)
  }

  /** ReadReconcileRetryTransition: `None` when ledger and audit disagree. */
  function ReadRetry(s: Store, ref: Ref): Option<bool> {
    var stored := ref.slot in s.rows && s.rows[ref.slot] == RetryRow(ref);
    if stored == (ref in s.audits) then Some(stored) else None
  }

  /** Writing the transition to the store would change nothing. */
  ghost predicate NothingLeft(s: Store, t: Transition) {
    match t
    case DeleteOnly(r) => s.probes - {r} == s.probes
    case WriteState(slot, row, upsert, remove) =>
      s.rows[slot := row] == s.rows && s.probes - OptionSet(remove) + OptionSet(upsert) == s.probes
  }

  lemma CommitLeavesNothing(s: Store, t: Transition)
    requires Commit(s, t).Some?
    ensures NothingLeft(Commit(s, t).value, t)
  {
  }

  /** What a readback accepts as applied is as good as just committed. */
  lemma AppliedLeavesNothing(s: Store, t: Transition)
    requires TransitionApplied(s, t)
    ensures NothingLeft(s, t)
  {
  }

  /** What stands in one slot after other transactions may have run: its row is
      unchanged or reset to a newer version; requirements and other slots are not theirs. */
  ghost predicate ResetReach(s: Store, s': Store) {
    && s'.probes == s.probes && s'.audits == s.audits
    && (forall slot :: slot in s.rows ==> slot in s'.rows)
    && (forall slot :: slot in s'.rows ==>
          || (slot in s.rows && s'.rows[slot] == s.rows[slot])
          || (s'.rows[slot].state == CLEAN && ValidRow(s'.rows[slot]) &&
              (slot in s.rows ==> s.rows[slot].version < s'.rows[slot].version)))
  }

  lemma ResetReachItself(s: Store)
    ensures ResetReach(s, s)
  {
  }

  lemma ResetReaches(s: Store, s': Store, slot: Slot, version: nat)
    requires ResetReach(s, s') && ResetAllowed(s', slot, version)
    requires slot in s'.rows ==> ValidRow(s'.rows[slot])
    ensures ResetReach(s, Reset(s', slot, version))
  {
  }

  // ----- the durable invariant, slot by slot

  /** One slot of a consistent store: at most one requirement, for the row's own
      attempt or for an older one that a clean row has superseded; an Applying row
      always has its requirement. */
  ghost predicate SlotDurable(s: Store, slot: Slot) {
    && (slot in s.rows ==> ValidRow(s.rows[slot]))
    && (forall r, q | r in s.probes && q in s.probes && r.key.slot == slot && q.key.slot == slot :: r == q)
    && (forall r | r in s.probes && r.key.slot == slot ::
          && ValidRequirement(r)
          && slot in s.rows
          && AtMost(RequirementRef(r), RowRef(slot, s.rows[slot]))
          && (if RequirementRef(r) == RowRef(slot, s.rows[slot])
              then r.attempts == s.rows[slot].state.attempts && Ambiguous(s.rows[slot].state.status)
              else s.rows[slot].state.attempts == 0))
    && (slot in s.rows && s.rows[slot].state.status.Applying? ==>
          exists r :: r in s.probes && RequirementRef(r) == RowRef(slot, s.rows[slot]))
  }

  ghost predicate Durable(s: Store) {
    forall slot :: SlotDurable(s, slot)
  }

  /** The requirements of one slot. */
  function RequirementsAt(s: Store, slot: Slot): set<Requirement> {
    set r | r in s.probes && r.key.slot == slot
  }

  ghost predicate SameSlot(s: Store, s': Store, slot: Slot) {
    && (slot in s.rows <==> slot in s'.rows)
    && (slot in s.rows ==> s.rows[slot] == s'.rows[slot])
    && RequirementsAt(s, slot) == RequirementsAt(s', slot)
  }

  lemma SameSlotDurable(s: Store, s': Store, slot: Slot)
    requires SlotDurable(s, slot) && SameSlot(s, s', slot)
    ensures SlotDurable(s', slot)
  {
    assert forall r :: r in s'.probes && r.key.slot == slot ==> r in RequirementsAt(s', slot);
    assert forall r :: r in RequirementsAt(s, slot) ==> r in s.probes && r.key.slot == slot;
    if slot in s'.rows && s'.rows[slot].state.status.Applying? {
      var r :| r in s.probes && RequirementRef(r) == RowRef(slot, s.rows[slot]);
      assert r in RequirementsAt(s, slot);
    }
  }

  /** A transition touches one slot. */
  function SlotOf(t: Transition): Slot {
    match t
    case DeleteOnly(r) => r.key.slot
    case WriteState(slot, _, _, _) => slot
  }

  /** A transition the controller may attempt: it neither leaves a foreign
      requirement beside the row it writes nor an Applying row without its own. */
  ghost predicate KeepsBarrier(s: Store, t: Transition) {
    match t
    case DeleteOnly(r) =>
      r.key.slot in s.rows ==> Below(RequirementRef(r), RowRef(r.key.slot, s.rows[r.key.slot]))
    case WriteState(slot, row, upsert, remove) =>
      && (remove.None? ==> RequirementsAt(s, slot) <= OptionSet(upsert))
      && (row.state.status.Applying? ==> upsert.Some?)
  }

  /** What a commit leaves in its slot, and that it leaves the others alone. */
  lemma CommitEffect(s: Store, t: Transition)
    requires Durable(s) && Commit(s, t).Some? && KeepsBarrier(s, t)
    ensures var s' := Commit(s, t).value;
            && (forall slot | slot != SlotOf(t) :: SameSlot(s, s', slot))
            && (t.DeleteOnly? ==> s'.rows == s.rows && RequirementsAt(s', SlotOf(t)) == {})
            && (t.WriteState? ==>
                  && s'.rows == s.rows[t.slot := t.row]
                  && RequirementsAt(s', t.slot) == OptionSet(t.upsert)
                  && (t.slot in s.rows ==> AtMost(RowRef(t.slot, s.rows[t.slot]), RowRef(t.slot, t.row))))
  {
    var s' := Commit(s, t).value;
    var slot := SlotOf(t);
    assert SlotDurable(s, slot);
    if t.WriteState? && t.remove.Some? {
      assert t.remove.value in RequirementsAt(s, slot);
    }
  }

  lemma CommitKeepsDurable(s: Store, t: Transition)
    requires Durable(s) && Commit(s, t).Some? && KeepsBarrier(s, t)
    ensures Durable(Commit(s, t).value)
  {
    var s' := Commit(s, t).value;
    CommitEffect(s, t);
    forall slot
      ensures SlotDurable(s', slot)
    {
      assert SlotDurable(s, slot);
      if slot != SlotOf(t) {
        SameSlotDurable(s, s', slot);
      } else {
        assert forall r | r in s'.probes && r.key.slot == slot :: r in RequirementsAt(s', slot);
        if t.WriteState? && t.upsert.Some? {
          assert t.upsert.value in s'.probes && RequirementRef(t.upsert.value) == RowRef(slot, t.row);
        }
        if t.DeleteOnly? {
          DeletedBelow(s, t.gone);
        }
      }
    }
  }

  /** An Applying row owns its requirement, so an older one cannot be its only barrier. */
  lemma DeletedBelow(s: Store, r: Requirement)
    requires SlotDurable(s, r.key.slot) && r in s.probes && r.key.slot in s.rows
    requires Below(RequirementRef(r), RowRef(r.key.slot, s.rows[r.key.slot]))
    ensures !s.rows[r.key.slot].state.status.Applying?
  {
  }

  lemma RetryKeepsDurable(s: Store, ref: Ref, previous: nat)
    requires Durable(s) && CommitRetry(s, ref, previous).Some?
    ensures Durable(CommitRetry(s, ref, previous).value)
    ensures ref.slot in s.rows ==> Below(RowRef(ref.slot, s.rows[ref.slot]), ref)
  {
    var s' := CommitRetry(s, ref, previous).value;
    forall slot
      ensures SlotDurable(s', slot)
    {
      assert SlotDurable(s, slot);
      if slot != ref.slot {
        SameSlotDurable(s, s', slot);
      }
    }
  }

  lemma ResetReachKeepsDurable(s: Store, s': Store)
    requires Durable(s) && ResetReach(s, s')
    ensures Durable(s')
  {
    forall slot
      ensures SlotDurable(s', slot)
    {
      assert SlotDurable(s, slot);
      if slot in s.rows ==> s'.rows[slot] == s.rows[slot] {
        if slot in s.rows || slot !in s'.rows {
          SameSlotDurable(s, s', slot);
        }
      }
    }
  }

  // ----- hydration

  /** validateRecoveredRetryState. */
  predicate RecoverableState(s: RetryState) {
    && s.attempts <= MAX_ATTEMPTS
    && (s.attempts == 0 ==> s.lastAttempt.None?)
    && (s.status.Applying? ==> s.attempts != 0 && s.lastAttempt.Some? && s.nextAttempt.None?)
    && (s.status.RetryWaiting? ==> s.attempts != 0 && s.lastAttempt.Some? && s.nextAttempt.Some?)
    && (s.nextAttempt.Some? && s.lastAttempt.Some? ==> s.lastAttempt.value < s.nextAttempt.value)
    && (s.status.Converged? || s.status.Degraded? ==> s.nextAttempt.None?)
  }

  /** hydrateRecovery on one row: an attempt that a crash interrupted waits from its
      own start, or has used up its budget. */
  function Hydrated(s: RetryState): RetryState
    requires RecoverableState(s)
  {
    if !s.status.Applying? then s
    else if MAX_ATTEMPTS <= s.attempts then s.(status := Degraded, nextAttempt := None)
    else s.(status := RetryWaiting, nextAttempt := Some(s.lastAttempt.value + Delay(s.attempts)))
  }

  /** The refs whose originating ledger row a later epoch or version has replaced. */
  function SyntheticRefs(s: Store): set<Ref> {
    set r | r in s.probes && (r.key.slot in s.rows ==> RequirementRef(r) != RowRef(r.key.slot, s.rows[r.key.slot]))
      :: RequirementRef(r)
  }

  /** What memory must be after a reopen: the ledger rows with interrupted attempts
      resolved, a placeholder per superseded requirement, and exactly the stored
      requirements pending. */
  ghost predicate HydratedMemory(s: Store, states: map<Ref, RetryState>, pending: map<ProbeKey, Ref>, synthetic: set<Ref>)
    requires Durable(s)
  {
    && synthetic == SyntheticRefs(s)
    && (forall slot | slot in s.rows ::
          SlotDurable(s, slot) &&
          RowRef(slot, s.rows[slot]) in states && states[RowRef(slot, s.rows[slot])] == Hydrated(s.rows[slot].state))
    && (forall ref | ref in states ::
          || (ref.slot in s.rows && ref == RowRef(ref.slot, s.rows[ref.slot]))
          || ref in synthetic)
    && (forall r | r in s.probes ::
          && r.key in pending && pending[r.key] == RequirementRef(r)
          && RequirementRef(r) in states && states[RequirementRef(r)].attempts == r.attempts)
    && (forall key | key in pending :: exists r :: r in s.probes && r.key == key)
  }
}
