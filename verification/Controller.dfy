/** The reconcile controller (internal/reconcile/controller.go, persistence.go) with its
    durable store, a nondeterministic backend and store, crashes and reopens.

    Every backend answer, store failure, clock tick, crash and concurrent transaction is
    an arbitrary choice (`:= *`), so what a method ensures holds for all of them. A
    process that dies sets `alive` to false and performs no further effect. */
module Controller {
  import opened Basics
  import opened Addresses
  import opened Enforcement
  import opened ReconcileStore
  import opened ReconcileTrace
  import opened ReconcileMemory
  import opened ReconcileInvariants

  /** OperationPlan, as the plan provider builds it: infrastructure plans carry the
      snapshot fence. */
  datatype Plan =
    | InfrastructurePlan(revision: nat, snapshot: nat, infrastructure: InfrastructureIntent)
    | PolicyPlan(revision: nat, policy: PolicyIntent)
    | TargetPlan(intent: Intent)

  function PlanSlot(plan: Plan): Slot {
    match plan
    case InfrastructurePlan(_, _, _) => InfrastructureSlot
    case PolicyPlan(_, _) => PolicySlot
    case TargetPlan(intent) => TargetSlot(intent.target)
  }

  /** pendingProbeKeyForPlan. */
  function PlanKey(plan: Plan): ProbeKey {
    match plan
    case InfrastructurePlan(revision, snapshot, _) => ProbeKey(InfrastructureSlot, revision, Some(snapshot))
    case PolicyPlan(revision, _) => ProbeKey(PolicySlot, revision, None)
    case TargetPlan(intent) => ProbeKey(TargetSlot(intent.target), intent.generation, None)
  }

  /** planMatchesCurrentDesiredLocked. */
  predicate PlanMatches(desired: Option<Desired>, plan: Plan) {
    desired.Some? &&
    var d := desired.value;
    match plan
    case InfrastructurePlan(revision, snapshot, infrastructure) =>
      revision == d.infrastructureRevision && snapshot == d.snapshot && infrastructure == d.infrastructure
    case PolicyPlan(revision, policy) => revision == d.policyRevision && policy == d.policy
    case TargetPlan(intent) =>
      intent.target in d.targets &&
      intent.generation == d.targets[intent.target].generation && Equivalent(intent, d.targets[intent.target])
  }

  /** pendingKeyMatchesCurrentDesiredLocked. */
  predicate KeyMatches(desired: Option<Desired>, key: ProbeKey) {
    desired.Some? &&
    var d := desired.value;
    match key.slot
    case InfrastructureSlot =>
      key.version == d.infrastructureRevision && (key.fence.Some? ==> key.fence.value == d.snapshot)
    case PolicySlot => key.version == d.policyRevision
    case TargetSlot(t) => t in d.targets && key.version == d.targets[t].generation
  }

  /** snapshotMatchesCurrentDesiredLocked. */
  predicate SnapshotMatches(desired: Option<Desired>, snapshot: Snapshot, slot: Slot) {
    desired.Some? &&
    var d := desired.value;
    match slot
    case InfrastructureSlot => snapshot.infrastructure == Some(d.infrastructure)
    case PolicySlot => snapshot.policyRelation == Some(d.policy.relation)
    case TargetSlot(t) => t in d.targets && PhysicalTargetMatches(snapshot.targets, d.targets[t])
  }

  datatype Fence = Open | Outdated | Expired

  /** targetExpirationFenceLocked. */
  function ExpirationFence(desired: Option<Desired>, plan: Plan, now: Time): Fence {
    if !plan.TargetPlan? || plan.intent.membership.BanAbsent? || plan.intent.until.None? || now < plan.intent.until.value
    then Open
    else if PlanMatches(desired, plan) then Expired else Outdated
  }

  /** retryable. */
  predicate Retryable(code: string) {
    code != "ownership_conflict" && code != "unsupported" && code != "invalid_plan"
  }

  /** finishFailureLocked on the ledger entry. */
  function Failed(state: RetryState, code: string, canRetry: bool, now: Time): RetryState
    requires 1 <= state.attempts
  {
    if !canRetry || MAX_ATTEMPTS <= state.attempts then
      state.(status := Degraded, nextAttempt := None, code := code)
    else
      state.(status := RetryWaiting, nextAttempt := Some(now + Delay(state.attempts)), code := code)
  }

  /** finishStaleLocked on the ledger entry. */
  function Stale(state: RetryState): RetryState {
    state.(status := Pending, nextAttempt := None, code := "stale_completion")
  }

  function Convergence(state: RetryState): RetryState {
    state.(status := Converged, nextAttempt := None, code := "")
  }

  lemma DriftedSlots(desired: Option<Desired>, snapshot: Snapshot, pending: PendingProbes)
    requires Drifted(desired, snapshot, pending, {})
    ensures forall slot | slot in SlotsOf(pending) :: !SnapshotMatches(desired, snapshot, slot)
  {
  }

  lemma PlanKeyMatches(desired: Option<Desired>, plan: Plan)
    requires PlanMatches(desired, plan)
    ensures KeyMatches(desired, PlanKey(plan))
  {
  }

  /** What has been looked at and stays pending is desired, and the Probe saw otherwise. */
  ghost predicate Drifted(desired: Option<Desired>, snapshot: Snapshot, pending: PendingProbes, todo: set<ProbeKey>) {
    forall key | key in pending ::
      key in todo || (KeyMatches(desired, key) && !SnapshotMatches(desired, snapshot, key.slot))
  }

  lemma AllToDo(desired: Option<Desired>, snapshot: Snapshot, pending: PendingProbes)
    ensures Drifted(desired, snapshot, pending, pending.Keys)
  {
  }

  lemma DoneOne(desired: Option<Desired>, snapshot: Snapshot, known: PendingProbes, pending: PendingProbes,
                todo: set<ProbeKey>, key: ProbeKey)
    requires Drifted(desired, snapshot, known, todo) && PendingWithin(known, pending, None)
    requires key in pending ==> KeyMatches(desired, key) && !SnapshotMatches(desired, snapshot, key.slot)
    ensures Drifted(desired, snapshot, pending, todo - {key})
  {
  }

  /** What stays pending in a matching plan's slot is that plan's own key. */
  lemma DriftedKeys(latest: Option<Desired>, desired: Option<Desired>, snapshot: Snapshot, pending: PendingProbes, plan: Plan)
    requires Drifted(desired, snapshot, pending, {}) && KnownPending(latest, pending) && PlanMatches(desired, plan)
    ensures forall key | key in pending && key.slot == PlanSlot(plan) :: key == PlanKey(plan)
  {
  }

  lemma PlanIsKnown(desired: Option<Desired>, plan: Plan)
    requires PlanMatches(desired, plan)
    ensures desired.Some? && KnownKey(desired, PlanKey(plan))
  {
  }

  datatype Persist = Persisted | Regression | NotPersisted

  datatype ApplyOutcome = ApplyFailed | ApplyUnknown(code: string) | ApplyRejected(code: string) | ApplyConfirmed

  /** The code an Apply answer is recorded under. */
  function OutcomeCode(outcome: ApplyOutcome): string {
    match outcome
    case ApplyFailed => "backend_error"
    case ApplyUnknown(code) => if code == "" then "unknown_result" else code
    case ApplyRejected(code) => if code == "" then "rejected" else code
    case ApplyConfirmed => ""
  }

  datatype Execution =
    | ProcessDied
    | ReloadFailed
    | StalePlan
    | IntentExpired
    | ProbeFailed
    | StoreFailed
    | RecoveredByProbe
    | BudgetExhausted
    | RetryNotReady
    | StaleCompletion
    | Finished

  /** What Execute may answer once Apply was called. */
  predicate AfterApply(r: Execution) {
    r.Finished? || r.StaleCompletion? || r.StoreFailed? || r.ProcessDied?
  }

  /** One thing that may happen to a running controller. */
  datatype Step =
    | StepExecute(plan: Plan)
    | StepProbeRecovery
    | StepStartupRecovery(keys: seq<Slot>)
    | StepRetry(slot: Slot)
    | StepPublish(desired: Desired)
    | StepEnvironment
    | StepCrash

  datatype Begin = Started(ref: Ref, at: Time, resumed: bool) | Recovered | NotStarted(reason: Execution)

  class Controller {
    var store: Store
    var desired: Option<Desired>
    /** The newest snapshot ever published on this database. */
    var latest: Option<Desired>
    var epochs: map<Slot, nat>
    var states: States
    var pending: PendingProbes
    var synthetic: set<Ref>
    var confirmed: map<Prefix, nat>
    var startupProbeRequired: bool
    var reloadNeeded: bool
    var now: Time
    var alive: bool
    ghost var trace: Trace
    /** The Probe snapshot each confirmation rests on. */
    ghost var evidence: map<Prefix, Snapshot>

    // ----- invariants

    /** What holds of the durable state and the history, whether or not a process runs. */
    ghost predicate Sound()
      reads this
    {
      && Safe(store, trace, now) && KnownRequirements(latest, store.probes)
      && (alive ==>
            && Confirmations(desired, confirmed, evidence, trace)
            && KnownPending(latest, pending)
            && (desired.Some? ==> desired == latest))
    }

    /** Memory is in step with the store. */
    ghost predicate InStep()
      reads this
    {
      Synced(store, states, pending, synthetic, trace, now)
    }

    ghost predicate Valid()
      reads this
    {
      Sound() && (alive && !reloadNeeded ==> InStep())
    }

    /** The process runs and no reload is due. */
    ghost predicate Live()
      reads this
    {
      Valid() && alive && !reloadNeeded
    }

    constructor ()
      ensures Valid() && alive && store == Store(map[], {}, {}) && trace == []
    {
      store := Store(map[], {}, {});
      desired, latest := None, None;
      epochs, states, pending, synthetic, confirmed := map[], map[], map[], {}, map[];
      startupProbeRequired, reloadNeeded := false, false;
      now, alive := 1, true;
      trace, evidence := [], map[];
    }

    // ----- the environment

    method MaybeCrash()
      requires Valid()
      modifies this`alive
      ensures Valid() && (alive ==> old(alive))
    {
      var crash: bool := *;
      if crash {
        alive := false;
      }
    }

    method Tick()
      requires Valid()
      modifies this`now
      ensures Valid() && old(now) <= now
    {
      var tick :| 0 <= tick;
      LaterKeepsBackoff(store, trace, now, now + tick);
      now := now + tick;
    }

    /** Decision and policy transactions of the same database may reset ledger rows. */
    method OtherTransactions()
      requires Valid()
      modifies this`store
      ensures Valid() && ResetReach(old(store), store)
    {
      var n :| 0 <= n;
      ghost var start := store;
      while 0 < n
        invariant Valid() && ResetReach(start, store)
      {
        var slot: Slot := *;
        var version :| 0 <= version;
        if ResetAllowed(store, slot, version) {
          assert SlotDurable(store, slot);
          ResetReaches(start, store, slot, version);
          AfterResets(store, Reset(store, slot, version), states, pending, synthetic, trace, now);
          store := Reset(store, slot, version);
        }
        n := n - 1;
      }
    }

    /** What may happen while no lock is held: time passes, other transactions commit,
        new Desired snapshots are published, the process dies. */
    method Interfere()
      requires Valid() && alive
      modifies this`store, this`desired, this`latest, this`epochs, this`confirmed, this`now, this`alive, this`evidence
      ensures Valid() && ResetReach(old(store), store) && old(now) <= now && (old(desired).Some? ==> desired.Some?)
    {
      Tick();
      OtherTransactions();
      var n :| 0 <= n;
      while 0 < n
        invariant Valid() && alive && ResetReach(old(store), store) && old(now) <= now
        invariant old(desired).Some? ==> desired.Some?
      {
        var d: Desired := *;
        if NotBehind(latest, d) {
          var published := SetDesiredSnapshot(d);
        }
        n := n - 1;
      }
      MaybeCrash();
    }

    // ----- desired state

    /** activateHydratedStateLocked, for one slot. */
    method HighestEpoch(slot: Slot, version: nat) returns (epoch: nat)
      ensures forall ref | ref in states && ref.slot == slot && ref.version == version :: ref.epoch <= epoch
      ensures epoch == 0 || Ref(slot, version, epoch) in states
    {
      epoch := 0;
      var refs := states.Keys;
      while refs != {}
        invariant refs <= states.Keys
        invariant forall ref | ref in states && ref !in refs && ref.slot == slot && ref.version == version :: ref.epoch <= epoch
        invariant epoch == 0 || Ref(slot, version, epoch) in states
        decreases |refs|
      {
        var ref :| ref in refs;
        if ref.slot == slot && ref.version == version && epoch < ref.epoch {
          epoch := ref.epoch;
        }
        refs := refs - {ref};
      }
    }

    method ActivateHydratedState()
      requires desired.Some?
      modifies this`epochs, this`confirmed, this`evidence
      ensures confirmed == map[]
    {
      var e := HighestEpoch(InfrastructureSlot, desired.value.infrastructureRevision);
      epochs := epochs[InfrastructureSlot := e];
      e := HighestEpoch(PolicySlot, desired.value.policyRevision);
      epochs := epochs[PolicySlot := e];
      confirmed, evidence := map[], map[];
      var targets := desired.value.targets.Keys;
      while targets != {}
        invariant confirmed == map[] && targets <= desired.value.targets.Keys
        decreases |targets|
      {
        var t :| t in targets;
        e := HighestEpoch(TargetSlot(t), desired.value.targets[t].generation);
        epochs := epochs[TargetSlot(t) := e];
        targets := targets - {t};
      }
    }

    /** SetDesiredSnapshot: publishes a snapshot that is valid and an accepted step from
        the current one. */
    method SetDesiredSnapshot(d: Desired) returns (published: bool)
      requires Valid() && alive && NotBehind(latest, d)
      modifies this`desired, this`latest, this`epochs, this`confirmed, this`evidence
      ensures Valid()
      ensures published <==> ValidDesired(d) && (old(desired).Some? ==> TransitionAccepted(old(desired).value, d))
      ensures desired == if published then Some(d) else old(desired)
      ensures published ==> confirmed == map[]
    {
      if !ValidDesired(d) || (desired.Some? && !TransitionAccepted(desired.value, d)) {
        return false;
      }
      forall key | KnownKey(latest, key)
        ensures KnownKey(Some(d), key)
      {
        StaysKnown(latest, d, key);
      }
      desired, latest := Some(d), Some(d);
      ActivateHydratedState();
      published := true;
    }

    // ----- store access

    /** replaceRecoveryLocked: memory becomes what the store holds. It cannot fail. */
    method ReplaceRecovery() returns (ok: bool)
      requires Sound() && alive
      modifies this`states, this`pending, this`synthetic, this`startupProbeRequired, this`epochs, this`confirmed, this`evidence
      ensures ok && Sound() && InStep() && KnownPending(latest, pending)
      ensures Durable(store) && HydratedMemory(store, states, pending, synthetic)
    {
      hide Durable, HydratedMemory, InMemory, MemoryCarriesBackoff, LedgerCarriesBackoff, WithinBudget, BarrierHeld,
           BackoffHeld, Unresolved, KnownRequirements, KnownPending;
      var newStates, newPending, newSynthetic;
      ok, newStates, newPending, newSynthetic := HydrateRecovery(store);
      if !ok {
        return;
      }
      states, pending, synthetic := newStates, newPending, newSynthetic;
      startupProbeRequired := store.rows != map[] || store.probes != {};
      if desired.Some? {
        ActivateHydratedState();
      }
      HydratedKnown(latest, store, states, pending, synthetic);
      HydratedInMemory(store, states, pending, synthetic);
      HydratedMemoryCarriesBackoff(store, states, pending, synthetic, trace, now);
    }

    /** reloadRecoveryIfNeeded. */
    method ReloadRecoveryIfNeeded() returns (ok: bool)
      requires Valid() && alive
      modifies this`states, this`pending, this`synthetic, this`startupProbeRequired, this`reloadNeeded,
               this`epochs, this`confirmed, this`evidence
      ensures Valid() && (ok ==> !reloadNeeded)
    {
      if !reloadNeeded {
        return true;
      }
      var loadFails: bool := *;
      if loadFails {
        return false;
      }
      ok := ReplaceRecovery();
      reloadNeeded := !ok;
    }

    /** applyTransitionLocked: one store transaction with commit-unknown readback. */
    method ApplyTransition(t: Transition, observed: bool) returns (r: Persist)
      requires Live() && Writable(store, trace, now, t) && KnownRequirements(latest, OptionSet(Upserted(t)))
      modifies this`store, this`states, this`pending, this`synthetic, this`startupProbeRequired, this`reloadNeeded,
               this`epochs, this`confirmed, this`evidence, this`alive, this`trace
      ensures Sound() && (!r.Persisted? ==> Valid())
      ensures Quiet(old(trace), trace)
      ensures Unresolved(old(trace)) - (Removed(t) * Refused(old(trace))) <= Unresolved(trace) <= Unresolved(old(trace))
      ensures r.Persisted? ==>
                && alive && !reloadNeeded && trace == old(trace) + [Committed(t)]
                && Stands(store, states, pending, synthetic, trace, now, t)
                && RowEntry(old(states), states, t)
                && Commit(old(store), t).Some? && NothingLeft(store, t)
      ensures alive && !reloadNeeded ==> PendingWithin(old(pending), pending, Upserted(t))
      ensures store.probes == old(store.probes) ||
              (Commit(old(store), t).Some? && store.probes == Commit(old(store), t).value.probes)
      ensures Onward(old(store), store, Raises(old(store), t))
    {
      hide Safe, Synced, Confirmations, Writable, Stands, Onward, Raises, Commit, HydratedMemory, Durable, KeepsBarrier,
           PendingWithin, RowEntry, KnownRequirements, KnownPending, NothingLeft;
      Snoc(trace, Committed(t));
      OnwardItself(store);
      OnwardMore(store, store, None, Raises(store, t));
      SameWithin(pending, states, t);
      var crash: bool := *;
      var storeFails: bool := *;
      alive := !crash;
      if !alive || storeFails {
        return NotPersisted;
      }
      var next := Commit(store, t);
      if next.None? {
        return if ValidTransition(t) && t.WriteState? && Regresses(store, t.slot, t.row) then Regression else NotPersisted;
      }
      WritableKeepsBarrier(store, trace, now, t);
      SafeIsDurable(store, trace, now);
      CommitOnward(store, t);
      CommitKeepsSafe(store, trace, now, t);
      CommitStands(store, t, states, pending, synthetic, trace, now);
      CommitKnown(latest, store, t);
      CommitLeavesNothing(store, t);
      ConfirmationsGrow(desired, confirmed, evidence, trace, Committed(t));
      var unknown: bool := *;
      if unknown {
        r := ReadBack(t, next.value, observed);
        return;
      }
      store := next.value;
      trace := trace + [Committed(t)];
      crash := *;
      alive := !crash;
      r := if alive then Persisted else NotPersisted;
    }

    /** A commit that happened or did not; memory does not know. */
    method TryCommit(t: Transition, next: Store) returns (committed: bool)
      requires Live() && Safe(next, trace + [Committed(t)], now) && KnownRequirements(latest, next.probes)
      modifies this`store, this`trace, this`reloadNeeded
      ensures Valid() && reloadNeeded && store == (if committed then next else old(store))
      ensures trace == if committed then old(trace) + [Committed(t)] else old(trace)
    {
      hide Safe, Synced, Confirmations, KnownRequirements, KnownPending;
      ConfirmationsGrow(desired, confirmed, evidence, trace, Committed(t));
      reloadNeeded := true;
      committed := *;
      if committed {
        store := next;
        trace := trace + [Committed(t)];
      }
    }

    ghost method NoteCommit(t: Transition)
      requires Live() && TransitionApplied(store, t)
      modifies this`trace
      ensures Live() && trace == old(trace) + [Committed(t)]
    {
      hide Safe, Synced, Confirmations, KnownRequirements, KnownPending, TransitionApplied;
      NotedCommit(store, states, pending, synthetic, trace, now, t);
      ConfirmationsGrow(desired, confirmed, evidence, trace, Committed(t));
      trace := trace + [Committed(t)];
    }

    /** The commit's outcome is unknown: it happened entirely or not at all. Memory is
        rebuilt from what the store shows; until that succeeds it needs a reload. */
    method ReadBack(t: Transition, next: Store, observed: bool) returns (r: Persist)
      requires Live() && KeepsBarrier(store, t) && Commit(store, t) == Some(next)
      requires Safe(next, trace + [Committed(t)], now) && KnownRequirements(latest, next.probes)
      requires Onward(store, next, Raises(store, t))
      modifies this`store, this`states, this`pending, this`synthetic, this`startupProbeRequired, this`reloadNeeded,
               this`epochs, this`confirmed, this`evidence, this`alive, this`trace
      ensures Valid() && !r.Regression?
      ensures trace == old(trace) || trace == old(trace) + [Committed(t)]
      ensures r.Persisted? ==>
                && alive && !reloadNeeded && trace == old(trace) + [Committed(t)]
                && Stands(store, states, pending, synthetic, trace, now, t)
                && RowEntry(old(states), states, t) && NothingLeft(store, t)
      ensures alive && !reloadNeeded ==> PendingWithin(old(pending), pending, Upserted(t))
      ensures store.probes == old(store.probes) || store.probes == next.probes
      ensures Onward(old(store), store, Raises(old(store), t))
    {
      hide Safe, Confirmations, Stands, Onward, Raises, Commit, HydratedMemory, Durable, KeepsBarrier, TransitionApplied,
           RequirementsAt, OptionSet, MemoryCarriesBackoff, InMemory, PendingWithin, RowEntry, KnownRequirements,
           KnownPending, NothingLeft;
      ghost var before := store;
      SafeIsDurable(store, trace, now);
      OnwardItself(store);
      OnwardMore(store, store, None, Raises(store, t));
      CommittedProbes(store, t);
      var committed := TryCommit(t, next);
      ghost var after := store;
      OtherTransactions();
      ResetsOnward(after, store);
      OnwardThrough(before, after, store, Raises(before, t), None);
      MaybeCrash();
      var loadFails: bool := *;
      if !alive || loadFails {
        return NotPersisted;
      }
      var applied := TransitionApplied(store, t);
      if observed {
        var readFails: bool := *;
        if readFails {
          return NotPersisted;
        }
        var seen: bool := *;
        applied := applied && seen;
      }
      var ok := ReplaceRecovery();
      reloadNeeded := !ok;
      HydratedWithin(before, old(states), old(pending), old(synthetic), store, states, pending, synthetic, Upserted(t));
      if !applied {
        return NotPersisted;
      }
      HydratedEntry(store, old(states), states, pending, synthetic, t);
      AppliedLeavesNothing(store, t);
      if !committed {
        NoteCommit(t);
      }
      ShownInSlot(before, store, committed, t);
      SyncedStands(store, states, pending, synthetic, trace, now, t);
      r := Persisted;
    }

    // ----- the backend

    method Probe() returns (snapshot: Option<Snapshot>)
      requires Live()
      modifies this`alive, this`trace
      ensures Valid()
      ensures snapshot.Some? ==> alive && trace == old(trace) + [Probed(snapshot.value)] && Resolved(trace)
      ensures snapshot.None? ==> trace == old(trace)
    {
      hide Safe, Synced, Confirmations, KnownPending, KnownRequirements;
      MaybeCrash();
      var fails: bool := *;
      if !alive || fails {
        return None;
      }
      var s: Snapshot := *;
      ProbeKeepsSafe(store, states, pending, synthetic, trace, now, s);
      ConfirmationsGrow(desired, confirmed, evidence, trace, Probed(s));
      trace := trace + [Probed(s)];
      snapshot := Some(s);
    }

    /** The backend's Apply. The process may die before its answer arrives. */
    method Apply(key: ProbeKey, ref: Ref, at: Time, resumed: bool) returns (outcome: ApplyOutcome)
      requires Live() && at <= now && Underway(store, states, pending, key, ref, at)
      requires Cleared(trace, key, ref, states[ref], at, resumed)
      modifies this`alive, this`trace
      ensures Valid() && OneApply(old(trace), trace, key)
      ensures Unresolved(trace) <= {AttemptOf(key, ref, states[ref])}
      ensures outcome.ApplyRejected? ==> Answered(trace)
    {
      hide Safe, Synced, Confirmations, KnownPending, KnownRequirements, Cleared, Underway;
      ghost var r := AttemptOf(key, ref, Entry(states, ref));
      UnderwayEntry(store, states, pending, key, ref, at);
      ClearedIsResolved(trace, key, ref, states[ref], at, resumed);
      ApplyKeepsSafe(store, states, pending, synthetic, trace, now, key, ref, at, resumed);
      ConfirmationsGrow(desired, confirmed, evidence, trace, Applied(r, at, resumed));
      Snoc(trace, Applied(r, at, resumed));
      trace := trace + [Applied(r, at, resumed)];
      outcome := *;
      if outcome.ApplyRejected? {
        RejectionKeepsSafe(store, states, pending, synthetic, trace, now, r);
        ConfirmationsGrow(desired, confirmed, evidence, trace, Rejected(r));
        Snoc(trace, Rejected(r));
        trace := trace + [Rejected(r)];
      }
      MaybeCrash();
    }

    // ----- ledger access

    function Epoch(slot: Slot): nat
      reads this
    {
      if slot in epochs then epochs[slot] else 0
    }

    /** The ledger key of the slot's current version. */
    function CurrentRef(slot: Slot): Option<Ref>
      reads this
    {
      var version := CurrentVersion(desired, slot);
      if version.None? then None else Some(Ref(slot, version.value, Epoch(slot)))
    }

    method Reinstate(key: ProbeKey, ref: Ref)
      requires Valid() && alive && KnownKey(latest, key) && ref.slot == key.slot && ref.version == key.version
      requires !reloadNeeded ==> Reinstatable(store, pending, key, ref)
      modifies this`pending
      ensures Valid() && pending == old(pending)[key := ref]
    {
      hide Safe, Confirmations, KnownRequirements;
      if !reloadNeeded {
        Barred(store, states, pending, synthetic, trace, now, key, ref);
      }
      pending := pending[key := ref];
    }

    // ----- beginning an attempt

    /** beginAttemptLocked: admission, then the durable write-ahead of one attempt. */
    method BeginAttempt(plan: Plan) returns (b: Begin)
      requires Live() && Resolved(trace) && PlanMatches(desired, plan)
      requires forall key | key in pending && key.slot == PlanSlot(plan) :: key == PlanKey(plan)
      modifies this`store, this`states, this`pending, this`synthetic, this`startupProbeRequired, this`reloadNeeded,
               this`epochs, this`confirmed, this`evidence, this`alive, this`trace, this`now
      ensures Valid() && Quiet(old(trace), trace) && old(now) <= now && !b.Recovered?
      ensures b.NotStarted? ==> !b.reason.Finished? && !b.reason.StaleCompletion?
      ensures b.Started? ==> Ready(PlanKey(plan), b)
      ensures b.Started? ==>
                && b.ref == Ref(PlanSlot(plan), PlanKey(plan).version, old(Epoch(PlanSlot(plan)))) && b.at == now
                && Admits(Entry(old(states), b.ref), now) && b.resumed == Entry(old(states), b.ref).status.Applying?
                && states[b.ref] == Begun(Entry(old(states), b.ref), now)
      ensures Onward(old(store), store, Some(PlanSlot(plan)))
    {
      hide Safe, Synced, Confirmations, KnownPending, KnownRequirements, KnownKey, Onward, Resolved, Ready;
      var key := PlanKey(plan);
      var fence := ExpirationFence(desired, plan, now);
      OnwardItself(store);
      OnwardMore(store, store, None, Some(key.slot));
      if !fence.Open? {
        return NotStarted(if fence.Outdated? then StalePlan else IntentExpired);
      }
      Tick();
      var ref := Ref(key.slot, key.version, Epoch(key.slot));
      var state := Entry(states, ref);
      if state.status.Degraded? || MAX_ATTEMPTS <= state.attempts {
        return NotStarted(BudgetExhausted);
      }
      if !Admits(state, now) {
        return NotStarted(RetryNotReady);
      }
      if key in pending && pending[key] !in states {
        return NotStarted(StoreFailed);
      }
      PlanIsKnown(desired, plan);
      OtherTransactions();
      ResetsOnward(old(store), store);
      ghost var before := store;
      b := WriteAhead(key, ref);
      OnwardThrough(old(store), before, store, None, Some(key.slot));
    }

    /** A begun attempt that may call Apply. */
    ghost predicate Ready(key: ProbeKey, b: Begin)
      requires b.Started?
      reads this
    {
      && Live() && b.at <= now && Underway(store, states, pending, key, b.ref, b.at)
      && Cleared(trace, key, b.ref, states[b.ref], b.at, b.resumed)
    }

    /** persistApplyingStateLocked, and memory after it. */
    method WriteAhead(key: ProbeKey, ref: Ref) returns (b: Begin)
      requires Live() && Resolved(trace) && KnownKey(latest, key) && ref.slot == key.slot && ref.version == key.version
      requires Admits(Entry(states, ref), now) && (key in pending ==> pending[key] in states)
      requires forall k | k in pending && k.slot == key.slot :: k == key
      modifies this`store, this`states, this`pending, this`synthetic, this`startupProbeRequired, this`reloadNeeded,
               this`epochs, this`confirmed, this`evidence, this`alive, this`trace
      ensures Valid() && Quiet(old(trace), trace) && !b.Recovered?
      ensures b.NotStarted? ==> !b.reason.Finished? && !b.reason.StaleCompletion?
      ensures b.Started? ==> Ready(key, b)
      ensures b.Started? ==>
                && b.ref == ref && b.at == now && b.resumed == Entry(old(states), ref).status.Applying?
                && states[ref] == Begun(Entry(old(states), ref), now)
      ensures Onward(old(store), store, Some(key.slot))
    {
      hide Safe, Synced, Confirmations, Cleared, Writable, Onward, Raises, KnownKey, KnownPending, KnownRequirements,
           OptionSet, Underway, Commit, Resolved, Admits, AttemptOf, Entry, ValidTransition;
      var previous := if key in pending then Some(AttemptOf(key, pending[key], states[pending[key]])) else None;
      var begun := Begun(Entry(states, ref), now);
      var t := WriteState(key.slot, Row(ref.version, ref.epoch, begun), Some(AttemptOf(key, ref, begun)), previous);
      KnownMore(latest, pending, key, ref, begun);
      BeginWritable(store, states, pending, synthetic, trace, now, key, ref, t);
      ghost var before := store;
      b := WriteApplying(key, ref, t, Entry(states, ref).status.Applying?);
      BegunOnward(before, store, t);
    }

    method WriteApplying(key: ProbeKey, ref: Ref, t: Transition, resumed: bool) returns (b: Begin)
      requires Live() && KnownKey(latest, key) && Begins(key, ref, t, now) && Writable(store, trace, now, t)
      requires KnownRequirements(latest, OptionSet(Upserted(t)))
      requires Commit(store, t).Some? ==> Cleared(trace + [Committed(t)], key, ref, t.row.state, now, resumed)
      requires forall k | k in pending && k.slot == key.slot :: k == key
      modifies this`store, this`states, this`pending, this`synthetic, this`startupProbeRequired, this`reloadNeeded,
               this`epochs, this`confirmed, this`evidence, this`alive, this`trace
      ensures Valid() && Quiet(old(trace), trace) && !b.Recovered?
      ensures b.NotStarted? ==> !b.reason.Finished? && !b.reason.StaleCompletion?
      ensures b.Started? ==> Ready(key, b)
      ensures b.Started? ==> b == Started(ref, now, resumed) && states[ref] == t.row.state
      ensures Onward(old(store), store, Raises(old(store), t))
    {
      hide Safe, Synced, Confirmations, Cleared, Writable, Stands, Onward, Raises, KnownKey, KnownPending, KnownRequirements,
           OptionSet, Underway, PendingWithin, RowEntry, Commit, ResetReach, Resolved, ValidTransition;
      ghost var known, before := pending, store;
      var previous := if key in pending then {pending[key]} else {};
      var r := ApplyTransition(t, false);
      if !r.Persisted? {
        return NotStarted(StoreFailed);
      }
      Accepted(before, t);
      BeginSettled(store, states, known, pending, synthetic, trace, now, key, ref, t, synthetic - previous, resumed);
      KnownMore(latest, pending, key, ref, t.row.state);
      states := states[ref := t.row.state];
      pending := pending[key := ref];
      synthetic := synthetic - previous;
      b := Started(ref, now, resumed);
    }

    // ----- ending an attempt

    /** finishFailureLocked: the attempt waits for its deadline or has used its budget. */
    method FinishFailure(key: ProbeKey, ref: Ref, code: string, canRetry: bool, requireProbe: bool, observed: bool, ghost at: Time)
      returns (ok: bool)
      requires Live() && Underway(store, states, pending, key, ref, at) && (!requireProbe ==> Answered(trace))
      modifies this`store, this`states, this`pending, this`synthetic, this`startupProbeRequired, this`reloadNeeded,
               this`epochs, this`confirmed, this`evidence, this`alive, this`trace, this`now
      ensures Valid() && Quiet(old(trace), trace) && old(now) <= now && Unresolved(trace) <= Unresolved(old(trace))
      ensures requireProbe ==> Unresolved(trace) == Unresolved(old(trace))
      ensures ok ==>
                && old(ref in states && 1 <= states[ref].attempts) && ref in states
                && states[ref] == Failed(old(states[ref]), code, canRetry, now) && Recorded(store, key, ref, states[ref], requireProbe)
      ensures Onward(old(store), store, None)
    {
      hide Safe, Synced, Confirmations, KnownPending, KnownRequirements, Onward, ResetReach, Resolved, Underway;
      Tick();
      UnderwayEntry(store, states, pending, key, ref, at);
      var state := Failed(states[ref], code, canRetry, now);
      OtherTransactions();
      ResetsOnward(old(store), store);
      StaysUnderway(old(store), store, states, pending, key, ref, at, trace, now);
      ghost var before := store;
      ok := EndAttempt(key, ref, state, requireProbe, observed, at);
      OnwardThrough(old(store), before, store, None, None);
    }

    method EndAttempt(key: ProbeKey, ref: Ref, state: RetryState, requireProbe: bool, observed: bool, ghost at: Time)
      returns (ok: bool)
      requires Live() && Underway(store, states, pending, key, ref, at) && (!requireProbe ==> Answered(trace))
      requires Ends(states, ref, state, at, now)
      modifies this`store, this`states, this`pending, this`synthetic, this`startupProbeRequired, this`reloadNeeded,
               this`epochs, this`confirmed, this`evidence, this`alive, this`trace
      ensures Valid() && Quiet(old(trace), trace) && Unresolved(trace) <= Unresolved(old(trace))
      ensures requireProbe ==> Unresolved(trace) == Unresolved(old(trace))
      ensures ok ==> ref in states && states[ref] == state && Recorded(store, key, ref, states[ref], requireProbe)
      ensures Onward(old(store), store, None)
    {
      hide Safe, Synced, Confirmations, KnownPending, KnownRequirements, KnownKey, Onward, Resolved, Underway, Ends, Recorded,
           Writable, Stands, Raises, PendingWithin, RowEntry, Commit, OptionSet, ValidTransition, Reinstatable;
      UnderwayEntry(store, states, pending, key, ref, at);
      PendingIsKnown(latest, pending, key);
      EndsIsNotApplying(states, ref, state, at, now);
      var probe := AttemptOf(key, ref, state);
      var t := WriteState(key.slot, Row(ref.version, ref.epoch, state),
                          if requireProbe then Some(probe) else None, if requireProbe then None else Some(probe));
      ghost var before, known := store, pending;
      FailureWritable(store, states, pending, synthetic, trace, now, key, ref, at, state, requireProbe, t);
      KnownMore(latest, pending, key, ref, state);
      ReinstateReady(store, states, pending, synthetic, trace, now, key, ref, at);
      if requireProbe {
        NothingRemoved(t);
      }
      var r := ApplyTransition(t, observed);
      if r.Persisted? {
        Accepted(before, t);
        RecordedWhen(store, states, pending, synthetic, trace, now, key, ref, t);
        FailureSettled(before, store, states, known, pending, synthetic, trace, now, key, ref, t);
        KnownLess(latest, pending, key, ref);
        states := states[ref := state];
        pending := if requireProbe then pending[key := ref] else pending - {key};
        return true;
      }
      if alive {
        StillReady(before, store, known, pending, key, ref, t);
        Reinstate(key, ref);
      }
      ok := false;
    }

    // ----- settling a requirement after a Probe

    /** finishStaleLocked: the requirement of a key that is no longer desired is dropped,
        together with its own entry or beside the entry that superseded it. */
    method FinishStale(key: ProbeKey, ref: Ref) returns (ok: bool)
      requires Live() && Resolved(trace) && desired.Some? && KnownKey(latest, key)
      requires ref.slot == key.slot && ref.version == key.version
      modifies this`store, this`states, this`pending, this`synthetic, this`startupProbeRequired, this`reloadNeeded,
               this`epochs, this`confirmed, this`evidence, this`alive, this`trace
      ensures Valid() && Quiet(old(trace), trace) && Resolved(trace) && Onward(old(store), store, None)
      ensures alive && !reloadNeeded ==> PendingWithin(old(pending), pending, None)
      ensures ok ==> Live() && RequirementsAt(store, key.slot) == {}
      ensures ok ==> old(ref in states) && ref in states && states[ref] == Stale(old(states[ref]))
    {
      hide Safe, Synced, Confirmations, KnownPending, KnownRequirements, KnownKey, Onward, Resolved, ResetReach, PendingWithin,
           RequirementsAt;
      OnwardItself(store);
      PendingItself(pending);
      if ref !in states {
        return false;
      }
      OtherTransactions();
      ResetsOnward(old(store), store);
      ghost var before := store;
      var current := CurrentRef(key.slot);
      var stateRef := if current.Some? && current.value in states then current.value else ref;
      if (ref in synthetic && stateRef == ref) || stateRef.version != ref.version {
        NewerRow(latest, store, states, pending, synthetic, trace, now, key, ref, stateRef);
        ok := DropRequirement(key, ref);
      } else {
        ok := ClearStale(key, ref, stateRef);
      }
      OnwardThrough(old(store), before, store, None, None);
    }

    method DropRequirement(key: ProbeKey, ref: Ref) returns (ok: bool)
      requires Live() && Resolved(trace) && ref in states && ref.slot == key.slot && ref.version == key.version
      requires key.slot in store.rows && Below(ref, RowRef(key.slot, store.rows[key.slot]))
      modifies this`store, this`states, this`pending, this`synthetic, this`startupProbeRequired, this`reloadNeeded,
               this`epochs, this`confirmed, this`evidence, this`alive, this`trace
      ensures Valid() && Quiet(old(trace), trace) && Resolved(trace) && Onward(old(store), store, None)
      ensures alive && !reloadNeeded ==> PendingWithin(old(pending), pending, None)
      ensures ok ==> Live() && RequirementsAt(store, key.slot) == {}
      ensures ok ==> old(ref in states) && ref in states && states[ref] == Stale(old(states[ref]))
    {
      hide Safe, Synced, Confirmations, KnownPending, KnownRequirements, KnownKey, Onward, Resolved, Unresolved, ResetReach,
           Writable, Stands, Raises, PendingWithin, RowEntry, Commit, OptionSet, ValidTransition, RequirementsAt;
      var t := DeleteOnly(AttemptOf(key, ref, states[ref]));
      ghost var before := store;
      DropWritable(store, trace, now, t.gone);
      NoneKnown(latest);
      var stale := Stale(states[ref]);
      var r := ApplyTransition(t, false);
      ResolvedSame(old(trace), trace);
      DropOnward(before, store, t);
      ok := r.Persisted?;
      if ok {
        DropSettled(before, store, states, pending, synthetic, trace, now, t, ref, stale);
        states := states[ref := stale];
        synthetic := synthetic - {ref};
      }
    }

    method ClearStale(key: ProbeKey, ref: Ref, stateRef: Ref) returns (ok: bool)
      requires Live() && Resolved(trace) && ref in states && ref.slot == key.slot && ref.version == key.version
      requires stateRef in states && stateRef.slot == key.slot
      modifies this`store, this`states, this`pending, this`synthetic, this`startupProbeRequired, this`reloadNeeded,
               this`epochs, this`confirmed, this`evidence, this`alive, this`trace
      ensures Valid() && Quiet(old(trace), trace) && Resolved(trace) && Onward(old(store), store, None)
      ensures alive && !reloadNeeded ==> PendingWithin(old(pending), pending, None)
      ensures ok ==> Live() && RequirementsAt(store, key.slot) == {}
      ensures ok ==> old(ref in states) && ref in states && states[ref] == Stale(old(states[ref]))
    {
      hide Safe, Synced, Confirmations, KnownPending, KnownRequirements, KnownKey, Onward, Resolved, Unresolved, ResetReach,
           Writable, Stands, Raises, PendingWithin, RowEntry, Commit, OptionSet, ValidTransition, RequirementsAt;
      var stale := Stale(states[ref]);
      var state := if stateRef == ref then stale else states[stateRef];
      var t := WriteState(key.slot, Row(stateRef.version, stateRef.epoch, state), None, Some(AttemptOf(key, ref, states[ref])));
      ghost var before, entries := store, states;
      ClearWritable(store, states, pending, synthetic, trace, now, key, ref, stateRef, state, t);
      NoneKnown(latest);
      EntryIsBehind(store, states, pending, synthetic, trace, now, ref);
      var r := ApplyTransition(t, false);
      ResolvedSame(old(trace), trace);
      ok := r.Persisted?;
      if ok {
        Accepted(before, t);
        ClearSettled(before, store, entries, states, pending, synthetic, trace, now, key, ref, stateRef, stale, t);
        states := states[ref := stale];
        synthetic := synthetic - {ref};
      }
    }

    /** A slot without requirements needs no Probe. */
    method Forget(key: ProbeKey)
      requires Live() && RequirementsAt(store, key.slot) == {}
      modifies this`pending
      ensures Live() && pending == old(pending) - {key}
    {
      hide Safe, Confirmations, KnownRequirements;
      Forgotten(store, states, pending, synthetic, trace, now, key);
      pending := pending - {key};
    }

    /** Memory after convergence was stored. */
    method AdoptConverged(t: Transition, snapshot: Snapshot, settled: set<Ref>)
      requires Sound() && alive && !reloadNeeded && Stands(store, states, pending, synthetic, trace, now, t)
      requires t.WriteState? && t.upsert.None? && ValidTransition(t) && !t.row.state.status.Applying?
      requires CurrentVersion(desired, t.slot) == Some(t.row.version)
      requires Probed(snapshot) in trace && SnapshotMatches(desired, snapshot, t.slot)
      modifies this`states, this`synthetic, this`confirmed, this`evidence
      ensures Live() && states == old(states)[RowRef(t.slot, t.row) := t.row.state]
      ensures RequirementsAt(store, t.slot) == {} && t.slot in store.rows && store.rows[t.slot] == t.row
      ensures t.slot.TargetSlot? ==> t.slot.prefix in confirmed && confirmed[t.slot.prefix] == t.row.version
    {
      hide Safe, Synced, Confirmations, KnownPending, KnownRequirements, Stands, RequirementsAt, ValidTransition;
      RowStands(store, states, pending, synthetic, trace, now, t);
      ConvergeSettled(store, states, pending, synthetic, trace, now, t, synthetic - settled);
      states := states[RowRef(t.slot, t.row) := t.row.state];
      synthetic := synthetic - settled;
      Confirm(t.slot, t.row.version, snapshot);
    }

    /** A Probe established the desired state: the key's current entry converges and its
        requirement is cleared. */
    method Converge(key: ProbeKey, ref: Ref, stateRef: Ref, snapshot: Snapshot, observed: bool, settled: set<Ref>)
      returns (r: Persist)
      requires Live() && Resolved(trace) && ref in states && ref.slot == key.slot && ref.version == key.version
      requires stateRef.slot == key.slot && stateRef.version == key.version && KeyMatches(desired, key)
      requires Probed(snapshot) in trace && SnapshotMatches(desired, snapshot, key.slot)
      modifies this`store, this`states, this`pending, this`synthetic, this`startupProbeRequired, this`reloadNeeded,
               this`epochs, this`confirmed, this`evidence, this`alive, this`trace
      ensures Valid() && Quiet(old(trace), trace) && Resolved(trace) && Onward(old(store), store, None)
      ensures alive && !reloadNeeded ==> PendingWithin(old(pending), pending, None)
      ensures r.Persisted? ==> Live() && RequirementsAt(store, key.slot) == {}
      ensures r.Persisted? ==> stateRef in states && states[stateRef] == Convergence(Entry(old(states), stateRef))
      ensures r.Persisted? ==> Recorded(store, key, stateRef, states[stateRef], false)
      ensures r.Persisted? && key.slot.TargetSlot? ==>
                key.slot.prefix in confirmed && confirmed[key.slot.prefix] == key.version
    {
      hide Safe, Synced, Confirmations, KnownPending, KnownRequirements, KnownKey, Onward, Resolved, Unresolved, ResetReach,
           Writable, Stands, Raises, PendingWithin, RowEntry, Commit, OptionSet, ValidTransition, RequirementsAt, Recorded;
      OtherTransactions();
      ghost var before := store;
      var state := Convergence(Entry(states, stateRef));
      var t := WriteState(key.slot, Row(stateRef.version, stateRef.epoch, state), None, Some(AttemptOf(key, ref, states[ref])));
      ClearWritable(store, states, pending, synthetic, trace, now, key, ref, stateRef, state, t);
      NoneKnown(latest);
      r := ApplyTransition(t, observed);
      ResolvedSame(old(trace), trace);
      SettledOnward(old(store), before, store, t);
      if r.Persisted? {
        Accepted(before, t);
        RecordedWhen(store, states, pending, synthetic, trace, now, key, stateRef, t);
        AdoptConverged(t, snapshot, settled);
      }
    }

    /** finishRecoveredPendingLocked and finishRecoveredByProbeLocked, which differ only in
        where the current entry is missing. */
    method FinishRecovered(key: ProbeKey, ref: Ref, byPlan: bool, snapshot: Snapshot) returns (ok: bool)
      requires Live() && Resolved(trace) && ref.slot == key.slot && ref.version == key.version && KeyMatches(desired, key)
      requires Probed(snapshot) in trace && SnapshotMatches(desired, snapshot, key.slot)
      modifies this`store, this`states, this`pending, this`synthetic, this`startupProbeRequired, this`reloadNeeded,
               this`epochs, this`confirmed, this`evidence, this`alive, this`trace
      ensures Valid() && Quiet(old(trace), trace) && Resolved(trace) && Onward(old(store), store, None)
      ensures alive && !reloadNeeded ==> PendingWithin(old(pending), pending, None)
      ensures ok ==> Live() && RequirementsAt(store, key.slot) == {}
      ensures ok && key.slot.TargetSlot? ==> key.slot.prefix in confirmed && confirmed[key.slot.prefix] == key.version
    {
      hide Safe, Synced, Confirmations, KnownPending, KnownRequirements, KnownKey, Onward, Resolved, PendingWithin, RequirementsAt;
      OnwardItself(store);
      PendingItself(pending);
      if ref !in states {
        return false;
      }
      var current := Ref(key.slot, key.version, Epoch(key.slot));
      var r := Converge(key, ref, if byPlan || current in states then current else ref, snapshot, false, {ref});
      ok := r.Persisted?;
    }

    /** A target whose current intent a Probe saw is confirmed. */
    method Confirm(slot: Slot, version: nat, snapshot: Snapshot)
      requires Live() && CurrentVersion(desired, slot) == Some(version)
      requires Probed(snapshot) in trace && SnapshotMatches(desired, snapshot, slot)
      modifies this`confirmed, this`evidence
      ensures Live()
      ensures slot.TargetSlot? ==> confirmed == old(confirmed)[slot.prefix := version]
      ensures !slot.TargetSlot? ==> confirmed == old(confirmed)
    {
      hide Safe, Synced, KnownPending, KnownRequirements, PhysicalTargetMatches;
      if slot.TargetSlot? {
        confirmed := confirmed[slot.prefix := version];
        evidence := evidence[slot.prefix := snapshot];
      }
    }

    /** resolvePendingProbesLocked on one pending requirement. */
    method ResolveOne(key: ProbeKey, ref: Ref, snapshot: Snapshot, current: Option<ProbeKey>) returns (ok: bool, resolved: bool)
      requires Live() && Resolved(trace) && desired.Some? && KnownKey(latest, key) && Probed(snapshot) in trace
      requires ref.slot == key.slot && ref.version == key.version
      modifies this`store, this`states, this`pending, this`synthetic, this`startupProbeRequired, this`reloadNeeded,
               this`epochs, this`confirmed, this`evidence, this`alive, this`trace
      ensures Valid() && Quiet(old(trace), trace) && Resolved(trace) && Onward(old(store), store, None)
      ensures alive && !reloadNeeded ==> PendingWithin(old(pending), pending, None)
      ensures ok ==> Live() && (key in pending ==> KeyMatches(desired, key) && !SnapshotMatches(desired, snapshot, key.slot))
      ensures ok ==> (resolved <==> KeyMatches(desired, key) && SnapshotMatches(desired, snapshot, key.slot))
    {
      hide Safe, Synced, Confirmations, KnownPending, KnownRequirements, KnownKey, Onward, Resolved, PendingWithin, RequirementsAt,
           KeyMatches, SnapshotMatches;
      resolved := false;
      if !KeyMatches(desired, key) {
        ok := FinishStale(key, ref);
      } else if !SnapshotMatches(desired, snapshot, key.slot) {
        OnwardItself(store);
        PendingItself(pending);
        return true, false;
      } else {
        ok := FinishRecovered(key, ref, current == Some(key), snapshot);
        resolved := true;
      }
      if ok {
        PendingLess(old(pending), pending, key);
        Forget(key);
      }
    }

    /** resolvePendingProbesLocked, and the same loop of probeRecovery and
        probeStartupRecovery: one Probe settles every pending requirement it can. What stays
        pending is current and drifted. */
    method ResolvePending(snapshot: Snapshot, current: Option<ProbeKey>) returns (ok: bool, resolved: set<ProbeKey>)
      requires Live() && Resolved(trace) && desired.Some? && Probed(snapshot) in trace
      modifies this`store, this`states, this`pending, this`synthetic, this`startupProbeRequired, this`reloadNeeded,
               this`epochs, this`confirmed, this`evidence, this`alive, this`trace
      ensures Valid() && Quiet(old(trace), trace) && Resolved(trace) && Onward(old(store), store, None)
      ensures ok ==> Live() && Drifted(desired, snapshot, pending, {})
      ensures ok ==> forall key :: key in resolved <==>
                key in old(pending) && KeyMatches(desired, key) && SnapshotMatches(desired, snapshot, key.slot)
    {
      hide Safe, Synced, Confirmations, KnownPending, KnownRequirements, KnownKey, Onward, Resolved, PendingWithin,
           KeyMatches, SnapshotMatches, Drifted, Keyed;
      var entries, todo := pending, pending.Keys;
      resolved := {};
      KeyedEntries(store, states, pending, synthetic, trace, now);
      OnwardItself(store);
      PendingItself(pending);
      AllToDo(desired, snapshot, pending);
      while todo != {}
        invariant Live() && Resolved(trace) && Quiet(old(trace), trace) && Onward(old(store), store, None) && todo <= entries.Keys
        invariant PendingWithin(entries, pending, None) && Drifted(desired, snapshot, pending, todo)
        invariant forall key :: key in resolved <==>
                    key in entries && key !in todo && KeyMatches(desired, key) && SnapshotMatches(desired, snapshot, key.slot)
        decreases |todo|
      {
        var key :| key in todo;
        KeyedAt(entries, key);
        PendingIsKnown(latest, entries, key);
        ghost var before, known := store, pending;
        var settled;
        ok, settled := ResolveOne(key, entries[key], snapshot, current);
        OnwardThrough(old(store), before, store, None, None);
        if !ok {
          return;
        }
        PendingThrough(entries, known, pending);
        DoneOne(desired, snapshot, known, pending, todo, key);
        resolved := if settled then resolved + {key} else resolved;
        todo := todo - {key};
      }
      ok := true;
    }

    /** ApplyObservedFirewallUpdate may fail; observations are not part of the model. */
    method RecordObserved() returns (ok: bool) {
      ok := *;
    }

    /** beginAfterRequiredProbe. */
    method BeginAfterRequiredProbe(plan: Plan, snapshot: Snapshot) returns (b: Begin)
      requires Live() && Resolved(trace) && Probed(snapshot) in trace
      modifies this`store, this`states, this`pending, this`synthetic, this`startupProbeRequired, this`reloadNeeded,
               this`epochs, this`confirmed, this`evidence, this`alive, this`trace, this`now
      ensures Valid() && Quiet(old(trace), trace) && old(now) <= now
      ensures b.NotStarted? ==> !b.reason.Finished? && !b.reason.StaleCompletion?
      ensures b.Started? ==> Ready(PlanKey(plan), b) && desired.Some?
      ensures b.Started? ==> !(PlanKey(plan) in old(pending) && SnapshotMatches(desired, snapshot, PlanSlot(plan)))
      ensures b.Recovered? ==> PlanKey(plan) in old(pending) && SnapshotMatches(desired, snapshot, PlanSlot(plan))
      ensures Onward(old(store), store, Some(PlanSlot(plan)))
    {
      hide Safe, Synced, Confirmations, KnownPending, KnownRequirements, KnownKey, Onward, Resolved, PendingWithin,
           KeyMatches, SnapshotMatches, Ready, Drifted, PlanMatches;
      var key := PlanKey(plan);
      OnwardItself(store);
      OnwardMore(store, store, None, Some(key.slot));
      if !PlanMatches(desired, plan) {
        return NotStarted(StalePlan);
      }
      var fence := ExpirationFence(desired, plan, now);
      if !fence.Open? {
        return NotStarted(if fence.Outdated? then StalePlan else IntentExpired);
      }
      var recorded := RecordObserved();
      if !recorded {
        return NotStarted(StoreFailed);
      }
      PlanIsKnown(desired, plan);
      PlanKeyMatches(desired, plan);
      var ok, resolved := ResolvePending(snapshot, Some(key));
      OnwardMore(old(store), store, None, Some(key.slot));
      if !ok {
        return NotStarted(StoreFailed);
      }
      if key in resolved {
        return Recovered;
      }
      DriftedKeys(latest, desired, snapshot, pending, plan);
      ghost var before := store;
      b := BeginAttempt(plan);
      OnwardThrough(old(store), before, store, Some(key.slot), Some(key.slot));
    }

    /** beginAfterStartupProbe: reached when nothing is pending. */
    method BeginAfterStartupProbe(plan: Plan, snapshot: Snapshot) returns (b: Begin)
      requires Live() && Resolved(trace) && Probed(snapshot) in trace && pending == map[]
      modifies this`store, this`states, this`pending, this`synthetic, this`startupProbeRequired, this`reloadNeeded,
               this`epochs, this`confirmed, this`evidence, this`alive, this`trace, this`now
      ensures Valid() && Quiet(old(trace), trace) && old(now) <= now
      ensures b.NotStarted? ==> !b.reason.Finished? && !b.reason.StaleCompletion?
      ensures b.Started? ==> Ready(PlanKey(plan), b) && desired.Some?
      ensures b.Started? ==> !SnapshotMatches(desired, snapshot, PlanSlot(plan))
      ensures b.Recovered? ==> SnapshotMatches(desired, snapshot, PlanSlot(plan)) && !startupProbeRequired
      ensures b.Recovered? && plan.TargetPlan? ==>
                plan.intent.target in confirmed && confirmed[plan.intent.target] == plan.intent.generation
      ensures Onward(old(store), store, Some(PlanSlot(plan)))
    {
      hide Safe, Synced, Confirmations, KnownPending, KnownRequirements, KnownKey, Onward, Resolved, PendingWithin,
           SnapshotMatches, Ready, Underway, Cleared, Sound, InStep, ExpirationFence;
      var key := PlanKey(plan);
      OnwardItself(store);
      OnwardMore(store, store, None, Some(key.slot));
      if !PlanMatches(desired, plan) {
        return NotStarted(StalePlan);
      }
      var fence := ExpirationFence(desired, plan, now);
      if !fence.Open? {
        return NotStarted(if fence.Outdated? then StalePlan else IntentExpired);
      }
      var recorded := RecordObserved();
      if !recorded {
        return NotStarted(StoreFailed);
      }
      if !SnapshotMatches(desired, snapshot, key.slot) {
        b := BeginAttempt(plan);
        if b.Started? {
          ReadyWithoutStartup(PlanKey(plan), b);
        }
        return;
      }
      UnbarredSlot(key.slot);
      var ok := ConvergeUnbarred(Ref(key.slot, key.version, Epoch(key.slot)), snapshot);
      OnwardMore(old(store), store, None, Some(key.slot));
      if !ok {
        return NotStarted(StoreFailed);
      }
      StartupDone();
      b := Recovered;
    }

    lemma UnbarredSlot(slot: Slot)
      requires Live() && pending == map[]
      ensures RequirementsAt(store, slot) == {}
    {
      NothingPending(store, states, pending, synthetic, trace, now, slot);
    }

    method StartupDone()
      requires Valid()
      modifies this`startupProbeRequired
      ensures Valid() && !startupProbeRequired
    {
      startupProbeRequired := false;
    }

    method ReadyWithoutStartup(key: ProbeKey, b: Begin)
      requires b.Started? && Ready(key, b)
      modifies this`startupProbeRequired
      ensures Valid() && Ready(key, b)
    {
      startupProbeRequired := false;
    }

    /** A Probe established the desired state of a slot that nothing bars. */
    method ConvergeUnbarred(ref: Ref, snapshot: Snapshot) returns (ok: bool)
      requires Live() && RequirementsAt(store, ref.slot) == {} && CurrentVersion(desired, ref.slot) == Some(ref.version)
      requires Resolved(trace) && Probed(snapshot) in trace && SnapshotMatches(desired, snapshot, ref.slot)
      modifies this`store, this`states, this`pending, this`synthetic, this`startupProbeRequired, this`reloadNeeded,
               this`epochs, this`confirmed, this`evidence, this`alive, this`trace
      ensures Valid() && Quiet(old(trace), trace) && Resolved(trace) && Onward(old(store), store, None)
      ensures alive && !reloadNeeded ==> PendingWithin(old(pending), pending, None)
      ensures ok ==> Live() && ref in states && states[ref] == Convergence(Entry(old(states), ref))
      ensures ok ==> ref.slot in store.rows && store.rows[ref.slot] == Row(ref.version, ref.epoch, states[ref])
      ensures ok && ref.slot.TargetSlot? ==> ref.slot.prefix in confirmed && confirmed[ref.slot.prefix] == ref.version
    {
      hide Safe, Synced, Confirmations, KnownPending, KnownRequirements, KnownKey, Onward, Resolved, Unresolved, ResetReach,
           Writable, Stands, Raises, PendingWithin, RowEntry, Commit, OptionSet, ValidTransition, RequirementsAt;
      OtherTransactions();
      ghost var before := store;
      StaysUnbarred(old(store), store, ref.slot);
      var state := Convergence(Entry(states, ref));
      var t := WriteState(ref.slot, Row(ref.version, ref.epoch, state), None, None);
      ConvergeWritable(store, states, pending, synthetic, trace, now, ref, state, t);
      NoneKnown(latest);
      var r := ApplyTransition(t, false);
      ResolvedSame(old(trace), trace);
      SettledOnward(old(store), before, store, t);
      ok := r.Persisted?;
      if ok {
        Accepted(before, t);
        AdoptConverged(t, snapshot, {});
      }
    }

    // ----- committing a confirmed Apply

    /** commitConfirmed: fence, postcondition and writeback under one lock. */
    method CommitConfirmed(plan: Plan, ref: Ref, snapshot: Snapshot, ghost at: Time) returns (r: Execution)
      requires Live() && Resolved(trace) && desired.Some? && Probed(snapshot) in trace
      requires Underway(store, states, pending, PlanKey(plan), ref, at)
      modifies this`store, this`states, this`pending, this`synthetic, this`startupProbeRequired, this`reloadNeeded,
               this`epochs, this`confirmed, this`evidence, this`alive, this`trace, this`now
      ensures AfterApply(r)
      ensures r.Finished? ==> PlanMatches(desired, plan) && ref in states
      ensures r.Finished? && SnapshotMatches(desired, snapshot, PlanSlot(plan)) ==>
                states[ref].status.Converged? && Recorded(store, PlanKey(plan), ref, states[ref], false)
      ensures r.Finished? && SnapshotMatches(desired, snapshot, PlanSlot(plan)) && plan.TargetPlan? ==>
                plan.intent.target in confirmed && confirmed[plan.intent.target] == plan.intent.generation
      ensures r.Finished? && !SnapshotMatches(desired, snapshot, PlanSlot(plan)) ==>
                && old(ref in states && 1 <= states[ref].attempts)
                && states[ref] == Failed(old(states[ref]), "postcondition_mismatch", true, now)
                && Recorded(store, PlanKey(plan), ref, states[ref], false)
      ensures Valid() && Quiet(old(trace), trace) && old(now) <= now && Onward(old(store), store, None)
    {
      hide Safe, Synced, Confirmations, KnownPending, KnownRequirements, KnownKey, Onward, Resolved, PendingWithin, RequirementsAt, Underway, PlanMatches, SnapshotMatches, Recorded;
      var key := PlanKey(plan);
      OnwardItself(store);
      UnderwayEntry(store, states, pending, key, ref, at);
      var validated: bool := *;
      if !validated {
        return StoreFailed;
      }
      if !PlanMatches(desired, plan) {
        r := CommitStale(key, ref, at);
        return;
      }
      if !SnapshotMatches(desired, snapshot, key.slot) {
        ResolvedIsAnswered(trace);
        var finished := FinishFailure(key, ref, "postcondition_mismatch", true, false, true, at);
        return if finished then Finished else StoreFailed;
      }
      PlanKeyMatches(desired, plan);
      r := CommitConverged(plan, ref, snapshot, at);
    }

    /** The plan was superseded between Apply and its confirming Probe. */
    method CommitStale(key: ProbeKey, ref: Ref, ghost at: Time) returns (r: Execution)
      requires Live() && Resolved(trace) && desired.Some? && Underway(store, states, pending, key, ref, at)
      modifies this`store, this`states, this`pending, this`synthetic, this`startupProbeRequired, this`reloadNeeded,
               this`epochs, this`confirmed, this`evidence, this`alive, this`trace
      ensures AfterApply(r) && !r.Finished?
      ensures r.StaleCompletion? ==> Live() && RequirementsAt(store, key.slot) == {}
      ensures Valid() && Quiet(old(trace), trace) && Onward(old(store), store, None)
    {
      hide Safe, Synced, Confirmations, KnownPending, KnownRequirements, KnownKey, Onward, Resolved, PendingWithin, RequirementsAt, Underway, Reinstatable;
      OnwardItself(store);
      UnderwayEntry(store, states, pending, key, ref, at);
      PendingIsKnown(latest, pending, key);
      ReinstateReady(store, states, pending, synthetic, trace, now, key, ref, at);
      var recorded := RecordObserved();
      if !recorded {
        Reinstate(key, ref);
        return StoreFailed;
      }
      ghost var before, known := store, pending;
      var ok := FinishStale(key, ref);
      if ok {
        return StaleCompletion;
      }
      if alive {
        StillReinstatable(before, store, known, pending, key, ref);
        Reinstate(key, ref);
      }
      r := StoreFailed;
    }

    /** finishConvergedLocked, and reloadSupersededTargetCompletionLocked when the store
        says that the target has moved on. */
    method CommitConverged(plan: Plan, ref: Ref, snapshot: Snapshot, ghost at: Time) returns (r: Execution)
      requires Live() && Resolved(trace) && Probed(snapshot) in trace && KeyMatches(desired, PlanKey(plan))
      requires SnapshotMatches(desired, snapshot, PlanSlot(plan)) && Underway(store, states, pending, PlanKey(plan), ref, at)
      modifies this`store, this`states, this`pending, this`synthetic, this`startupProbeRequired, this`reloadNeeded,
               this`epochs, this`confirmed, this`evidence, this`alive, this`trace
      ensures AfterApply(r)
      ensures r.Finished? ==>
                && ref in states && states[ref].status.Converged? && PlanKey(plan) !in pending
                && Recorded(store, PlanKey(plan), ref, states[ref], false)
      ensures r.StaleCompletion? ==>
                PlanSlot(plan) in store.rows && PlanKey(plan).version < store.rows[PlanSlot(plan)].version
      ensures Valid() && Quiet(old(trace), trace) && Onward(old(store), store, None)
      ensures r.Finished? && plan.TargetPlan? ==>
                plan.intent.target in confirmed && confirmed[plan.intent.target] == plan.intent.generation
    {
      hide Safe, Synced, Confirmations, KnownPending, KnownRequirements, KnownKey, Onward, Resolved, PendingWithin, RequirementsAt, Underway, Reinstatable, SnapshotMatches, KeyMatches, ResetReach, Recorded;
      var key := PlanKey(plan);
      UnderwayEntry(store, states, pending, key, ref, at);
      PendingIsKnown(latest, pending, key);
      ReinstateReady(store, states, pending, synthetic, trace, now, key, ref, at);
      ghost var before, known := store, pending;
      var p := Converge(key, ref, ref, snapshot, true, {});
      if p.Persisted? {
        Forget(key);
        return Finished;
      }
      if !alive {
        return ProcessDied;
      }
      StillReinstatable(before, store, known, pending, key, ref);
      var superseded := false;
      if p.Regression? && plan.TargetPlan? {
        superseded := ReloadSuperseded(key);
      }
      if !superseded {
        Reinstate(key, ref);
      }
      r := if superseded then StaleCompletion else StoreFailed;
    }

    /** reloadSupersededTargetCompletionLocked. */
    method ReloadSuperseded(key: ProbeKey) returns (superseded: bool)
      requires Valid() && alive
      modifies this`states, this`pending, this`synthetic, this`startupProbeRequired, this`reloadNeeded, this`epochs,
               this`confirmed, this`evidence
      ensures Valid() && (superseded ==> !reloadNeeded && key.slot in store.rows && key.version < store.rows[key.slot].version)
      ensures !superseded ==> reloadNeeded == old(reloadNeeded) && pending == old(pending)
    {
      hide Safe, Synced, Confirmations, KnownPending, KnownRequirements, HydratedMemory, Durable;
      var loadFails: bool := *;
      superseded := !loadFails && key.slot in store.rows && key.version < store.rows[key.slot].version;
      if superseded {
        var ok := ReplaceRecovery();
        reloadNeeded := !ok;
      }
    }

    // ----- Execute

    lemma Unbarred()
      requires Live() && pending == map[]
      ensures Resolved(trace)
    {
      NothingUnresolved(store, states, pending, synthetic, trace, now);
    }

    /** Execute, up to a begun attempt: fence, Probe barrier, write-ahead. */
    method BeginExecution(plan: Plan) returns (b: Begin)
      requires Live()
      modifies this`store, this`states, this`pending, this`synthetic, this`startupProbeRequired, this`reloadNeeded,
               this`epochs, this`confirmed, this`evidence, this`alive, this`trace, this`now, this`desired, this`latest
      ensures Valid() && Quiet(old(trace), trace) && old(now) <= now
      ensures b.NotStarted? ==> !b.reason.Finished? && !b.reason.StaleCompletion?
      ensures b.Started? ==> Ready(PlanKey(plan), b) && desired.Some?
      ensures Onward(old(store), store, Some(PlanSlot(plan)))
    {
      hide Safe, Synced, Confirmations, KnownPending, KnownRequirements, KnownKey, Onward, Resolved, PendingWithin, RequirementsAt, Underway, Cleared, ResetReach, Ready, PlanMatches,
           Sound, InStep, ExpirationFence;
      OnwardItself(store);
      OnwardMore(store, store, None, Some(PlanSlot(plan)));
      var fence := ExpirationFence(desired, plan, now);
      if !fence.Open? {
        return NotStarted(if fence.Outdated? then StalePlan else IntentExpired);
      }
      var barred, startup := pending != map[], startupProbeRequired;
      var freshBasis: bool := *;
      var snapshot := None;
      if barred || startup || freshBasis {
        snapshot := Probe();
        if snapshot.None? {
          return NotStarted(if alive then ProbeFailed else ProcessDied);
        }
      } else {
        Unbarred();
      }
      Interfere();
      ResetsOnward(old(store), store);
      OnwardMore(old(store), store, None, Some(PlanSlot(plan)));
      if !alive {
        return NotStarted(ProcessDied);
      }
      ghost var before := store;
      if barred {
        b := BeginAfterRequiredProbe(plan, snapshot.value);
      } else if startup {
        b := BeginAfterStartupProbe(plan, snapshot.value);
      } else if !PlanMatches(desired, plan) {
        return NotStarted(StalePlan);
      } else {
        PlanIsKnown(desired, plan);
        b := BeginAttempt(plan);
      }
      OnwardThrough(old(store), before, store, Some(PlanSlot(plan)), Some(PlanSlot(plan)));
    }

    /** Execute, from a begun attempt: the second fence, Apply, and what its answer means. */
    method FinishExecution(plan: Plan, b: Begin) returns (r: Execution)
      requires b.Started? && Ready(PlanKey(plan), b) && desired.Some?
      modifies this`store, this`states, this`pending, this`synthetic, this`startupProbeRequired, this`reloadNeeded,
               this`epochs, this`confirmed, this`evidence, this`alive, this`trace, this`now, this`desired, this`latest
      ensures Quiet(old(trace), trace) || OneApply(old(trace), trace, PlanKey(plan))
      ensures r.Finished? || r.StaleCompletion? ==> OneApply(old(trace), trace, PlanKey(plan))
      ensures !AfterApply(r) ==> Quiet(old(trace), trace)
      ensures Valid() && old(now) <= now && Onward(old(store), store, None)
    {
      hide Safe, Synced, Confirmations, KnownPending, KnownRequirements, KnownKey, Onward, Resolved, PendingWithin, RequirementsAt, Underway, Cleared, ResetReach;
      var key := PlanKey(plan);
      Interfere();
      ResetsOnward(old(store), store);
      if !alive {
        return ProcessDied;
      }
      StaysUnderway(old(store), store, states, pending, key, b.ref, b.at, trace, now);
      UnderwayEntry(store, states, pending, key, b.ref, b.at);
      ClearedIsResolved(trace, key, b.ref, states[b.ref], b.at, b.resumed);
      ResolvedIsAnswered(trace);
      ghost var before := store;
      var fence := ExpirationFence(desired, plan, now);
      if !fence.Open? {
        var code := if fence.Outdated? then "stale_before_apply" else "expired_before_apply";
        var finished := FinishFailure(key, b.ref, code, false, false, false, b.at);
        OnwardThrough(old(store), before, store, None, None);
        return if !finished then StoreFailed else if fence.Outdated? then StalePlan else IntentExpired;
      }
      var outcome := Apply(key, b.ref, b.at, b.resumed);
      if !alive {
        return ProcessDied;
      }
      r := Conclude(plan, b.ref, outcome, b.at);
      OnwardThrough(old(store), before, store, None, None);
    }

    /** Execute after Apply returned. */
    method Conclude(plan: Plan, ref: Ref, outcome: ApplyOutcome, ghost at: Time) returns (r: Execution)
      requires Live() && desired.Some? && Underway(store, states, pending, PlanKey(plan), ref, at)
      requires outcome.ApplyRejected? ==> Answered(trace)
      modifies this`store, this`states, this`pending, this`synthetic, this`startupProbeRequired, this`reloadNeeded,
               this`epochs, this`confirmed, this`evidence, this`alive, this`trace, this`now, this`desired, this`latest
      ensures AfterApply(r)
      ensures r.Finished? && !outcome.ApplyConfirmed? ==>
                && old(ref in states && 1 <= states[ref].attempts) && ref in states
                && states[ref] == Failed(old(states[ref]), OutcomeCode(outcome),
                                         outcome.ApplyRejected? ==> Retryable(OutcomeCode(outcome)), now)
                && Recorded(store, PlanKey(plan), ref, states[ref], !outcome.ApplyRejected?)
      ensures Valid() && Quiet(old(trace), trace) && old(now) <= now && Onward(old(store), store, None)
    {
      hide Safe, Synced, Confirmations, KnownPending, KnownRequirements, KnownKey, Onward, Resolved, PendingWithin, RequirementsAt, Underway, ResetReach, Recorded;
      var key := PlanKey(plan);
      OnwardItself(store);
      var finished;
      match outcome {
        case ApplyRejected(_) =>
          var code := OutcomeCode(outcome);
          finished := FinishFailure(key, ref, code, Retryable(code), false, false, at);
        case ApplyFailed =>
          finished := FinishUnknown(key, ref, OutcomeCode(outcome), at);
        case ApplyUnknown(_) =>
          finished := FinishUnknown(key, ref, OutcomeCode(outcome), at);
        case ApplyConfirmed =>
          var snapshot := Probe();
          if !alive {
            return ProcessDied;
          }
          if snapshot.None? {
            finished := FinishUnknown(key, ref, "confirm_probe_failed", at);
          } else {
            Interfere();
            ResetsOnward(old(store), store);
            if !alive {
              return ProcessDied;
            }
            StaysUnderway(old(store), store, states, pending, key, ref, at, trace, now);
            ghost var before := store;
            r := CommitConfirmed(plan, ref, snapshot.value, at);
            OnwardThrough(old(store), before, store, None, None);
            return;
          }
      }
      r := if finished then Finished else StoreFailed;
    }

    /** finishFailureAndRequireProbeObserved. */
    method FinishUnknown(key: ProbeKey, ref: Ref, code: string, ghost at: Time) returns (ok: bool)
      requires Live() && Underway(store, states, pending, key, ref, at)
      modifies this`store, this`states, this`pending, this`synthetic, this`startupProbeRequired, this`reloadNeeded,
               this`epochs, this`confirmed, this`evidence, this`alive, this`trace, this`now
      ensures Valid() && Quiet(old(trace), trace) && old(now) <= now && Onward(old(store), store, None)
      ensures ok ==>
                && old(ref in states && 1 <= states[ref].attempts) && ref in states
                && states[ref] == Failed(old(states[ref]), code, true, now) && Recorded(store, key, ref, states[ref], true)
    {
      hide Safe, Synced, Confirmations, KnownPending, KnownRequirements, KnownKey, Onward, Resolved, PendingWithin, RequirementsAt, Underway, Recorded;
      OnwardItself(store);
      var validated: bool := *;
      if !validated {
        return false;
      }
      ok := FinishFailure(key, ref, code, true, true, true, at);
    }

    /** Execute, for a valid plan. Whatever the backend, the store and the rest of the
        system do, it keeps every invariant and raises no attempt count but the plan's. */
    method Execute(plan: Plan) returns (r: Execution)
      requires Valid() && alive
      modifies this
      ensures Quiet(old(trace), trace) || OneApply(old(trace), trace, PlanKey(plan))
      ensures r.Finished? || r.StaleCompletion? ==> OneApply(old(trace), trace, PlanKey(plan))
      ensures !AfterApply(r) ==> Quiet(old(trace), trace)
      ensures Valid() && old(now) <= now
      ensures Onward(old(store), store, Some(PlanSlot(plan)))
    {
      hide Safe, Synced, Confirmations, KnownPending, KnownRequirements, KnownKey, Onward, Resolved, PendingWithin, RequirementsAt, Ready, ResetReach;
      OnwardItself(store);
      OnwardMore(store, store, None, Some(PlanSlot(plan)));
      var reloaded := ReloadRecoveryIfNeeded();
      if !reloaded {
        return ReloadFailed;
      }
      Interfere();
      ResetsOnward(old(store), store);
      OnwardMore(old(store), store, None, Some(PlanSlot(plan)));
      if !alive {
        return ProcessDied;
      }
      ghost var start := store;
      var b := BeginExecution(plan);
      OnwardThrough(old(store), start, store, Some(PlanSlot(plan)), Some(PlanSlot(plan)));
      match b {
        case NotStarted(reason) => return reason;
        case Recovered => return RecoveredByProbe;
        case Started(_, _, _) =>
          ghost var before := store;
          r := FinishExecution(plan, b);
          OnwardThrough(old(store), before, store, Some(PlanSlot(plan)), None);
      }
    }

    // ----- observation without mutation

    /** probeRecovery: a Probe settles what it can and begins no attempt. */
    method ProbeRecovery() returns (ok: bool, resolved: set<ProbeKey>, unresolved: set<Slot>)
      requires Valid() && alive
      modifies this
      ensures Valid() && Quiet(old(trace), trace) && old(now) <= now && Onward(old(store), store, None)
      ensures ok && desired.Some? ==> unresolved == SlotsOf(pending)
    {
      hide Safe, Synced, Confirmations, KnownPending, KnownRequirements, KnownKey, Onward, Resolved, PendingWithin, RequirementsAt, Drifted, SlotsOf, ResetReach;
      OnwardItself(store);
      resolved, unresolved := {}, {};
      ok := ReloadRecoveryIfNeeded();
      if !ok {
        return;
      }
      var snapshot := Probe();
      if snapshot.None? {
        return false, {}, {};
      }
      Interfere();
      ResetsOnward(old(store), store);
      if !alive {
        return false, {}, {};
      }
      if desired.None? {
        return;
      }
      ok := RecordObserved();
      if !ok {
        return;
      }
      ghost var before := store;
      ok, resolved := ResolvePending(snapshot.value, None);
      OnwardThrough(old(store), before, store, None, None);
      if ok {
        unresolved := SlotsOf(pending);
      }
    }

    /** probeStartupRecovery: every requested slot that the Probe saw converged is recorded
        as such without an attempt; exactly the drifted ones go back to the dispatcher. */
    method ProbeStartupRecovery(keys: seq<Slot>) returns (ok: bool, unresolved: set<Slot>, ghost seen: Option<Snapshot>)
      requires Valid() && alive
      modifies this
      ensures Valid() && Quiet(old(trace), trace) && old(now) <= now && Onward(old(store), store, None)
      ensures ok && seen.Some? ==>
                && Probed(seen.value) in trace && desired.Some? && !startupProbeRequired
                && (forall slot | slot in keys :: slot in unresolved <==> !SnapshotMatches(desired, seen.value, slot))
                && (forall slot | slot in SlotsOf(pending) :: slot in unresolved)
    {
      hide Safe, Synced, Confirmations, KnownPending, KnownRequirements, KnownKey, Onward, Resolved, PendingWithin, RequirementsAt, Drifted, SlotsOf, ResetReach, SnapshotMatches, KeyMatches,
           Sound, InStep;
      OnwardItself(store);
      unresolved, seen := {}, None;
      ok := ReloadRecoveryIfNeeded();
      if !ok {
        return;
      }
      var snapshot := Probe();
      if snapshot.None? {
        return false, {}, None;
      }
      Interfere();
      ResetsOnward(old(store), store);
      if !alive {
        return false, {}, None;
      }
      if desired.None? {
        StartupDone();
        return;
      }
      ok := RecordObserved();
      if !ok {
        return;
      }
      ghost var before := store;
      var resolved;
      ok, resolved := ResolvePending(snapshot.value, None);
      OnwardThrough(old(store), before, store, None, None);
      if !ok {
        return;
      }
      before := store;
      unresolved := SlotsOf(pending);
      DriftedSlots(desired, snapshot.value, pending);
      ghost var drifted := pending;
      PendingItself(pending);
      ok, unresolved := RecordConverged(keys, set key | key in resolved :: key.slot, unresolved, snapshot.value);
      OnwardThrough(old(store), before, store, None, None);
      if ok {
        WithinSlots(drifted, pending);
        StartupDone();
        seen := snapshot;
      }
    }

    method RecordConverged(keys: seq<Slot>, resolved: set<Slot>, drifted: set<Slot>, snapshot: Snapshot)
      returns (ok: bool, unresolved: set<Slot>)
      requires Live() && Resolved(trace) && Probed(snapshot) in trace && desired.Some?
      requires drifted == SlotsOf(pending) && forall slot | slot in drifted :: !SnapshotMatches(desired, snapshot, slot)
      requires forall slot | slot in resolved :: SnapshotMatches(desired, snapshot, slot)
      modifies this`store, this`states, this`pending, this`synthetic, this`startupProbeRequired, this`reloadNeeded,
               this`epochs, this`confirmed, this`evidence, this`alive, this`trace
      ensures Valid() && Quiet(old(trace), trace) && Onward(old(store), store, None)
      ensures ok ==> Live() && PendingWithin(old(pending), pending, None) && drifted <= unresolved
      ensures ok ==> forall slot | slot in keys :: slot in unresolved <==> !SnapshotMatches(desired, snapshot, slot)
    {
      hide Safe, Synced, Confirmations, KnownPending, KnownRequirements, KnownKey, Onward, Resolved, PendingWithin, RequirementsAt, SlotsOf, SnapshotMatches;
      unresolved := drifted;
      OnwardItself(store);
      PendingItself(pending);
      var i := 0;
      while i < |keys|
        invariant 0 <= i <= |keys|
        invariant Live() && Resolved(trace) && Quiet(old(trace), trace) && Onward(old(store), store, None)
        invariant PendingWithin(old(pending), pending, None) && drifted <= unresolved
        invariant forall slot | slot in unresolved :: !SnapshotMatches(desired, snapshot, slot)
        invariant forall k | 0 <= k < i :: keys[k] in unresolved <==> !SnapshotMatches(desired, snapshot, keys[k])
      {
        var slot := keys[i];
        i := i + 1;
        if slot in resolved {
          continue;
        }
        if !SnapshotMatches(desired, snapshot, slot) {
          unresolved := unresolved + {slot};
          continue;
        }
        var ref := CurrentRef(slot);
        if ref.None? {
          continue;
        }
        NothingDrifted(old(pending), pending, store, states, synthetic, trace, now, slot);
        ghost var before, known := store, pending;
        ok := ConvergeUnbarred(ref.value, snapshot);
        OnwardThrough(old(store), before, store, None, None);
        if !ok {
          return;
        }
        PendingThrough(old(pending), known, pending);
      }
      ok := true;
    }

    // ----- administrator retries

    /** RetryInfrastructure, RetryPolicy and RetryTarget: a new epoch, and with it a fresh
        budget, exists only once the ledger and its audit are stored together. */
    method Retry(slot: Slot) returns (ok: bool)
      requires Valid() && alive
      modifies this
      ensures Valid() && trace == old(trace) && now == old(now) && Onward(old(store), store, None)
      ensures ok ==>
                var ref := CurrentRef(slot);
                && ref.Some? && 0 < ref.value.epoch && ref.value in store.audits
                && ref.value in states && states[ref.value] == CLEAN
    {
      hide Safe, Synced, Confirmations, KnownPending, KnownRequirements, Onward, ResetReach, CommitRetry;
      OnwardItself(store);
      ok := ReloadRecoveryIfNeeded();
      if !ok {
        return;
      }
      if CurrentVersion(desired, slot).None? {
        return false;
      }
      var previous := Epoch(slot);
      if previous == MAX_UINT64 {
        return false;
      }
      var ref := Ref(slot, CurrentVersion(desired, slot).value, previous + 1);
      OtherTransactions();
      ResetsOnward(old(store), store);
      ghost var before := store;
      ok := PersistRetry(ref, previous);
      OnwardThrough(old(store), before, store, None, None);
      if ok {
        epochs := epochs[slot := ref.epoch];
      }
    }

    /** persistRetryLocked, and the ledger in memory after it. */
    method PersistRetry(ref: Ref, previous: nat) returns (ok: bool)
      requires Live()
      modifies this`store, this`states, this`pending, this`synthetic, this`startupProbeRequired, this`reloadNeeded,
               this`epochs, this`confirmed, this`evidence, this`alive
      ensures Valid() && Onward(old(store), store, None)
      ensures || ResetReach(old(store), store)
              || (CommitRetry(old(store), ref, previous).Some? &&
                  ResetReach(CommitRetry(old(store), ref, previous).value, store))
      ensures ok ==> Live() && ref in store.audits && ref in states && states[ref] == CLEAN
    {
      hide Safe, Synced, Confirmations, KnownPending, KnownRequirements, Onward, ResetReach, CommitRetry, RetryRow, Durable,
           HydratedMemory;
      OnwardItself(store);
      ResetReachItself(store);
      MaybeCrash();
      var storeFails: bool := *;
      var next := CommitRetry(store, ref, previous);
      if !alive || storeFails || next.None? {
        return false;
      }
      RetryKeepsSafe(store, states, pending, synthetic, trace, now, ref, previous, synthetic);
      var unknown: bool := *;
      if unknown {
        ok := ReadBackRetry(ref, next.value);
        if !ok {
          return;
        }
        RetryRead(store, states, pending, synthetic, trace, now, ref);
      } else {
        RetryKeepsSafe(store, states, pending, synthetic, trace, now, ref, previous,
                       synthetic + SupersededBy(pending, ref));
        store := next.value;
        ResetReachItself(store);
      }
      synthetic := synthetic + SupersededBy(pending, ref);
      states := states[ref := CLEAN];
      ok := true;
    }

    method ReadBackRetry(ref: Ref, next: Store) returns (applied: bool)
      requires Live() && Safe(next, trace, now) && Onward(store, next, None) && next.probes == store.probes
      modifies this`store, this`states, this`pending, this`synthetic, this`startupProbeRequired, this`reloadNeeded,
               this`epochs, this`confirmed, this`evidence, this`alive
      ensures Valid() && Onward(old(store), store, None)
      ensures ResetReach(old(store), store) || ResetReach(next, store)
      ensures applied ==> Live() && ReadRetry(store, ref) == Some(true)
    {
      hide Safe, Synced, Confirmations, KnownPending, KnownRequirements, Onward, ResetReach, Durable, HydratedMemory, RetryRow;
      OnwardItself(store);
      reloadNeeded := true;
      var committed: bool := *;
      if committed {
        store := next;
      }
      ghost var before := store;
      OtherTransactions();
      ResetsOnward(before, store);
      OnwardThrough(old(store), before, store, None, None);
      MaybeCrash();
      var readFails: bool := *;
      var shown := ReadRetry(store, ref);
      if !alive || readFails || shown.None? {
        return false;
      }
      var ok := ReplaceRecovery();
      reloadNeeded := !ok;
      applied := shown.value;
    }

    // ----- crash and reopen

    method Crash()
      requires Valid()
      modifies this`alive
      ensures Valid() && !alive
    {
      alive := false;
    }

    /** NewPersistentController on the same database: exactly the stored requirements are
        pending, and an interrupted attempt waits from its own start. */
    method Reopen() returns (ok: bool)
      requires Valid() && !alive
      modifies this
      ensures Valid() && store == old(store) && now == old(now) && alive == ok
      ensures trace == if ok then old(trace) + [Reopened] else old(trace)
      ensures ok ==> !reloadNeeded && Durable(store) && HydratedMemory(store, states, pending, synthetic)
      ensures ok ==> (startupProbeRequired <== store.rows != map[] || store.probes != {})
    {
      hide Safe, Synced, Confirmations, KnownPending, KnownRequirements, Durable, HydratedMemory;
      SafeIsDurable(store, trace, now);
      var loadFails: bool := *;
      if loadFails {
        return false;
      }
      var newStates, newPending, newSynthetic;
      ok, newStates, newPending, newSynthetic := HydrateRecovery(store);
      if !ok {
        return;
      }
      ReopenKeepsSafe(store, trace, now);
      trace := trace + [Reopened];
      HydratedSynced(store, newStates, newPending, newSynthetic, trace, now);
      HydratedKnown(latest, store, newStates, newPending, newSynthetic);
      NothingConfirmed(trace);
      var observedBefore: bool := *;
      startupProbeRequired := store.rows != map[] || store.probes != {} || observedBefore;
      Start(newStates, newPending, newSynthetic);
    }

    /** A new process with recovered memory and nothing published. */
    method Start(newStates: States, newPending: PendingProbes, newSynthetic: set<Ref>)
      requires Sound() && !alive && KnownPending(latest, newPending) && Confirmations(None, map[], map[], trace)
      requires Synced(store, newStates, newPending, newSynthetic, trace, now)
      modifies this`desired, this`epochs, this`confirmed, this`evidence, this`states, this`pending, this`synthetic, this`alive,
               this`reloadNeeded
      ensures Live() && states == newStates && pending == newPending && synthetic == newSynthetic
    {
      hide Safe, Synced, Confirmations, KnownPending, KnownRequirements;
      desired, epochs, confirmed, evidence := None, map[], map[], map[];
      states, pending, synthetic := newStates, newPending, newSynthetic;
      alive, reloadNeeded := true, false;
    }

    // ----- whole runs

    /** Any number of operations in any order, with crashes and reopens in between. */
    method Run()
      requires Valid()
      modifies this
      ensures Valid() && old(trace) <= trace && NeverFalls(old(store), store)
      ensures forall ref :: Applies(trace, ref) <= MAX_ATTEMPTS
      ensures BarrierHeld(trace) && BackoffHeld(trace)
      ensures alive ==> Confirmations(desired, confirmed, evidence, trace)
    {
      var n :| 0 <= n;
      NeverFallsItself(store);
      while 0 < n
        invariant Valid() && old(trace) <= trace && NeverFalls(old(store), store)
      {
        hide Safe, Synced, Confirmations, KnownPending, KnownRequirements, Durable, HydratedMemory, Onward, NotBehind,
             NeverFalls, ResetReach;
        n := n - 1;
        ghost var before, moving: Option<Slot> := store, None;
        OnwardItself(store);
        if !alive {
          Tick();
          OtherTransactions();
          ResetsOnward(before, store);
          NeverFallsThrough(old(store), before, store, moving);
          var reopened := Reopen();
          continue;
        }
        var step: Step := *;
        match step {
          case StepExecute(plan) =>
            var r := Execute(plan);
            moving := Some(PlanSlot(plan));
          case StepProbeRecovery => var ok, resolved, unresolved := ProbeRecovery();
          case StepStartupRecovery(keys) => var ok, unresolved, seen := ProbeStartupRecovery(keys);
          case StepRetry(slot) => var ok := Retry(slot);
          case StepPublish(d) =>
            if NotBehind(latest, d) {
              var published := SetDesiredSnapshot(d);
            }
          case StepEnvironment =>
            Interfere();
            ResetsOnward(before, store);
          case StepCrash => Crash();
        }
        NeverFallsThrough(old(store), before, store, moving);
      }
      forall ref
        ensures Applies(trace, ref) <= MAX_ATTEMPTS
      {
        AtMostSixApplies(store, trace, ref);
      }
    }
  }
}
