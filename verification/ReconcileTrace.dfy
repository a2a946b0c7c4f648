/** The history of one node's reconciler across restarts: durable commits, successful
    Probes and Apply calls, and what every such history must satisfy. */
module ReconcileTrace {
  import opened Basics
  import opened Enforcement
  import opened ReconcileStore

  datatype Event =
    /** The transition stands in the store: it was committed, or a readback after an
        uncertain commit shows it. */
    | Committed(transition: Transition)
    | Probed(snapshot: Snapshot)
    /** Apply was called for the attempt the requirement names, begun at `at`.
        `resumed` says the ledger entry in memory was still Applying when it began. */
    | Applied(requirement: Requirement, at: Time, resumed: bool)
    /** The backend answered that the Apply had no effect. */
    | Rejected(requirement: Requirement)
    /** A new process opened the database and rebuilt its memory from it. */
    | Reopened

  type Trace = seq<Event>

  function Init(trace: Trace): Trace
    requires trace != []
  {
    trace[..|trace| - 1]
  }

  function Last(trace: Trace): Event
    requires trace != []
  {
    trace[|trace| - 1]
  }

  /** The history goes on without an Apply. */
  ghost predicate Quiet(before: Trace, after: Trace) {
    before <= after && forall i | |before| <= i < |after| :: !after[i].Applied?
  }

  /** The history goes on with exactly one Apply, for `key`. */
  ghost predicate OneApply(before: Trace, after: Trace, key: ProbeKey) {
    && before <= after
    && exists i :: |before| <= i < |after| && after[i].Applied? && after[i].requirement.key == key &&
                   forall j | |before| <= j < |after| && j != i :: !after[j].Applied?
  }

  // ----- the Probe barrier

  /** The Apply calls the backend answered with a rejection. */
  ghost function Refused(trace: Trace): set<Requirement> {
    if trace == [] then {}
    else
      match Last(trace)
      case Applied(r, _, _) => Refused(Init(trace)) - {r}
      case Rejected(r) => Refused(Init(trace)) + {r}
      case _ => Refused(Init(trace))
  }

  /** The requirement a transition takes out of the store. */
  ghost function Removed(t: Transition): set<Requirement> {
    match t
    case WriteState(_, _, _, remove) => OptionSet(remove)
    case DeleteOnly(gone) => {gone}
  }

  /** The Apply calls whose effect nothing durable has established yet. A Probe resolves
      them all; a rejection resolves its own only once a commit has removed the
      requirement, since until then a crash forgets the answer. */
  ghost function Unresolved(trace: Trace): set<Requirement> {
    if trace == [] then {}
    else
      match Last(trace)
      case Committed(t) => Unresolved(Init(trace)) - (Removed(t) * Refused(Init(trace)))
      case Probed(_) => {}
      case Applied(r, _, _) => Unresolved(Init(trace)) + {r}
      case _ => Unresolved(Init(trace))
  }

  /** The commit that must precede an Apply: an Applying row and the Probe
      requirement, for exactly that key and attempt. */
  ghost predicate WritesAhead(t: Transition, r: Requirement, at: Time) {
    && t.WriteState?
    && RowRef(t.slot, t.row) == RequirementRef(r)
    && t.row.state.status.Applying?
    && t.row.state.attempts == r.attempts
    && t.row.state.lastAttempt == Some(at)
    && t.upsert == Some(r)
  }

  /** That commit happened, and no Apply has happened since. */
  ghost predicate Ahead(trace: Trace, r: Requirement, at: Time) {
    trace != [] && !Last(trace).Applied? &&
    ((Last(trace).Committed? && WritesAhead(Last(trace).transition, r, at)) || Ahead(Init(trace), r, at))
  }

  /** Every Apply finds no unresolved Apply before it and its own write-ahead commit. */
  ghost predicate BarrierHeld(trace: Trace) {
    trace == [] ||
    (BarrierHeld(Init(trace)) &&
     (Last(trace).Applied? ==>
        Unresolved(Init(trace)) == {} && Ahead(Init(trace), Last(trace).requirement, Last(trace).at)))
  }

  // ----- the attempt budget

  ghost function Applies(trace: Trace, ref: Ref): nat {
    if trace == [] then 0
    else Applies(Init(trace), ref) +
         (if Last(trace).Applied? && RequirementRef(Last(trace).requirement) == ref then 1 else 0)
  }

  /** How many Apply calls the ledger has accounted for. */
  ghost function Accounted(s: Store, ref: Ref): nat {
    if ref.slot !in s.rows then 0
    else
      var row := s.rows[ref.slot];
      if RowRef(ref.slot, row) == ref then row.state.attempts
      else if Below(ref, RowRef(ref.slot, row)) then MAX_ATTEMPTS
      else 0
  }

  ghost predicate WithinBudget(s: Store, trace: Trace) {
    forall ref :: Applies(trace, ref) <= Accounted(s, ref)
  }

  // ----- backoff

  datatype Attempt = Attempt(attempts: nat, at: Time)

  /** The last Apply of a key that no Probe has retired since: a converged or stale
      row written for the key retires it. */
  ghost function LastApply(trace: Trace, ref: Ref): Option<Attempt> {
    if trace == [] then None
    else
      match Last(trace)
      case Applied(r, at, _) =>
        if RequirementRef(r) == ref then Some(Attempt(r.attempts, at)) else LastApply(Init(trace), ref)
      case Committed(t) =>
        if t.WriteState? && RowRef(t.slot, t.row) == ref && !Ambiguous(t.row.state.status) then None
        else LastApply(Init(trace), ref)
      case _ => LastApply(Init(trace), ref)
  }

  /** `t` is no earlier than the backoff after attempt `a`. */
  ghost predicate Waited(a: Attempt, t: Time) {
    1 <= a.attempts < MAX_ATTEMPTS && a.at + Delay(a.attempts) <= t
  }

  /** The event ends whatever attempt of `ref` was under way: its ending was stored, or a
      restart found it interrupted. */
  ghost predicate EndsAttempt(e: Event, ref: Ref) {
    || e.Reopened?
    || (e.Committed? && e.transition.WriteState? && RowRef(e.transition.slot, e.transition.row) == ref &&
        !e.transition.row.state.status.Applying?)
  }

  /** That happened since the key's last Apply. */
  ghost predicate Ended(trace: Trace, ref: Ref) {
    trace != [] && !(Last(trace).Applied? && RequirementRef(Last(trace).requirement) == ref) &&
    (EndsAttempt(Last(trace), ref) || Ended(Init(trace), ref))
  }

  /** Every Apply waits out the backoff of the key's last one. The one exception is an Apply
      that began from an entry left Applying in memory when nothing has ended the last
      attempt: no ending was stored and the process did not restart. */
  ghost predicate BackoffHeld(trace: Trace) {
    trace == [] ||
    (BackoffHeld(Init(trace)) &&
     (Last(trace).Applied? ==>
        var ref := RequirementRef(Last(trace).requirement);
        var last := LastApply(Init(trace), ref);
        (!Last(trace).resumed || Ended(Init(trace), ref)) && last.Some? ==> Waited(last.value, Last(trace).at)))
  }

  /** A ledger state that carries the backoff of the last Apply forward. */
  ghost predicate CarriesBackoff(s: RetryState, last: Option<Attempt>, now: Time) {
    last.Some? ==>
      && 1 <= last.value.attempts <= s.attempts
      && last.value.at <= now
      && Ambiguous(s.status)
      && (s.status.Applying? ==>
            && s.lastAttempt.Some? && last.value.at <= s.lastAttempt.value <= now
            && (s.attempts < MAX_ATTEMPTS ==> Waited(last.value, s.lastAttempt.value + Delay(s.attempts))))
      && (s.status.RetryWaiting? ==> s.nextAttempt.Some? && Waited(last.value, s.nextAttempt.value))
  }

  /** An entry left Applying by an attempt that began after the last one had ended: that
      attempt itself waited. */
  ghost predicate Rested(s: RetryState, trace: Trace, ref: Ref) {
    s.status.Applying? && Ended(trace, ref) && LastApply(trace, ref).Some? ==>
      s.lastAttempt.Some? && Waited(LastApply(trace, ref).value, s.lastAttempt.value)
  }

  ghost predicate LedgerCarriesBackoff(s: Store, trace: Trace, now: Time) {
    forall slot | slot in s.rows ::
      CarriesBackoff(s.rows[slot].state, LastApply(trace, RowRef(slot, s.rows[slot])), now)
  }

  // ----- extending a history

  lemma Snoc(trace: Trace, e: Event)
    ensures trace + [e] != [] && Init(trace + [e]) == trace && Last(trace + [e]) == e
  {
  }

  lemma DelayGrows(m: nat, n: nat)
    requires 1 <= m <= n < MAX_ATTEMPTS
    ensures Delay(m) <= Delay(n)
  {
  }

  lemma {:induction false} NeverApplied(trace: Trace, ref: Ref)
    requires Applies(trace, ref) == 0
    ensures LastApply(trace, ref).None?
  {
    if trace != [] {
      NeverApplied(Init(trace), ref);
    }
  }

  /** No ledger write ever lowers what it has accounted for. */
  lemma CommitKeepsBudget(s: Store, t: Transition, trace: Trace)
    requires Durable(s) && Commit(s, t).Some? && WithinBudget(s, trace)
    ensures WithinBudget(Commit(s, t).value, trace + [Committed(t)])
  {
    var s' := Commit(s, t).value;
    Snoc(trace, Committed(t));
    forall ref
      ensures Applies(trace + [Committed(t)], ref) <= Accounted(s', ref)
    {
      assert SlotDurable(s, ref.slot);
      assert Applies(trace, ref) <= Accounted(s, ref) <= Accounted(s', ref);
    }
  }

  lemma RetryKeepsBudget(s: Store, ref: Ref, previous: nat, trace: Trace)
    requires Durable(s) && CommitRetry(s, ref, previous).Some? && WithinBudget(s, trace)
    ensures WithinBudget(CommitRetry(s, ref, previous).value, trace)
  {
    RetryKeepsDurable(s, ref, previous);
    forall r
      ensures Applies(trace, r) <= Accounted(CommitRetry(s, ref, previous).value, r)
    {
      assert SlotDurable(s, r.slot);
      assert Applies(trace, r) <= Accounted(s, r);
    }
  }

  lemma ResetReachKeepsBudget(s: Store, s': Store, trace: Trace)
    requires Durable(s) && ResetReach(s, s') && WithinBudget(s, trace)
    ensures WithinBudget(s', trace)
  {
    forall r
      ensures Applies(trace, r) <= Accounted(s', r)
    {
      assert SlotDurable(s, r.slot);
      assert Applies(trace, r) <= Accounted(s, r);
    }
  }

  /** A row at a clean state was never applied, so no backoff is owed on it. */
  lemma CleanRowOwesNothing(s: Store, trace: Trace, slot: Slot, now: Time)
    requires WithinBudget(s, trace) && slot in s.rows && s.rows[slot].state.attempts == 0
    ensures LastApply(trace, RowRef(slot, s.rows[slot])).None?
  {
    var ref := RowRef(slot, s.rows[slot]);
    assert Applies(trace, ref) <= Accounted(s, ref);
    NeverApplied(trace, ref);
  }

  lemma CommitKeepsBackoff(s: Store, t: Transition, trace: Trace, now: Time)
    requires Commit(s, t).Some? && LedgerCarriesBackoff(s, trace, now)
    requires t.WriteState? && Ambiguous(t.row.state.status) ==>
               CarriesBackoff(t.row.state, LastApply(trace, RowRef(t.slot, t.row)), now)
    ensures LedgerCarriesBackoff(Commit(s, t).value, trace + [Committed(t)], now)
  {
    Snoc(trace, Committed(t));
  }

  lemma ResetReachKeepsBackoff(s: Store, s': Store, trace: Trace, now: Time)
    requires Durable(s) && ResetReach(s, s') && WithinBudget(s, trace) && LedgerCarriesBackoff(s, trace, now)
    ensures LedgerCarriesBackoff(s', trace, now)
  {
    ResetReachKeepsBudget(s, s', trace);
    forall slot | slot in s'.rows
      ensures CarriesBackoff(s'.rows[slot].state, LastApply(trace, RowRef(slot, s'.rows[slot])), now)
    {
      if s'.rows[slot].state == CLEAN {
        CleanRowOwesNothing(s', trace, slot, now);
      }
    }
  }

  lemma RetryKeepsBackoff(s: Store, ref: Ref, previous: nat, trace: Trace, now: Time)
    requires Durable(s) && CommitRetry(s, ref, previous).Some?
    requires WithinBudget(s, trace) && LedgerCarriesBackoff(s, trace, now)
    ensures LedgerCarriesBackoff(CommitRetry(s, ref, previous).value, trace, now)
  {
    RetryKeepsBudget(s, ref, previous, trace);
    CleanRowOwesNothing(CommitRetry(s, ref, previous).value, trace, ref.slot, now);
  }

  lemma LaterKeepsBackoff(s: Store, trace: Trace, now: Time, later: Time)
    requires LedgerCarriesBackoff(s, trace, now) && now <= later
    ensures LedgerCarriesBackoff(s, trace, later)
  {
  }

  /** The deadline a restart computes carries the backoff as well as the row did. */
  lemma HydratedCarriesBackoff(s: RetryState, last: Option<Attempt>, now: Time)
    requires ValidState(s) && CarriesBackoff(s, last, now)
    ensures CarriesBackoff(Hydrated(s), last, now)
  {
  }

  // ----- what a reader of the history may rely on

  /** At most six Apply calls for one retry key, over the whole history. */
  lemma AtMostSixApplies(s: Store, trace: Trace, ref: Ref)
    requires Durable(s) && WithinBudget(s, trace)
    ensures Applies(trace, ref) <= MAX_ATTEMPTS
  {
    assert Applies(trace, ref) <= Accounted(s, ref);
    assert SlotDurable(s, ref.slot);
  }

  /** The answer to the Apply at `i` reached the store before `n`: it was a rejection, and
      a later commit removed the requirement. */
  ghost predicate RejectionStored(trace: Trace, i: nat, n: nat)
    requires i < n <= |trace| && trace[i].Applied?
  {
    exists k, m :: i < k < m < n && trace[k] == Rejected(trace[i].requirement) &&
                   trace[m].Committed? && trace[i].requirement in Removed(trace[m].transition)
  }

  /** Between an Apply and any later one a Probe succeeded, or the first was rejected and
      its requirement removed by a later commit. A crash in between changes nothing. */
  lemma {:induction false} ProbeBetween(trace: Trace, i: nat, j: nat)
    requires BarrierHeld(trace) && i < j < |trace| && trace[i].Applied? && trace[j].Applied?
    ensures (exists k :: i < k < j && trace[k].Probed?) || RejectionStored(trace, i, j)
  {
    var before := trace[..j];
    PrefixHeld(trace, j + 1);
    assert trace[..j + 1] == before + [trace[j]];
    Snoc(before, trace[j]);
    StaysUnresolved(before, i);
  }

  lemma {:induction false} PrefixHeld(trace: Trace, n: nat)
    requires BarrierHeld(trace) && n <= |trace|
    ensures BarrierHeld(trace[..n])
  {
    if n == |trace| {
      assert trace[..n] == trace;
    } else {
      PrefixHeld(Init(trace), n);
      assert Init(trace)[..n] == trace[..n];
    }
  }

  lemma {:induction false} StaysUnresolved(trace: Trace, i: nat)
    requires i < |trace| && trace[i].Applied?
    ensures || trace[i].requirement in Unresolved(trace)
            || (exists k :: i < k < |trace| && trace[k].Probed?)
            || RejectionStored(trace, i, |trace|)
  {
    var n := |trace| - 1;
    if i < n {
      StaysUnresolved(Init(trace), i);
      if exists k :: i < k < n && Init(trace)[k].Probed? {
        var k :| i < k < n && Init(trace)[k].Probed?;
        assert trace[k].Probed?;
      } else if RejectionStored(Init(trace), i, n) {
        var k, m :| i < k < m < n && Init(trace)[k] == Rejected(trace[i].requirement) &&
                    Init(trace)[m].Committed? && trace[i].requirement in Removed(Init(trace)[m].transition);
        assert trace[k] == Rejected(trace[i].requirement) && trace[m] == Init(trace)[m];
      } else if trace[n].Committed? && trace[i].requirement in Removed(trace[n].transition) * Refused(Init(trace)) {
        var k := RefusedSince(Init(trace), i);
        assert trace[k] == Rejected(trace[i].requirement);
      } else if trace[n].Probed? {
        assert i < n < |trace|;
      }
    }
  }

  lemma {:induction false} RefusedSince(trace: Trace, i: nat) returns (k: nat)
    requires i < |trace| && trace[i].Applied? && trace[i].requirement in Refused(trace)
    ensures i < k < |trace| && trace[k] == Rejected(trace[i].requirement)
  {
    k := |trace| - 1;
    if trace[k] != Rejected(trace[i].requirement) {
      k := RefusedSince(Init(trace), i);
    }
  }

  /** In every history each Apply has its write-ahead commit before it, with no other
      Apply in between. */
  lemma {:induction false} WrittenAhead(trace: Trace, j: nat)
    requires BarrierHeld(trace) && j < |trace| && trace[j].Applied?
    ensures exists i: nat :: i < j && trace[i].Committed? && WritesAhead(trace[i].transition, trace[j].requirement, trace[j].at)
                     && forall k | i < k < j :: !trace[k].Applied?
  {
    PrefixHeld(trace, j + 1);
    assert trace[..j + 1] == trace[..j] + [trace[j]];
    Snoc(trace[..j], trace[j]);
    var i := AheadAt(trace[..j], trace[j].requirement, trace[j].at);
  }

  lemma {:induction false} AheadAt(trace: Trace, r: Requirement, at: Time) returns (i: nat)
    requires Ahead(trace, r, at)
    ensures i < |trace| && trace[i].Committed? && WritesAhead(trace[i].transition, r, at)
    ensures forall k | i < k < |trace| :: !trace[k].Applied?
  {
    if Last(trace).Committed? && WritesAhead(Last(trace).transition, r, at) {
      i := |trace| - 1;
    } else {
      i := AheadAt(Init(trace), r, at);
    }
  }

  /** Two consecutive Apply calls of one key that nothing retired in between are at
      least the table's delay apart, if the second did not start from an entry left
      Applying. */
  lemma {:induction false} BackoffBetween(trace: Trace, i: nat, j: nat)
    requires BackoffHeld(trace) && i < j < |trace| && trace[i].Applied? && trace[j].Applied? && !trace[j].resumed
    requires RequirementRef(trace[i].requirement) == RequirementRef(trace[j].requirement)
    requires forall k | i < k < j :: !Retires(trace[k], RequirementRef(trace[i].requirement))
    requires forall k | i < k < j :: !AppliesTo(trace[k], RequirementRef(trace[i].requirement))
    ensures Waited(Attempt(trace[i].requirement.attempts, trace[i].at), trace[j].at)
  {
    BackoffPrefix(trace, j + 1);
    assert trace[..j + 1] == trace[..j] + [trace[j]];
    Snoc(trace[..j], trace[j]);
    LastApplyIs(trace[..j], i);
  }

  ghost predicate Retires(e: Event, ref: Ref) {
    e.Committed? && e.transition.WriteState? && RowRef(e.transition.slot, e.transition.row) == ref &&
    !Ambiguous(e.transition.row.state.status)
  }

  ghost predicate AppliesTo(e: Event, ref: Ref) {
    e.Applied? && RequirementRef(e.requirement) == ref
  }

  /** The same, whatever the second one started from, if the first attempt had ended by then:
      its outcome was stored, or the process restarted. */
  lemma {:induction false} EndedWaits(trace: Trace, i: nat, k: nat, j: nat)
    requires BackoffHeld(trace) && i < k < j < |trace| && trace[i].Applied? && trace[j].Applied?
    requires RequirementRef(trace[i].requirement) == RequirementRef(trace[j].requirement)
    requires EndsAttempt(trace[k], RequirementRef(trace[i].requirement))
    requires forall k | i < k < j :: !Retires(trace[k], RequirementRef(trace[i].requirement))
    requires forall k | i < k < j :: !AppliesTo(trace[k], RequirementRef(trace[i].requirement))
    ensures Waited(Attempt(trace[i].requirement.attempts, trace[i].at), trace[j].at)
  {
    BackoffPrefix(trace, j + 1);
    assert trace[..j + 1] == trace[..j] + [trace[j]];
    Snoc(trace[..j], trace[j]);
    LastApplyIs(trace[..j], i);
    StaysEnded(trace[..j], k, RequirementRef(trace[i].requirement));
  }

  lemma {:induction false} StaysEnded(trace: Trace, k: nat, ref: Ref)
    requires k < |trace| && EndsAttempt(trace[k], ref) && forall m | k < m < |trace| :: !AppliesTo(trace[m], ref)
    ensures Ended(trace, ref)
  {
    if k < |trace| - 1 {
      assert !AppliesTo(trace[|trace| - 1], ref);
      StaysEnded(Init(trace), k, ref);
    }
  }

  lemma {:induction false} BackoffPrefix(trace: Trace, n: nat)
    requires BackoffHeld(trace) && n <= |trace|
    ensures BackoffHeld(trace[..n])
  {
    if n == |trace| {
      assert trace[..n] == trace;
    } else {
      BackoffPrefix(Init(trace), n);
      assert Init(trace)[..n] == trace[..n];
    }
  }

  lemma {:induction false} LastApplyIs(trace: Trace, i: nat)
    requires i < |trace| && trace[i].Applied?
    requires forall k | i < k < |trace| :: !Retires(trace[k], RequirementRef(trace[i].requirement))
    requires forall k | i < k < |trace| :: !AppliesTo(trace[k], RequirementRef(trace[i].requirement))
    ensures LastApply(trace, RequirementRef(trace[i].requirement))
         == Some(Attempt(trace[i].requirement.attempts, trace[i].at))
  {
    if i < |trace| - 1 {
      assert !Retires(trace[|trace| - 1], RequirementRef(trace[i].requirement));
      assert !AppliesTo(trace[|trace| - 1], RequirementRef(trace[i].requirement));
      LastApplyIs(Init(trace), i);
    }
  }

  // ----- where the backoff does not hold

  const POLICY_KEY: ProbeKey := ProbeKey(PolicySlot, 1, None)

  function Attempting(attempts: nat, at: Time, previous: Option<Requirement>): Transition {
    WriteState(PolicySlot, Row(1, 0, RetryState(Applying, attempts, Some(at), None, "")),
               Some(Requirement(POLICY_KEY, 0, attempts)), previous)
  }

  /** Two attempts of one key at the same time: the first one's outcome could not be stored,
      a Probe saw drift, and the entry left Applying was admitted. */
  function TwoAtOnce(at: Time, snapshot: Snapshot, resumed: bool): Trace {
    var first, second := Requirement(POLICY_KEY, 0, 1), Requirement(POLICY_KEY, 0, 2);
    [Committed(Attempting(1, at, None)), Applied(first, at, false), Probed(snapshot),
     Committed(Attempting(2, at, Some(first))), Applied(second, at, resumed)]
  }

  /** The store accepts both commits and the barrier holds, but the delay was not waited out:
      the history is one that backoff allows only because the second attempt was resumed. */
  lemma ResumedDoesNotWait(at: Time, snapshot: Snapshot, resumed: bool)
    requires 0 < at
    ensures var s := Commit(Store(map[], {}, {}), Attempting(1, at, None));
            s.Some? && Commit(s.value, Attempting(2, at, Some(Requirement(POLICY_KEY, 0, 1)))).Some?
    ensures BarrierHeld(TwoAtOnce(at, snapshot, resumed))
    ensures BackoffHeld(TwoAtOnce(at, snapshot, resumed)) <==> resumed
    ensures !Waited(Attempt(1, at), at)
  {
    var trace := TwoAtOnce(at, snapshot, resumed);
    Snoc([], trace[0]);
    Snoc(trace[..1], trace[1]);
    Snoc(trace[..2], trace[2]);
    Snoc(trace[..3], trace[3]);
    Snoc(trace[..4], trace[4]);
    assert trace[..1] == [] + [trace[0]] && trace[..2] == trace[..1] + [trace[1]] && trace[..3] == trace[..2] + [trace[2]];
    assert trace[..4] == trace[..3] + [trace[3]] && trace == trace[..4] + [trace[4]];
    assert BarrierHeld([]) && BarrierHeld(trace[..1]) && Unresolved([]) == {} && Unresolved(trace[..1]) == {};
    assert Ahead(trace[..1], trace[1].requirement, at) && BarrierHeld(trace[..2]) && BarrierHeld(trace[..3]);
    assert Unresolved(trace[..3]) == {} && Unresolved(trace[..4]) == {} && BarrierHeld(trace[..4]);
    assert Ahead(trace[..4], trace[4].requirement, at);
    var ref := RequirementRef(trace[1].requirement);
    assert BackoffHeld([]) && BackoffHeld(trace[..1]) && LastApply([], ref).None? && LastApply(trace[..1], ref).None?;
    assert BackoffHeld(trace[..2]) && LastApply(trace[..2], ref) == Some(Attempt(1, at));
    assert BackoffHeld(trace[..3]) && LastApply(trace[..3], ref) == LastApply(trace[..2], ref);
    assert !Ended(trace[..2], ref) && !Ended(trace[..3], ref) && !Ended(trace[..4], ref);
    assert BackoffHeld(trace[..4]) && LastApply(trace[..4], ref) == LastApply(trace[..2], ref);
  }
}
