/** How projections and policy become the Desired firewall state
    (internal/enforcement/intent.go, internal/decision/desired_state.go,
    internal/store/policy_write.go), and which commits the controller accepts. */
module DesiredState {
  import opened Basics
  import opened Addresses
  import opened PolicyResolution
  import opened Enforcement
  import opened Projection
  import ReconcileInvariants

  /** The Firewall-significant inputs of one target. */
  datatype TargetPolicy = TargetPolicy(coverage: Coverage, relation: Digest, scopes: Scopes, native: bool, backend: string)

  // ----- ResolveTarget

  /** The intent that a projection and a policy mean, at a generation. */
  function Meant(p: Projection, policy: TargetPolicy, generation: nat): Intent {
    if p.present then
      Intent(p.node, p.target, BanPresent, p.until,
             if p.until.Some? && policy.native then TimeoutNative else TimeoutNone,
             policy.scopes, p.target.family, policy.coverage, policy.relation, policy.backend, generation)
    else
      Intent(p.node, p.target, BanAbsent, None, TimeoutNone, policy.scopes, p.target.family, NoCoverage, NoDigest,
             policy.backend, generation)
  }

  datatype Resolved = Resolved(intent: Intent, changed: bool)

  /** ResolveTarget: `None` on invalid inputs or an exhausted generation. */
  function ResolveTarget(p: Projection, policy: TargetPolicy, previous: Option<Intent>): Option<Resolved> {
    if !ValidProjection(p) || !ValidScopes(policy.scopes) then None
    else if previous.None? then
      var intent := Meant(p, policy, 1);
      if ValidIntent(intent) then Some(Resolved(intent, true)) else None
    else if !ValidIntent(previous.value) || previous.value.node != p.node || previous.value.target != p.target then None
    else
      var kept := Meant(p, policy, previous.value.generation);
      if Equivalent(previous.value, kept) then
        if ValidIntent(kept) then Some(Resolved(kept, false)) else None
      else if previous.value.generation == MAX_UINT64 then None
      else
        var intent := kept.(generation := previous.value.generation + 1);
        if ValidIntent(intent) then Some(Resolved(intent, true)) else None
  }

  /** The generation moves exactly with the meaning: the step is one that the controller
      accepts, and resolving the same inputs again changes nothing. */
  lemma ResolvedStep(p: Projection, policy: TargetPolicy, previous: Intent)
    requires ResolveTarget(p, policy, Some(previous)).Some?
    ensures var r := ResolveTarget(p, policy, Some(previous)).value;
            && TargetStepAccepted(previous, r.intent) && ValidIntent(r.intent)
            && (r.changed <==> !Equivalent(previous, r.intent)) && (r.changed <==> r.intent != previous)
            && r.intent.generation == previous.generation + (if r.changed then 1 else 0)
            && ResolveTarget(p, policy, Some(r.intent)) == Some(Resolved(r.intent, false))
  {
  }

  /** The resolved intent bans at the times the projection does, and its native timeout,
      where it has one, never ends before the ban does. */
  lemma ResolvedMeans(p: Projection, policy: TargetPolicy, previous: Option<Intent>, t: Time)
    requires ResolveTarget(p, policy, previous).Some?
    ensures var i := ResolveTarget(p, policy, previous).value.intent;
            && (Bans(p, t) <==> i.membership.BanPresent? && (i.until.None? || t < i.until.value))
            && (NativeExpiry(i).Some? ==> i.until.Some? && i.until.value < NativeExpiry(i).value)
  {
  }

  // ----- accepted runs

  ghost predicate AcceptedRun(run: seq<Desired>) {
    forall i | 0 <= i < |run| - 1 :: TransitionAccepted(run[i], run[i + 1])
  }

  lemma {:induction false} RunMovesForward(run: seq<Desired>, i: nat, j: nat)
    requires AcceptedRun(run) && i <= j < |run|
    ensures Forward(run[i], run[j])
  {
    if i < j {
      RunMovesForward(run, i, j - 1);
      assert TransitionAccepted(run[j - 1], run[j - 1 + 1]);
    }
  }

  /** Along an accepted run an equal policy or infrastructure revision means equal content. */
  lemma {:induction false} EqualRevisionEqualContent(run: seq<Desired>, i: nat, j: nat)
    requires AcceptedRun(run) && i <= j < |run|
    ensures run[i].policyRevision == run[j].policyRevision ==> run[i].policy == run[j].policy
    ensures run[i].infrastructureRevision == run[j].infrastructureRevision ==> run[i].infrastructure == run[j].infrastructure
  {
    if i < j {
      EqualRevisionEqualContent(run, i, j - 1);
      RunMovesForward(run, i, j - 1);
      assert TransitionAccepted(run[j - 1], run[j - 1 + 1]);
    }
  }

  /** And an equal generation means an equal intent. */
  lemma {:induction false} EqualGenerationEqualIntent(run: seq<Desired>, i: nat, j: nat, t: Prefix)
    requires AcceptedRun(run) && i <= j < |run| && t in run[i].targets
    ensures t in run[j].targets
    ensures run[i].targets[t].generation == run[j].targets[t].generation ==> run[i].targets[t] == run[j].targets[t]
  {
    if i < j {
      EqualGenerationEqualIntent(run, i, j - 1, t);
      RunMovesForward(run, i, j - 1);
      assert TransitionAccepted(run[j - 1], run[j - 1 + 1]);
    }
  }

  /** And an equal snapshot revision means that nothing at all has changed. */
  lemma {:induction false} EqualSnapshotEqualState(run: seq<Desired>, i: nat, j: nat)
    requires AcceptedRun(run) && i <= j < |run| && run[i].snapshot == run[j].snapshot
    ensures run[i] == run[j]
  {
    if i < j {
      RunMovesForward(run, i, j - 1);
      assert TransitionAccepted(run[j - 1], run[j - 1 + 1]);
      EqualSnapshotEqualState(run, i, j - 1);
      UnchangedIsEqual(run[j - 1], run[j]);
    }
  }

  lemma UnchangedIsEqual(d: Desired, e: Desired)
    requires TransitionAccepted(d, e) && d.snapshot == e.snapshot
    ensures d == e
  {
    assert !ExternallyChanged(d, e);
    assert d.targets.Keys == e.targets.Keys;
    forall t | t in d.targets
      ensures d.targets[t] == e.targets[t]
    {
    }
    assert d.targets == e.targets;
  }

  /** Whatever moved between two snapshots also differs: nothing changed and changed back. */
  predicate NothingCameBack(d: Desired, e: Desired) {
    && (d.policyRevision < e.policyRevision ==> d.policy != e.policy)
    && (d.infrastructureRevision < e.infrastructureRevision ==> d.infrastructure != e.infrastructure)
    && (forall t | t in d.targets && t in e.targets ::
          d.targets[t].generation < e.targets[t].generation ==> !Equivalent(d.targets[t], e.targets[t]))
  }

  /** Some revision or generation is larger, or some target is new. */
  ghost predicate SomethingMoved(d: Desired, e: Desired) {
    || d.policyRevision < e.policyRevision
    || d.infrastructureRevision < e.infrastructureRevision
    || (exists t :: t in d.targets && t in e.targets && d.targets[t].generation < e.targets[t].generation)
    || (exists t :: t in e.targets && t !in d.targets)
  }

  lemma {:induction false} LargerSnapshotMoved(run: seq<Desired>, i: nat, j: nat)
    requires AcceptedRun(run) && i <= j < |run| && run[i].snapshot < run[j].snapshot
    ensures SomethingMoved(run[i], run[j])
  {
    var d, c, e := run[i], run[j - 1], run[j];
    assert TransitionAccepted(run[j - 1], run[j - 1 + 1]);
    RunMovesForward(run, i, j - 1);
    if d.snapshot < c.snapshot {
      LargerSnapshotMoved(run, i, j - 1);
      if exists t :: t in d.targets && t in c.targets && d.targets[t].generation < c.targets[t].generation {
        var t :| t in d.targets && t in c.targets && d.targets[t].generation < c.targets[t].generation;
        assert t in e.targets && d.targets[t].generation < e.targets[t].generation;
      } else if exists t :: t in c.targets && t !in d.targets {
        var t :| t in c.targets && t !in d.targets;
        assert t in e.targets;
      }
    } else {
      EqualSnapshotEqualState(run, i, j - 1);
      assert ExternallyChanged(d, e);
    }
  }

  /** Commits may be skipped between two publications. A later state of an accepted run is
      accepted in one step if and only if nothing came back in between. */
  lemma LaterAcceptedExactlyWhen(run: seq<Desired>, i: nat, j: nat)
    requires AcceptedRun(run) && i <= j < |run|
    ensures TransitionAccepted(run[i], run[j]) <==> NothingCameBack(run[i], run[j])
  {
    var d, e := run[i], run[j];
    RunMovesForward(run, i, j);
    EqualRevisionEqualContent(run, i, j);
    forall t | t in d.targets
      ensures t in e.targets && (d.targets[t].generation == e.targets[t].generation ==> d.targets[t] == e.targets[t])
    {
      EqualGenerationEqualIntent(run, i, j, t);
    }
    if NothingCameBack(d, e) {
      if d.snapshot < e.snapshot {
        LargerSnapshotMoved(run, i, j);
        MovedIsChanged(d, e);
      } else {
        EqualSnapshotEqualState(run, i, j);
      }
    }
  }

  lemma MovedIsChanged(d: Desired, e: Desired)
    requires SomethingMoved(d, e) && NothingCameBack(d, e)
    ensures ExternallyChanged(d, e)
  {
    if exists t :: t in d.targets && t in e.targets && d.targets[t].generation < e.targets[t].generation {
      var t :| t in d.targets && t in e.targets && d.targets[t].generation < e.targets[t].generation;
      assert !Equivalent(d.targets[t], e.targets[t]);
    }
  }

  /** For example, a policy that changed and changed back is refused as one step, although
      each of the two steps is accepted. */
  lemma ThereAndBackIsRefused(d: Desired, e: Desired, f: Desired)
    requires TransitionAccepted(d, e) && TransitionAccepted(e, f) && d.policy != e.policy && f.policy == d.policy
    ensures !TransitionAccepted(d, f)
  {
  }

  /** So is a target that was banned, unbanned and banned again. */
  lemma TargetThereAndBackIsRefused(d: Desired, e: Desired, f: Desired, t: Prefix)
    requires TransitionAccepted(d, e) && TransitionAccepted(e, f) && t in d.targets && t in e.targets && t in f.targets
    requires !Equivalent(d.targets[t], e.targets[t]) && Equivalent(d.targets[t], f.targets[t])
    ensures !TransitionAccepted(d, f)
  {
    assert TargetStepAccepted(d.targets[t], e.targets[t]) && TargetStepAccepted(e.targets[t], f.targets[t]);
  }

  /** Every later state lies ahead of every earlier one. */
  ghost predicate ForwardRun(run: seq<Desired>) {
    forall i, j | 0 <= i <= j < |run| :: Forward(run[i], run[j])
  }

  lemma ForwardGrows(run: seq<Desired>, d: Desired)
    requires ForwardRun(run) && run != [] && Forward(run[|run| - 1], d)
    ensures ForwardRun(run + [d])
  {
    var more := run + [d];
    forall i, j | 0 <= i <= j < |more|
      ensures Forward(more[i], more[j])
    {
      if i < |run| {
        assert Forward(run[i], run[|run| - 1]);
      }
    }
  }

  /** What the database shows is never behind what a controller published from it before. */
  lemma CommittedIsNotBehind(history: seq<Desired>, i: nat, j: nat)
    requires ForwardRun(history) && i <= j < |history|
    ensures ReconcileInvariants.NotBehind(Some(history[i]), history[j])
  {
  }

  // ----- transactions

  type Intents = map<Prefix, Intent>

  /** Generations of the retry ledger, kept per target. */
  type Floors = map<Prefix, nat>

  type Resolver = (PolicyIntent, Projection) -> Option<TargetPolicy>

  ghost predicate ValidIntents(intents: Intents) {
    forall t | t in intents :: ValidIntent(intents[t]) && intents[t].target == t
  }

  ghost predicate ValidProjections(projections: map<Prefix, Projection>) {
    forall t | t in projections :: ValidProjection(projections[t]) && projections[t].target == t
  }

  /** The intents after a materialisation: every kept target moved by an accepted step, and
      nothing outside `touched` moved. */
  ghost predicate Advanced(before: Intents, after: Intents, touched: set<Prefix>) {
    && (forall t | t in before :: t in after && TargetStepAccepted(before[t], after[t]))
    && (forall t | t in after && t !in touched :: t in before && after[t] == before[t])
  }

  /** The stored intent of a target is what its projection and the policy mean. */
  ghost predicate Materialized(intents: Intents, projections: map<Prefix, Projection>, policy: PolicyIntent, resolve: Resolver,
                               t: Prefix) {
    && t in projections && t in intents && resolve(policy, projections[t]).Some?
    && Equivalent(intents[t], Meant(projections[t], resolve(policy, projections[t]).value, intents[t].generation))
  }

  datatype Materialization = Materialization(intents: Intents, floors: Floors, changes: seq<Prefix>)

  /** MaterializeTargets for one target: `None` fails the transaction. */
  method MaterializeTarget(m: Materialization, projections: map<Prefix, Projection>, policy: PolicyIntent, resolve: Resolver,
                           t: Prefix)
    returns (r: Option<Materialization>)
    requires ValidIntents(m.intents) && ValidProjections(projections)
    ensures r.Some? ==>
              && ValidIntents(r.value.intents) && Materialized(r.value.intents, projections, policy, resolve, t)
              && Advanced(m.intents, r.value.intents, {t})
              && (r.value.intents == m.intents <==> r.value.changes == m.changes)
              && (r.value.changes == m.changes || r.value.changes == m.changes + [t])
              && (r.value.intents != m.intents ==>
                    && (t in m.intents ==> r.value.intents[t].generation == m.intents[t].generation + 1)
                    && (t in m.floors ==> m.floors[t] < r.value.intents[t].generation)
                    && r.value.floors == m.floors[t := r.value.intents[t].generation])
  {
    if t !in projections {
      return None;
    }
    var previous := if t in m.intents then Some(m.intents[t]) else None;
    var target := resolve(policy, projections[t]);
    if target.None? {
      return None;
    }
    var resolved := ResolveTarget(projections[t], target.value, previous);
    if resolved.None? {
      return None;
    }
    if previous.Some? {
      ResolvedStep(projections[t], target.value, previous.value);
    }
    if !resolved.value.changed {
      return Some(m);
    }
    var intent := resolved.value.intent;
    if previous.None? && t in m.floors {
      if MAX_INT64 <= m.floors[t] {
        return None;
      }
      intent := intent.(generation := m.floors[t] + 1);
    }
    if MAX_INT64 < intent.generation || (t in m.floors && intent.generation <= m.floors[t]) {
      return None;
    }
    r := Some(Materialization(m.intents[t := intent], m.floors[t := intent.generation], m.changes + [t]));
    assert t in r.value.intents && (t !in m.intents || m.intents[t] != intent);
  }

  /** MaterializeTargets: every affected target once, in any order. */
  method MaterializeTargets(intents: Intents, floors: Floors, projections: map<Prefix, Projection>, policy: PolicyIntent,
                            resolve: Resolver, affected: set<Prefix>)
    returns (r: Option<Materialization>)
    requires ValidIntents(intents) && ValidProjections(projections)
    ensures r.Some? ==>
              && ValidIntents(r.value.intents) && Advanced(intents, r.value.intents, affected)
              && (forall t | t in affected :: Materialized(r.value.intents, projections, policy, resolve, t))
              && (r.value.changes == [] <==> r.value.intents == intents)
  {
    var m := Materialization(intents, floors, []);
    var todo := affected;
    hide ValidIntents, ValidProjections, Materialized;
    while todo != {}
      invariant todo <= affected && ValidIntents(m.intents) && Advanced(intents, m.intents, affected - todo)
      invariant forall t | t in affected - todo :: Materialized(m.intents, projections, policy, resolve, t)
      invariant m.changes == [] <==> m.intents == intents
      decreases |todo|
    {
      var t :| t in todo;
      var next := MaterializeTarget(m, projections, policy, resolve, t);
      if next.None? {
        return None;
      }
      AdvancedThrough(intents, m.intents, next.value.intents, affected - todo, t);
      StillMaterialized(m.intents, next.value.intents, projections, policy, resolve, t, affected - todo);
      NeverBack(intents, m.intents, next.value.intents, affected - todo, t);
      assert affected - (todo - {t}) == (affected - todo) + {t};
      m := next.value;
      todo := todo - {t};
    }
    assert affected - todo == affected;
    r := Some(m);
  }

  lemma AdvancedThrough(a: Intents, b: Intents, c: Intents, touched: set<Prefix>, t: Prefix)
    requires Advanced(a, b, touched) && Advanced(b, c, {t}) && t !in touched
    ensures Advanced(a, c, touched + {t})
  {
    forall q | q in a
      ensures q in c && TargetStepAccepted(a[q], c[q])
    {
      assert q in b && TargetStepAccepted(a[q], b[q]);
      assert q != t ==> c[q] == b[q];
      assert q == t ==> b[q] == a[q];
    }
  }

  lemma StillMaterialized(b: Intents, c: Intents, projections: map<Prefix, Projection>, policy: PolicyIntent, resolve: Resolver,
                          t: Prefix, done: set<Prefix>)
    requires Advanced(b, c, {t}) && t !in done && Materialized(c, projections, policy, resolve, t)
    requires forall q | q in done :: Materialized(b, projections, policy, resolve, q)
    ensures forall q | q in done + {t} :: Materialized(c, projections, policy, resolve, q)
  {
    forall q | q in done
      ensures Materialized(c, projections, policy, resolve, q)
    {
      assert Materialized(b, projections, policy, resolve, q);
    }
  }

  /** Changes to different targets do not undo each other. */
  lemma NeverBack(a: Intents, b: Intents, c: Intents, touched: set<Prefix>, t: Prefix)
    requires Advanced(a, b, touched) && Advanced(b, c, {t}) && t !in touched
    ensures c == a ==> b == a
  {
    if c == a {
      forall q | q in b
        ensures q in a && b[q] == a[q]
      {
      }
      assert b == a;
    }
  }

  // ----- the database of one node

  predicate ValidConfiguration(revision: nat, i: InfrastructureIntent) {
    0 < revision && i.backend != "" && i.owner != "" && i.digest != ""
  }

  class DesiredStore {
    const infrastructureRevision: nat
    const infrastructure: InfrastructureIntent
    const resolve: Resolver
    var snapshot: nat
    var policyRevision: nat
    /** `None` before the first policy write. */
    var policy: Option<PolicyIntent>
    /** Whether disabled policy rows exist. */
    var disabled: bool
    var intents: Intents
    var floors: Floors
    var projections: map<Prefix, Projection>
    /** The Desired states committed so far. */
    ghost var history: seq<Desired>
    /** No equal policy has been rewritten because of disabled rows. */
    ghost var regular: bool

    ghost predicate Valid()
      reads this
    {
      && ValidIntents(intents) && ValidProjections(projections) && intents.Keys <= projections.Keys
      && (policy.None? ==> policyRevision == 0)
      && (policy.Some? ==> 0 < snapshot && 0 < policyRevision && policy.value.relation != "")
      && (Configured() ==> AllValid(history))
      && (policy.None? ==> projections == map[] && history == [])
      && (policy.Some? ==> history != [] && history[|history| - 1] == View())
      && (regular ==> AcceptedRun(history)) && ForwardRun(history)
    }

    /** Every stored projection has an intent that means what it and the policy mean. */
    ghost predicate AllMaterialized()
      reads this
    {
      policy.Some? ==> forall t | t in projections :: Materialized(intents, projections, policy.value, resolve, t)
    }

    /** The static part of the Desired state is usable. */
    predicate Configured() {
      ValidConfiguration(infrastructureRevision, infrastructure)
    }

    /** What a reader of the database sees. */
    function View(): Desired
      requires policy.Some?
      reads this
    {
      Desired(snapshot, infrastructureRevision, policyRevision, infrastructure, policy.value, intents)
    }

    constructor (revision: nat, infra: InfrastructureIntent, r: Resolver)
      ensures Valid() && AllMaterialized() && policy.None? && history == [] && regular && !disabled
    {
      infrastructureRevision, infrastructure, resolve, regular := revision, infra, r, true;
      snapshot, policyRevision, policy, disabled := 0, 0, None, false;
      intents, floors, projections, history := map[], map[], map[], [];
    }

    /** FinalizeTargets at the end of a decision transaction: the commit is one step that the
        controller accepts, or no step at all. */
    method FinalizeTargets(affected: set<Prefix>) returns (ok: bool, changed: bool)
      requires Valid()
      modifies this`snapshot, this`intents, this`floors, this`history
      ensures Valid() && (!ok ==> !changed)
      ensures !changed ==> snapshot == old(snapshot) && intents == old(intents) && history == old(history)
      ensures changed ==>
                && policy.Some? && TransitionAccepted(old(View()), View()) && history == old(history) + [View()]
                && snapshot == old(snapshot) + 1 && intents != old(intents)
      ensures Advanced(old(intents), intents, affected)
      ensures ok && policy.Some? ==> forall t | t in affected :: Materialized(intents, projections, policy.value, resolve, t)
    {
      hide ValidIntents, ValidProjections, Materialized, AcceptedRun, Advanced, TransitionAccepted, ForwardRun, Forward,
           ValidDesired, AllValid;
      AdvancedItself(intents, affected);
      if affected == {} {
        return true, false;
      }
      if policy.None? {
        return false, false;
      }
      var m := MaterializeTargets(intents, floors, projections, policy.value, resolve, affected);
      if m.None? {
        return false, false;
      }
      if m.value.changes == [] {
        return true, false;
      }
      if MAX_INT64 <= snapshot {
        return false, false;
      }
      ghost var before := View();
      intents, floors, snapshot := m.value.intents, m.value.floors, snapshot + 1;
      TargetsChangedAccepted(before, View(), affected);
      RunGrows(history, View(), regular);
      StepIsForward(before, View(), affected);
      ForwardGrows(history, View());
      KeysWithin(before.targets, intents, projections, policy.value, resolve, affected);
      ViewIsValid(View());
      ValidGrows(history, View());
      history := history + [View()];
      return true, true;
    }

    /** ReplaceManagedPolicy with MaterializeNodeTargets, one transaction. Its commit is a
        step that the controller accepts unless disabled rows made it rewrite an equal
        policy; it leaves no disabled rows. */
    method ReplacePolicy(expected: nat, next: PolicyIntent) returns (ok: bool, changed: bool)
      requires Valid()
      modifies this`snapshot, this`intents, this`floors, this`history, this`policy, this`policyRevision, this`disabled, this`regular
      ensures Valid() && (!ok ==> !changed)
      ensures ok ==> policy == Some(next) && expected == old(policyRevision)
      ensures !changed ==>
                && snapshot == old(snapshot) && intents == old(intents) && history == old(history) && disabled == old(disabled)
                && policy == old(policy) && policyRevision == old(policyRevision) && regular == old(regular)
      ensures ok ==> (changed <==> old(policy) != Some(next) || old(disabled))
      ensures changed && old(policy).Some? ==>
                && (TransitionAccepted(old(View()), View()) <==> !(old(disabled) && old(policy) == Some(next)))
                && history == old(history) + [View()]
      ensures changed ==> !disabled && forall t | t in projections :: Materialized(intents, projections, next, resolve, t)
      ensures !old(disabled) ==> regular == old(regular)
      ensures old(AllMaterialized()) ==> AllMaterialized()
      ensures changed && old(AllMaterialized()) && old(policy).Some? ==>
                forall t | t in projections && AbsentAlike(projections, resolve, old(policy).value, next, t) ::
                  t in old(intents) && intents[t] == old(intents)[t]
    {
      hide ValidIntents, ValidProjections, Materialized, AcceptedRun, Advanced, TransitionAccepted, ForwardRun, Forward,
           AbsentAlike, ValidDesired, AllValid;
      if next.relation == "" || expected != policyRevision {
        return false, false;
      }
      if policy == Some(next) && !disabled {
        return true, false;
      }
      if MAX_INT64 <= policyRevision || MAX_INT64 <= snapshot {
        return false, false;
      }
      var m := MaterializeTargets(intents, floors, projections, next, resolve, projections.Keys);
      if m.None? {
        return false, false;
      }
      ghost var previous := policy;
      CommitPolicy(next, m.value);
      if old(AllMaterialized()) && previous.Some? {
        AbsentStay(old(intents), intents, projections, resolve, previous.value, next);
      }
      return true, true;
    }

    /** The writes of ReplaceManagedPolicy. */
    method CommitPolicy(next: PolicyIntent, m: Materialization)
      requires Valid() && ValidIntents(m.intents) && Advanced(intents, m.intents, projections.Keys)
      requires (policy == Some(next) ==> disabled) && next.relation != ""
      requires forall t | t in projections :: Materialized(m.intents, projections, next, resolve, t)
      modifies this`snapshot, this`intents, this`floors, this`history, this`policy, this`policyRevision, this`disabled, this`regular
      ensures Valid() && policy == Some(next) && intents == m.intents && !disabled
      ensures old(policy).Some? ==>
                && (TransitionAccepted(old(View()), View()) <==> !(old(disabled) && old(policy) == Some(next)))
                && history == old(history) + [View()]
      ensures !old(disabled) ==> regular == old(regular)
    {
      hide ValidIntents, ValidProjections, Materialized, AcceptedRun, Advanced, TransitionAccepted, ForwardRun, Forward,
           ValidDesired, AllValid;
      ghost var before := if policy.Some? then Some(View()) else None;
      intents, floors, snapshot := m.intents, m.floors, snapshot + 1;
      policy, policyRevision, disabled := Some(next), policyRevision + 1, false;
      KeysWithin(old(intents), intents, projections, next, resolve, projections.Keys);
      ViewIsValid(View());
      ValidGrows(history, View());
      if before.Some? {
        RewriteAcceptedExactlyWhen(before.value, View(), projections.Keys);
        regular := regular && before.value.policy != next;
        RunGrows(history, View(), regular);
        StepIsForward(before.value, View(), projections.Keys);
        ForwardGrows(history, View());
        history := history + [View()];
      } else {
        OneStepRun(View());
        assert history + [View()] == [View()];
        history := history + [View()];
      }
    }

    /** A decision transaction, up to its commit: the target's projection is rewritten and
        finalised, or nothing is. */
    method Decide(p: Projection) returns (ok: bool, changed: bool)
      requires Valid() && AllMaterialized()
      modifies this`snapshot, this`intents, this`floors, this`history, this`projections
      ensures Valid() && AllMaterialized() && old(history) <= history && (changed ==> ok)
      ensures ok ==> projections == old(projections)[p.target := p]
      ensures !ok ==> projections == old(projections)
      ensures !changed ==> snapshot == old(snapshot) && intents == old(intents) && history == old(history)
      ensures changed ==>
                policy.Some? && TransitionAccepted(old(View()), View()) && history == old(history) + [View()]
    {
      hide ValidIntents, Materialized, AcceptedRun, Advanced, TransitionAccepted, ForwardRun, Forward,
           ValidDesired, AllValid;
      if !ValidProjection(p) || policy.None? {
        return false, false;
      }
      var previous := projections;
      projections := projections[p.target := p];
      ok, changed := FinalizeTargets({p.target});
      if ok {
        OthersMaterialized(old(intents), intents, previous, projections, p, policy.value, resolve);
      } else {
        projections := previous;
      }
    }

    /** Disabled policy rows appear. None of the modelled operations writes them. */
    method DisableRows()
      requires Valid()
      modifies this`disabled
      ensures Valid() && disabled
    {
      disabled := true;
    }
  }

  datatype DesiredStep = StepDecide(projection: Projection) | StepPolicy(expected: nat, next: PolicyIntent) | StepDisable

  /** Any sequence of transactions: every committed state lies ahead of the earlier ones,
      every stored projection is materialised, and as long as no equal policy was rewritten
      the controller accepts each commit after the one before. */
  method RunDesired(store: DesiredStore, steps: seq<DesiredStep>)
    requires store.Valid() && store.AllMaterialized()
    modifies store
    ensures store.Valid() && store.AllMaterialized() && old(store.history) <= store.history
    ensures ForwardRun(store.history) && (store.regular ==> AcceptedRun(store.history))
    ensures store.Configured() ==> AllValid(store.history)
    ensures old(store.regular) && !old(store.disabled) && StepDisable !in steps ==> store.regular
  {
    hide ValidIntents, ValidProjections, Materialized, AcceptedRun, Advanced, TransitionAccepted, ForwardRun, Forward,
         AbsentAlike, ValidDesired, AllValid;
    for i := 0 to |steps|
      invariant store.Valid() && store.AllMaterialized() && old(store.history) <= store.history
      invariant old(store.regular) && !old(store.disabled) && StepDisable !in steps ==> store.regular && !store.disabled
    {
      match steps[i] {
        case StepDecide(p) => var ok, changed := store.Decide(p);
        case StepPolicy(expected, next) => var ok, changed := store.ReplacePolicy(expected, next);
        case StepDisable => store.DisableRows();
      }
    }
  }

  ghost predicate AllValid(history: seq<Desired>) {
    forall d | d in history :: ValidDesired(d)
  }

  lemma ValidGrows(history: seq<Desired>, d: Desired)
    ensures AllValid(history) && ValidDesired(d) ==> AllValid(history + [d])
  {
  }

  /** What a reader sees is a snapshot that the controller does not refuse as invalid. */
  lemma ViewIsValid(d: Desired)
    requires ValidIntents(d.targets) && 0 < d.snapshot && 0 < d.policyRevision && d.policy.relation != ""
    ensures ValidConfiguration(d.infrastructureRevision, d.infrastructure) ==> ValidDesired(d)
  {
  }

  lemma KeysWithin(before: Intents, after: Intents, projections: map<Prefix, Projection>, policy: PolicyIntent, resolve: Resolver,
                   touched: set<Prefix>)
    requires Advanced(before, after, touched) && before.Keys <= projections.Keys
    requires forall t | t in touched :: Materialized(after, projections, policy, resolve, t)
    ensures after.Keys <= projections.Keys
  {
    forall t | t in after
      ensures t in projections
    {
      assert t in touched ==> Materialized(after, projections, policy, resolve, t);
    }
  }

  lemma AdvancedItself(intents: Intents, touched: set<Prefix>)
    ensures Advanced(intents, intents, touched)
  {
  }

  lemma StepIsForward(d: Desired, e: Desired, touched: set<Prefix>)
    requires Advanced(d.targets, e.targets, touched) && RevisionsForward(d, e)
    ensures Forward(d, e)
  {
    forall t | t in d.targets
      ensures t in e.targets && d.targets[t].generation <= e.targets[t].generation
    {
      assert TargetStepAccepted(d.targets[t], e.targets[t]);
    }
  }

  /** Rewriting one projection leaves the others materialised. */
  lemma OthersMaterialized(before: Intents, after: Intents, projections: map<Prefix, Projection>,
                           projections': map<Prefix, Projection>, p: Projection, policy: PolicyIntent, resolve: Resolver)
    requires Advanced(before, after, {p.target}) && projections' == projections[p.target := p]
    requires forall t | t in projections :: Materialized(before, projections, policy, resolve, t)
    requires Materialized(after, projections', policy, resolve, p.target)
    ensures forall t | t in projections' :: Materialized(after, projections', policy, resolve, t)
  {
    forall t | t in projections'
      ensures Materialized(after, projections', policy, resolve, t)
    {
      if t != p.target {
        assert Materialized(before, projections, policy, resolve, t);
      }
    }
  }

  /** An absent target for which two policies differ at most in coverage, relation and
      timeout mode. */
  ghost predicate AbsentAlike(projections: map<Prefix, Projection>, resolve: Resolver, policy: PolicyIntent, next: PolicyIntent,
                              t: Prefix) {
    && t in projections && !projections[t].present
    && resolve(policy, projections[t]).Some? && resolve(next, projections[t]).Some?
    && var a, b := resolve(policy, projections[t]).value, resolve(next, projections[t]).value;
       a.scopes == b.scopes && a.backend == b.backend
  }

  /** Replacing the policy leaves the intents of such targets, generation included, alone. */
  lemma AbsentStay(before: Intents, after: Intents, projections: map<Prefix, Projection>, resolve: Resolver,
                   policy: PolicyIntent, next: PolicyIntent)
    requires Advanced(before, after, projections.Keys)
    requires forall t | t in projections :: Materialized(before, projections, policy, resolve, t)
    requires forall t | t in projections :: Materialized(after, projections, next, resolve, t)
    ensures forall t | t in projections && AbsentAlike(projections, resolve, policy, next, t) ::
              t in before && after[t] == before[t]
  {
    forall t | t in projections && AbsentAlike(projections, resolve, policy, next, t)
      ensures t in before && after[t] == before[t]
    {
      assert Materialized(before, projections, policy, resolve, t) && Materialized(after, projections, next, resolve, t);
      assert TargetStepAccepted(before[t], after[t]);
    }
  }

  lemma RunGrows(run: seq<Desired>, d: Desired, regular: bool)
    requires run != [] && (regular ==> AcceptedRun(run) && TransitionAccepted(run[|run| - 1], d))
    ensures regular ==> AcceptedRun(run + [d])
  {
    if regular {
      var more := run + [d];
      forall i | 0 <= i < |more| - 1
        ensures TransitionAccepted(more[i], more[i + 1])
      {
        if i < |run| - 1 {
          assert TransitionAccepted(run[i], run[i + 1]);
        }
      }
    }
  }

  lemma OneStepRun(d: Desired)
    ensures AcceptedRun([d]) && ForwardRun([d])
  {
  }

  /** New or changed targets, under the next snapshot, are an accepted step. */
  lemma TargetsChangedAccepted(d: Desired, e: Desired, touched: set<Prefix>)
    requires e == d.(snapshot := d.snapshot + 1, targets := e.targets)
    requires Advanced(d.targets, e.targets, touched) && e.targets != d.targets
    ensures TransitionAccepted(d, e)
  {
    if forall t | t in e.targets :: t in d.targets {
      assert d.targets.Keys == e.targets.Keys;
      var t :| t in d.targets && e.targets[t] != d.targets[t];
      assert TargetStepAccepted(d.targets[t], e.targets[t]);
      assert !Equivalent(d.targets[t], e.targets[t]);
    }
    assert ExternallyChanged(d, e);
  }

  /** So is a changed policy under its next revision, with the targets it moves. */
  lemma PolicyChangedAccepted(d: Desired, e: Desired, touched: set<Prefix>)
    requires e == d.(snapshot := d.snapshot + 1, policyRevision := d.policyRevision + 1, policy := e.policy, targets := e.targets)
    requires Advanced(d.targets, e.targets, touched) && e.policy != d.policy
    ensures TransitionAccepted(d, e)
  {
    assert ExternallyChanged(d, e);
  }

  /** With disabled rows the code rewrites an equal policy under a new revision. Such a
      commit is accepted if and only if the policy differs. */
  lemma RewriteAcceptedExactlyWhen(d: Desired, e: Desired, touched: set<Prefix>)
    requires e == d.(snapshot := d.snapshot + 1, policyRevision := d.policyRevision + 1, policy := e.policy, targets := e.targets)
    requires Advanced(d.targets, e.targets, touched)
    ensures TransitionAccepted(d, e) <==> e.policy != d.policy
  {
    if e.policy != d.policy {
      PolicyChangedAccepted(d, e, touched);
    }
  }

  /** For example, rewriting an equal policy as revision 2 is refused. */
  lemma EqualRewriteIsRefused()
    ensures var d := Desired(1, 1, 1, InfrastructureIntent("nftables", "v1", "digest"), PolicyIntent("relation", [], []), map[]);
            !TransitionAccepted(d, d.(snapshot := 2, policyRevision := 2))
  {
  }
}
