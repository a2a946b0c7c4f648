/** From decisions to the published Desired state of one node: the decision transactions of
    internal/decision/transaction.go together with their finalisation in
    internal/decision/desired_state.go. */
module Node {
  import opened Basics
  import opened Addresses
  import opened Enforcement
  import opened Decisions
  import opened Projection
  import opened DesiredState

  /** The intent bans its target at time `t`. */
  predicate IntentBans(i: Intent, t: Time) {
    i.membership.BanPresent? && (i.until.None? || t < i.until.value)
  }

  /** The Desired state bans exactly what the active decisions ask for, at every time. */
  ghost predicate Enforces(d: Desired, ds: seq<Decision>, node: NodeId) {
    forall target: Prefix, t: Time ::
      target in d.targets && IntentBans(d.targets[target], t) <==> AsksOn(ds, node, target, t)
  }

  /** Both halves of the database are consistent and share their projections. */
  ghost predicate Joined(p: ProjectionStore, d: DesiredStore)
    reads p, d
  {
    p.Valid() && d.Valid() && d.AllMaterialized() && d.projections == p.projections
  }

  lemma PublishedIsDecided(p: ProjectionStore, d: DesiredStore)
    requires Joined(p, d) && d.policy.Some?
    ensures Enforces(d.View(), p.decisions, p.node)
  {
    forall target: Prefix, t: Time
      ensures target in d.intents && IntentBans(d.intents[target], t) <==> AsksOn(p.decisions, p.node, target, t)
    {
      if target in p.projections {
        assert p.Current(target);
        assert Materialized(d.intents, d.projections, d.policy.value, d.resolve, target);
        assert Bans(p.projections[target], t) <==> AsksOn(p.decisions, p.node, target, t);
      }
    }
  }

  /** One decision transaction with its finalisation: all of it or nothing. */
  method Decide(p: ProjectionStore, d: DesiredStore, writes: seq<Write>, target: Prefix, force: bool) returns (ok: bool)
    requires Joined(p, d)
    modifies p, d
    ensures Joined(p, d) && old(d.history) <= d.history && d.regular == old(d.regular) && d.disabled == old(d.disabled)
    ensures ok ==> p.decisions == Written(old(p.decisions), writes)
    ensures !ok ==> p.decisions == old(p.decisions) && p.projections == old(p.projections) && d.history == old(d.history)
  {
    hide ValidDecision, CurrentFor, Selected, AsksOn, Materialized, ValidIntents, ValidProjections, AcceptedRun, ForwardRun,
         AllValid, TransitionAccepted, Written, RevisionsGrow;
    var decisions, projections := p.decisions, p.projections;
    ok := p.Decide(writes, target, force);
    if !ok {
      return;
    }
    assert p.Current(target);
    CurrentIsValid(p.projections[target], p.decisions, p.node, target);
    var changed;
    ok, changed := d.Decide(p.projections[target]);
    if !ok {
      p.decisions, p.projections := decisions, projections;
    }
  }

  datatype Step =
    | StepWrite(writes: seq<Write>, target: Prefix, force: bool)
    | StepReplace(expected: nat, next: PolicyIntent)
    | StepRows

  /** Any sequence of decision and policy transactions: what is published bans exactly what
      the active decisions ask for, is valid, and lies ahead of all that was published. */
  method RunNode(p: ProjectionStore, d: DesiredStore, steps: seq<Step>)
    requires Joined(p, d)
    modifies p, d
    ensures Joined(p, d) && old(d.history) <= d.history && ForwardRun(d.history)
    ensures d.policy.Some? ==> Enforces(d.View(), p.decisions, p.node) && d.history != [] && d.history[|d.history| - 1] == d.View()
    ensures d.Configured() ==> AllValid(d.history)
    ensures old(d.regular) && !old(d.disabled) && StepRows !in steps ==> AcceptedRun(d.history)
  {
    hide ValidDecision, CurrentFor, Selected, AsksOn, Materialized, ValidIntents, ValidProjections, AcceptedRun, ForwardRun,
         AllValid, TransitionAccepted, Written, AbsentAlike;
    for i := 0 to |steps|
      invariant Joined(p, d) && old(d.history) <= d.history
      invariant old(d.regular) && !old(d.disabled) && StepRows !in steps ==> d.regular && !d.disabled
    {
      match steps[i] {
        case StepWrite(writes, target, force) => var ok := Decide(p, d, writes, target, force);
        case StepReplace(expected, next) => var ok, changed := d.ReplacePolicy(expected, next);
        case StepRows => d.DisableRows();
      }
    }
    if d.policy.Some? {
      PublishedIsDecided(p, d);
    }
  }
}
