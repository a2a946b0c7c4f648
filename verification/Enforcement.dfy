/** Normalized Firewall intent, the Desired snapshot built from it and the physical
    observations it is compared with (internal/core/model.go,
    internal/enforcement/intent.go, internal/reconcile/controller.go). */
module Enforcement {
  import opened Basics
  import opened Addresses
  import opened PolicyResolution

  type NodeId = nat

  datatype Membership = BanAbsent | BanPresent

  datatype TimeoutMode = TimeoutNone | TimeoutNative

  /** INPUT is 1 and FORWARD is 2. */
  type Scopes = nat

  predicate ValidScopes(s: Scopes) {
    1 <= s <= 3
  }

  datatype Intent = Intent(
    node: NodeId, target: Prefix, membership: Membership, until: Option<Time>, timeout: TimeoutMode,
    scopes: Scopes, family: Family, coverage: Coverage, relation: Digest, backend: string,
    generation: nat)

  /** `NormalizedTargetEnforcementIntent.Validate`. */
  predicate ValidIntent(i: Intent) {
    && Canonical(i.target)
    && 0 < i.generation
    && ValidScopes(i.scopes)
    && i.family == i.target.family
    && (i.membership.BanAbsent? ==> i.until.None? && i.timeout.TimeoutNone?)
    && (i.timeout.TimeoutNative? ==> i.until.Some?)
    && (i.until.Some? ==> 0 < i.until.value)
  }

  /** `Equivalent`: every Firewall-significant attribute, but not the generation. */
  predicate Equivalent(left: Intent, right: Intent) {
    && left.node == right.node
    && left.target == right.target
    && left.membership == right.membership
    && left.until == right.until
    && left.timeout == right.timeout
    && left.scopes == right.scopes
    && left.family == right.family
    && left.coverage == right.coverage
    && left.relation == right.relation
    && left.backend == right.backend
  }

  datatype InfrastructureIntent = InfrastructureIntent(backend: string, owner: string, digest: string)

  datatype PolicyIntent = PolicyIntent(relation: string, allow: seq<Prefix>, protected: seq<Prefix>)

  datatype Desired = Desired(
    snapshot: nat, infrastructureRevision: nat, policyRevision: nat,
    infrastructure: InfrastructureIntent, policy: PolicyIntent, targets: map<Prefix, Intent>)

  /** `DesiredFirewallSnapshot.Validate` on snapshots whose targets are distinct. */
  predicate ValidDesired(d: Desired) {
    && 0 < d.snapshot && 0 < d.infrastructureRevision && 0 < d.policyRevision
    && d.infrastructure.backend != "" && d.infrastructure.owner != "" && d.infrastructure.digest != ""
    && d.policy.relation != ""
    && forall t | t in d.targets :: ValidIntent(d.targets[t]) && d.targets[t].target == t
  }

  // ----- validateDesiredTransition

  predicate RevisionsForward(previous: Desired, next: Desired) {
    && previous.snapshot <= next.snapshot
    && previous.infrastructureRevision <= next.infrastructureRevision
    && previous.policyRevision <= next.policyRevision
  }

  /** Revisions and generations only grow, and no target disappears. */
  predicate Forward(previous: Desired, next: Desired) {
    && RevisionsForward(previous, next)
    && (forall t | t in previous.targets ::
          t in next.targets && previous.targets[t].generation <= next.targets[t].generation)
  }

  predicate TargetStepAccepted(before: Intent, after: Intent) {
    if Equivalent(before, after) then after.generation == before.generation
    else before.generation < after.generation
  }

  predicate ExternallyChanged(previous: Desired, next: Desired) {
    || previous.infrastructure != next.infrastructure
    || previous.policy != next.policy
    || (exists t | t in previous.targets :: t in next.targets && !Equivalent(previous.targets[t], next.targets[t]))
    || (exists t | t in next.targets :: t !in previous.targets)
  }

  /** validateDesiredTransition: revisions and generations only move forward, and
      move exactly with what they own. */
  predicate TransitionAccepted(previous: Desired, next: Desired) {
    && RevisionsForward(previous, next)
    && (previous.infrastructure != next.infrastructure <==> previous.infrastructureRevision < next.infrastructureRevision)
    && (previous.policy != next.policy <==> previous.policyRevision < next.policyRevision)
    && (forall t | t in previous.targets ::
          t in next.targets && TargetStepAccepted(previous.targets[t], next.targets[t]))
    && (ExternallyChanged(previous, next) <==> previous.snapshot < next.snapshot)
  }

  // ----- physical observations

  datatype ObservedMembership = MembershipUnknown | MembershipAbsent | MembershipPresent

  datatype ObservedCoverage = CoverageUnknown | CoverageNone | CoveragePartial | CoverageFull

  datatype Evidence = EvidenceOther | EvidenceComplete | EvidenceManagedSnapshot

  datatype Observed = Observed(
    target: Prefix, observedAt: Option<Time>, evidence: Evidence, backend: string,
    membership: ObservedMembership, coverage: ObservedCoverage, relation: Digest, timeout: TimeoutMode,
    expiry: Option<Time>, scopes: Scopes, family: Option<Family>, owner: string, code: string)

  datatype Snapshot = Snapshot(
    infrastructure: Option<InfrastructureIntent>, policyRelation: Option<string>, targets: map<Prefix, Observed>)

  /** Five minutes, added to finite native timeouts. */
  const SAFETY_GRACE: Time := 300_000_000

  /** Three seconds. */
  const EXPIRY_TOLERANCE: Time := 3_000_000

  function NativeExpiry(i: Intent): Option<Time> {
    if i.timeout.TimeoutNative? && i.until.Some? then Some(i.until.value + SAFETY_GRACE) else None
  }

  predicate NativeExpiryMatches(observed: Option<Time>, i: Intent) {
    var want := NativeExpiry(i);
    if observed.None? || want.None? then observed.None? && want.None?
    else want.value <= observed.value + EXPIRY_TOLERANCE && observed.value <= want.value
  }

  function WantedCoverage(c: Coverage): ObservedCoverage {
    match c
    case NoCoverage => CoverageNone
    case PartialCoverage => CoveragePartial
    case FullCoverage => CoverageFull
  }

  /** physicalTargetMatches. */
  predicate PhysicalTargetMatches(targets: map<Prefix, Observed>, i: Intent) {
    if i.membership.BanAbsent? then
      i.target !in targets ||
      (var o := targets[i.target];
       o == Observed(i.target, None, o.evidence, "", MembershipAbsent, CoverageUnknown, NoDigest,
                     TimeoutNone, None, 0, None, "", ""))
    else
      i.target in targets &&
      (var o := targets[i.target];
       && o.membership.MembershipPresent? && o.timeout == i.timeout && o.scopes == i.scopes
       && o.family == Some(i.family)
       && (o.evidence.EvidenceManagedSnapshot? ||
           (o.evidence.EvidenceComplete? && o.relation == i.relation && o.owner == i.backend &&
            o.coverage == WantedCoverage(i.coverage)))
       && (if i.timeout.TimeoutNative? then NativeExpiryMatches(o.expiry, i) else o.expiry.None?))
  }
}
