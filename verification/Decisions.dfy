/** The lifecycle of ban decisions (internal/decision/service.go and the Decision of
    internal/core/model.go). */
module Decisions {
  import opened Basics
  import opened Addresses

  type NodeId = nat

  datatype Source = Automatic(rule: string) | Manual

  datatype Lifecycle = Active | Expired | Revoked

  datatype Decision = Decision(
    id: string, node: NodeId, source: Source, target: Prefix, created: Time, updated: Time, lastTriggered: Time,
    expires: Option<Time>, ended: Option<Time>, state: Lifecycle, reason: Option<string>, suppressed: nat)

  /** Decision.Validate. Times are positive. */
  predicate ValidDecision(d: Decision) {
    && d.id != "" && Canonical(d.target)
    && (d.source.Automatic? ==> d.source.rule != "")
    && 0 < d.created <= d.updated && d.created <= d.lastTriggered
    && (d.expires.Some? ==> d.created <= d.expires.value)
    && (match d.state
        case Active => d.reason.None? && d.ended.None?
        case Expired =>
          d.reason == Some("expired") && d.ended.Some? && d.expires.Some? && d.expires.value <= d.ended.value &&
          d.created <= d.ended.value
        case Revoked => d.ended.Some? && d.created <= d.ended.value && d.reason.Some? && RevokeReason(d.reason.value, d.source))
  }

  predicate RevokeReason(reason: string, source: Source) {
    || reason == "manual" || reason == "system_cleanup"
    || (reason == "manual_replace" && source.Manual?)
    || (reason == "rule_disabled" && source.Automatic?)
  }

  /** The key under which at most one decision is active: node and target, and the rule of
      an automatic one. */
  predicate Competes(d: Decision, node: NodeId, source: Source, target: Prefix) {
    d.state.Active? && d.source == source && d.node == node && d.target == target
  }

  predicate Due(d: Decision, now: Time) {
    d.state.Active? && d.expires.Some? && d.expires.value <= now
  }

  function Ended(d: Decision, state: Lifecycle, at: Time, reason: string): Decision {
    d.(state := state, updated := at, ended := Some(at), reason := Some(reason))
  }

  /** A decision as a request asks for it. */
  function Requested(id: string, node: NodeId, source: Source, target: Prefix, at: Time, expires: Option<Time>): Decision {
    Decision(id, node, source, target, at, at, at, expires, None, Active, None, 0)
  }

  // ----- invariants

  ghost predicate UniqueIds(ds: seq<Decision>) {
    forall i, j | 0 <= i < j < |ds| :: ds[i].id != ds[j].id
  }

  /** At most one active decision per node, source and target. */
  ghost predicate OneActive(ds: seq<Decision>) {
    forall i, j | 0 <= i < j < |ds| && ds[i].state.Active? && ds[j].state.Active? ::
      !(ds[i].source == ds[j].source && ds[i].node == ds[j].node && ds[i].target == ds[j].target)
  }

  ghost predicate Consistent(ds: seq<Decision>) {
    (forall d | d in ds :: ValidDecision(d)) && UniqueIds(ds) && OneActive(ds)
  }

  /** History is kept: no decision disappears, changes what it is about, or changes at all
      once it is terminal. */
  ghost predicate Kept(before: seq<Decision>, after: seq<Decision>) {
    |before| <= |after| && forall i | 0 <= i < |before| :: KeptOne(before[i], after[i])
  }

  ghost predicate KeptOne(d: Decision, d': Decision) {
    && d'.id == d.id && d'.node == d.node && d'.source == d.source && d'.target == d.target
    && d'.created == d.created && d'.expires == d.expires && d.suppressed <= d'.suppressed && d.lastTriggered <= d'.lastTriggered
    && (!d.state.Active? ==> d' == d)
  }

  lemma KeptThrough(a: seq<Decision>, b: seq<Decision>, c: seq<Decision>)
    requires Kept(a, b) && Kept(b, c)
    ensures Kept(a, c)
  {
    forall i | 0 <= i < |a|
      ensures KeptOne(a[i], c[i])
    {
      assert KeptOne(a[i], b[i]) && KeptOne(b[i], c[i]);
    }
  }

  /** Rewriting one decision in place. */
  lemma UpdateOk(ds: seq<Decision>, i: nat, d: Decision)
    requires Consistent(ds) && i < |ds| && ValidDecision(d) && KeptOne(ds[i], d) && ds[i].state.Active?
    ensures Consistent(ds[i := d]) && Kept(ds, ds[i := d])
  {
    var after := ds[i := d];
    forall e | e in after
      ensures ValidDecision(e)
    {
      var k :| 0 <= k < |after| && after[k] == e;
      assert ds[k] in ds;
    }
    forall k | 0 <= k < |ds|
      ensures KeptOne(ds[k], after[k])
    {
    }
  }

  /** Adding one that competes with no active decision. */
  lemma AppendOk(ds: seq<Decision>, d: Decision)
    requires Consistent(ds) && ValidDecision(d)
    requires forall i | 0 <= i < |ds| :: ds[i].id != d.id && !Competes(ds[i], d.node, d.source, d.target)
    ensures Consistent(ds + [d]) && Kept(ds, ds + [d])
  {
    forall e | e in ds + [d]
      ensures ValidDecision(e)
    {
      assert e in ds || e == d;
    }
    forall k | 0 <= k < |ds|
      ensures KeptOne(ds[k], (ds + [d])[k])
    {
    }
  }

  datatype Failure = Invalid | SuppressionOverflow | IdConflict | AlreadyBanned(id: string) | PrecedesActive | NotFound | TerminalConflict

  datatype AutomaticResult = AutomaticResult(decision: Decision, isNew: bool)

  datatype ManualResult = ManualResult(previous: Option<Decision>, current: Decision)

  class MemoryService {
    var decisions: seq<Decision>

    ghost predicate Valid()
      reads this
    {
      Consistent(decisions)
    }

    constructor ()
      ensures Valid() && decisions == []
    {
      decisions := [];
    }

    /** decisionIDExistsLocked. */
    method DecisionIdExists(id: string) returns (found: bool)
      ensures found <==> exists i :: 0 <= i < |decisions| && decisions[i].id == id
    {
      for i := 0 to |decisions|
        invariant forall k | 0 <= k < i :: decisions[k].id != id
      {
        if decisions[i].id == id {
          return true;
        }
      }
      found := false;
    }

    /** The active decision that a request competes with. */
    method FindCompetitor(node: NodeId, source: Source, target: Prefix) returns (r: Option<nat>)
      ensures r.Some? ==> r.value < |decisions| && Competes(decisions[r.value], node, source, target)
      ensures r.None? ==> forall i | 0 <= i < |decisions| :: !Competes(decisions[i], node, source, target)
    {
      for i := 0 to |decisions|
        invariant forall k | 0 <= k < i :: !Competes(decisions[k], node, source, target)
      {
        if Competes(decisions[i], node, source, target) {
          return Some(i);
        }
      }
      r := None;
    }

    /** RecordAutomatic: creates a decision, or counts a duplicate of the active one. */
    method RecordAutomatic(id: string, node: NodeId, rule: string, target: Prefix, at: Time, expires: Option<Time>)
      returns (r: Result<AutomaticResult, Failure>)
      requires Valid()
      modifies this
      ensures Valid() && Kept(old(decisions), decisions)
      ensures r.Err? ==> decisions == old(decisions)
      ensures r.Ok? && r.value.isNew ==>
                && decisions == old(decisions) + [r.value.decision]
                && r.value.decision == Requested(id, node, Automatic(rule), target, at, expires)
      ensures r.Ok? && !r.value.isNew ==>
                exists i :: 0 <= i < |old(decisions)| && Competes(old(decisions)[i], node, Automatic(rule), target) &&
                  decisions == old(decisions)[i := r.value.decision] &&
                  r.value.decision.suppressed == old(decisions)[i].suppressed + 1 &&
                  r.value.decision.lastTriggered == (if old(decisions)[i].lastTriggered < at then at else old(decisions)[i].lastTriggered) &&
                  r.value.decision.(suppressed := 0, lastTriggered := 0) == old(decisions)[i].(suppressed := 0, lastTriggered := 0)
      ensures r.Ok? ==>
                (r.value.isNew <==> forall i | 0 <= i < |old(decisions)| :: !Competes(old(decisions)[i], node, Automatic(rule), target))
      ensures r.Err? ==> r.error.Invalid? || r.error.SuppressionOverflow? || r.error.IdConflict?
      ensures r == Err(Invalid) <==> !ValidDecision(Requested(id, node, Automatic(rule), target, at, expires))
      ensures r == Err(SuppressionOverflow) ==>
                exists i :: 0 <= i < |decisions| && Competes(decisions[i], node, Automatic(rule), target) &&
                  decisions[i].suppressed == MAX_UINT64
      ensures r == Err(IdConflict) ==>
                && (exists i :: 0 <= i < |decisions| && decisions[i].id == id)
                && (forall i | 0 <= i < |decisions| :: !Competes(decisions[i], node, Automatic(rule), target))
    {
      hide Consistent, Kept;
      var candidate := Requested(id, node, Automatic(rule), target, at, expires);
      KeptItself(decisions);
      if !ValidDecision(candidate) {
        return Err(Invalid);
      }
      var found := FindCompetitor(node, Automatic(rule), target);
      if found.Some? {
        var current := decisions[found.value];
        ValidAt(decisions, found.value);
        if current.suppressed == MAX_UINT64 {
          return Err(SuppressionOverflow);
        }
        var updated := current.(suppressed := current.suppressed + 1,
                                lastTriggered := if current.lastTriggered < at then at else current.lastTriggered);
        UpdateOk(decisions, found.value, updated);
        decisions := decisions[found.value := updated];
        return Ok(AutomaticResult(updated, false));
      }
      var exists' := DecisionIdExists(id);
      if exists' {
        return Err(IdConflict);
      }
      AppendOk(decisions, candidate);
      decisions := decisions + [candidate];
      r := Ok(AutomaticResult(candidate, true));
    }

    /** BanManual: a duplicate is refused or, on request, replaced in one step. */
    method BanManual(id: string, node: NodeId, target: Prefix, at: Time, expires: Option<Time>, replace: bool)
      returns (r: Result<ManualResult, Failure>)
      requires Valid()
      modifies this
      ensures Valid() && Kept(old(decisions), decisions)
      ensures r.Err? ==> decisions == old(decisions)
      ensures r.Ok? ==>
                && r.value.current == Requested(id, node, Manual, target, at, expires)
                && |decisions| == |old(decisions)| + 1 && decisions[|old(decisions)|] == r.value.current
                && (r.value.previous.None? ==>
                      decisions[..|old(decisions)|] == old(decisions) &&
                      forall i | 0 <= i < |old(decisions)| :: !Competes(old(decisions)[i], node, Manual, target))
                && (r.value.previous.Some? ==>
                      && replace
                      && (exists i :: 0 <= i < |old(decisions)| && Competes(old(decisions)[i], node, Manual, target) &&
                                      decisions[..|old(decisions)|] == old(decisions)[i := r.value.previous.value] &&
                                      r.value.previous.value == Ended(old(decisions)[i], Revoked, at, "manual_replace")))
      ensures r.Err? ==> r.error.Invalid? || r.error.IdConflict? || r.error.AlreadyBanned? || r.error.PrecedesActive?
      ensures r == Err(Invalid) <==> !ValidDecision(Requested(id, node, Manual, target, at, expires))
      ensures r == Err(IdConflict) ==> exists i :: 0 <= i < |decisions| && decisions[i].id == id
      ensures r == Err(PrecedesActive) ==>
                replace && exists i :: 0 <= i < |decisions| && Competes(decisions[i], node, Manual, target) && at < decisions[i].created
      ensures r.Err? && r.error.AlreadyBanned? ==>
                !replace && exists i :: 0 <= i < |decisions| && Competes(decisions[i], node, Manual, target) && decisions[i].id == r.error.id
    {
      hide Consistent, Kept;
      var candidate := Requested(id, node, Manual, target, at, expires);
      KeptItself(decisions);
      if !ValidDecision(candidate) {
        return Err(Invalid);
      }
      var exists' := DecisionIdExists(id);
      if exists' {
        return Err(IdConflict);
      }
      var found := FindCompetitor(node, Manual, target);
      if found.None? {
        AppendOk(decisions, candidate);
        decisions := decisions + [candidate];
        return Ok(ManualResult(None, candidate));
      }
      var current := decisions[found.value];
      ValidAt(decisions, found.value);
      if !replace {
        return Err(AlreadyBanned(current.id));
      }
      if at < current.created {
        return Err(PrecedesActive);
      }
      var ended := Ended(current, Revoked, at, "manual_replace");
      if !ValidDecision(ended) {
        return Err(Invalid);
      }
      UpdateOk(decisions, found.value, ended);
      NoOtherCompetitor(decisions, found.value, node, Manual, target);
      ghost var before, between := decisions, decisions[found.value := ended];
      AppendOk(between, candidate);
      KeptThrough(before, between, between + [candidate]);
      decisions := decisions[found.value := ended] + [candidate];
      r := Ok(ManualResult(Some(ended), candidate));
    }

    /** Expire: terminates exactly the due decisions. Its validation cannot fail, so a sweep
        is all or nothing. */
    method Expire(now: Time) returns (r: Result<seq<Decision>, Failure>)
      requires Valid()
      modifies this
      ensures Valid() && Kept(old(decisions), decisions)
      ensures r.Ok? <==> 0 < now
      ensures r.Ok? ==>
                && |decisions| == |old(decisions)|
                && (forall i | 0 <= i < |decisions| :: decisions[i] ==
                      (if Due(old(decisions)[i], now) then Ended(old(decisions)[i], Expired, now, "expired") else old(decisions)[i]))
                && (forall i | 0 <= i < |decisions| :: !Due(decisions[i], now))
                && r.value == Swept(old(decisions), now)
      ensures r.Err? ==> decisions == old(decisions)
    {
      hide Consistent, Kept;
      KeptItself(decisions);
      if now == 0 {
        return Err(Invalid);
      }
      var expired: seq<Decision> := [];
      for i := 0 to |decisions|
        invariant Valid() && Kept(old(decisions), decisions) && |decisions| == |old(decisions)|
        invariant forall k | 0 <= k < i :: decisions[k] ==
                    (if Due(old(decisions)[k], now) then Ended(old(decisions)[k], Expired, now, "expired") else old(decisions)[k])
        invariant forall k | i <= k < |decisions| :: decisions[k] == old(decisions)[k]
        invariant expired == Swept(old(decisions)[..i], now)
      {
        var current := decisions[i];
        SweptSnoc(old(decisions), i, now);
        if Due(current, now) {
          ValidAt(decisions, i);
          var ended := Ended(current, Expired, now, "expired");
          if !ValidDecision(ended) {
            return Err(Invalid);
          }
          UpdateOk(decisions, i, ended);
          KeptThrough(old(decisions), decisions, decisions[i := ended]);
          decisions := decisions[i := ended];
          expired := expired + [ended];
        }
      }
      assert old(decisions)[..|old(decisions)|] == old(decisions);
      r := Ok(expired);
    }

    /** Revoke: idempotent for the same outcome, never overwriting another one. */
    method Revoke(id: string, at: Time, reason: string) returns (r: Result<Decision, Failure>)
      requires Valid()
      modifies this
      ensures Valid() && Kept(old(decisions), decisions)
      ensures r.Err? ==> decisions == old(decisions)
      ensures r.Ok? ==>
                exists i :: 0 <= i < |old(decisions)| && old(decisions)[i].id == id && decisions == old(decisions)[i := r.value] &&
                  r.value.state.Revoked? && r.value.reason == Some(reason) &&
                  (old(decisions)[i].state.Active? ==> r.value == Ended(old(decisions)[i], Revoked, at, reason)) &&
                  (!old(decisions)[i].state.Active? ==> r.value == old(decisions)[i])
      ensures r.Err? ==> r.error.Invalid? || r.error.NotFound? || r.error.TerminalConflict?
      ensures r == Err(Invalid) ==>
                at == 0 || exists i :: 0 <= i < |decisions| && decisions[i].id == id && decisions[i].state.Active? &&
                             !(decisions[i].created <= at && RevokeReason(reason, decisions[i].source))
      ensures r == Err(NotFound) ==> forall i | 0 <= i < |decisions| :: decisions[i].id != id
      ensures r == Err(TerminalConflict) ==>
                exists i :: 0 <= i < |decisions| && decisions[i].id == id && !decisions[i].state.Active? &&
                  !(decisions[i].state.Revoked? && decisions[i].reason == Some(reason))
    {
      hide Consistent, Kept;
      KeptItself(decisions);
      if at == 0 {
        return Err(Invalid);
      }
      for i := 0 to |decisions|
        invariant forall k | 0 <= k < i :: decisions[k].id != id
        invariant decisions == old(decisions)
      {
        var current := decisions[i];
        if current.id == id {
          if !current.state.Active? {
            if current.state.Revoked? && current.reason == Some(reason) {
              assert decisions[i := current] == decisions;
              return Ok(current);
            }
            return Err(TerminalConflict);
          }
          ValidAt(decisions, i);
          var ended := Ended(current, Revoked, at, reason);
          if !ValidDecision(ended) {
            return Err(Invalid);
          }
          UpdateOk(decisions, i, ended);
          decisions := decisions[i := ended];
          return Ok(ended);
        }
      }
      r := Err(NotFound);
    }
  }

  /** The decisions a sweep ends, in order. */
  function Swept(ds: seq<Decision>, now: Time): seq<Decision> {
    if ds == [] then []
    else
      var n := |ds| - 1;
      Swept(ds[..n], now) + (if Due(ds[n], now) then [Ended(ds[n], Expired, now, "expired")] else [])
  }

  lemma SweptSnoc(ds: seq<Decision>, i: nat, now: Time)
    requires i < |ds|
    ensures Swept(ds[..i + 1], now) ==
            Swept(ds[..i], now) + (if Due(ds[i], now) then [Ended(ds[i], Expired, now, "expired")] else [])
  {
    assert ds[..i + 1][..i] == ds[..i];
  }

  lemma KeptItself(ds: seq<Decision>)
    ensures Kept(ds, ds)
  {
  }

  lemma ValidAt(ds: seq<Decision>, i: nat)
    requires Consistent(ds) && i < |ds|
    ensures ValidDecision(ds[i])
  {
    assert ds[i] in ds;
  }

  lemma NoOtherCompetitor(ds: seq<Decision>, i: nat, node: NodeId, source: Source, target: Prefix)
    requires Consistent(ds) && i < |ds| && Competes(ds[i], node, source, target)
    ensures forall k | 0 <= k < |ds| && k != i :: !Competes(ds[k], node, source, target)
  {
  }

  datatype Call =
    | CallAutomatic(id: string, node: NodeId, rule: string, target: Prefix, at: Time, expires: Option<Time>)
    | CallManual(id: string, node: NodeId, target: Prefix, at: Time, expires: Option<Time>, replace: bool)
    | CallExpire(now: Time)
    | CallRevoke(id: string, at: Time, reason: string)

  /** Any sequence of calls. */
  method RunDecisions(service: MemoryService, calls: seq<Call>)
    requires service.Valid()
    modifies service
    ensures service.Valid() && Kept(old(service.decisions), service.decisions)
  {
    hide Consistent, Kept;
    KeptItself(service.decisions);
    for i := 0 to |calls|
      invariant service.Valid() && Kept(old(service.decisions), service.decisions)
    {
      ghost var before := service.decisions;
      match calls[i] {
        case CallAutomatic(id, node, rule, target, at, expires) =>
          var r := service.RecordAutomatic(id, node, rule, target, at, expires);
        case CallManual(id, node, target, at, expires, replace) =>
          var r := service.BanManual(id, node, target, at, expires, replace);
        case CallExpire(now) => var r := service.Expire(now);
        case CallRevoke(id, at, reason) => var r := service.Revoke(id, at, reason);
      }
      KeptThrough(old(service.decisions), before, service.decisions);
    }
  }
}
