/** The ban projection of one target (internal/decision/projection.go and rebuildProjection
    of internal/decision/transaction.go). */
module Projection {
  import opened Basics
  import opened Addresses
  import opened Decisions

  /** `until` is set only when the ban ends by itself. */
  datatype Projection = Projection(
    node: NodeId, target: Prefix, present: bool, activeCount: nat, until: Option<Time>, revision: nat)

  /** DesiredBanProjection.Validate. */
  predicate ValidProjection(p: Projection) {
    && Canonical(p.target) && 0 < p.revision
    && (if p.present then 0 < p.activeCount && (p.until.Some? ==> 0 < p.until.value) else p.activeCount == 0 && p.until.None?)
  }

  // ----- what a projection means

  /** The projection bans the target at time `t`. */
  predicate Bans(p: Projection, t: Time) {
    p.present && (p.until.None? || t < p.until.value)
  }

  /** The decision asks for a ban at time `t`. */
  predicate Asks(d: Decision, t: Time) {
    d.state.Active? && (d.expires.None? || t < d.expires.value)
  }

  ghost predicate SomeAsks(ds: seq<Decision>, t: Time) {
    exists d :: d in ds && Asks(d, t)
  }

  /** Some active decision on the node's target is permanent or expires after `t`. */
  ghost predicate AsksOn(ds: seq<Decision>, node: NodeId, target: Prefix, t: Time) {
    exists d :: d in ds && d.node == node && d.target == target && Asks(d, t)
  }

  function ActiveCount(ds: seq<Decision>): nat {
    if ds == [] then 0 else ActiveCount(ds[..|ds| - 1]) + (if ds[|ds| - 1].state.Active? then 1 else 0)
  }

  /** Every decision is valid and about this node and target. */
  ghost predicate AboutOne(ds: seq<Decision>, node: NodeId, target: Prefix) {
    forall d | d in ds :: ValidDecision(d) && d.node == node && d.target == target
  }

  /** Content without the revision. */
  predicate SameContent(p: Projection, q: Projection) {
    p.(revision := 0) == q.(revision := 0)
  }

  /** The projection is what the decisions on one target amount to. */
  ghost predicate Aggregates(p: Projection, node: NodeId, target: Prefix, ds: seq<Decision>) {
    && AboutOne(ds, node, target) && ValidProjection(p) && p.node == node && p.target == target
    && p.activeCount == ActiveCount(ds) && (forall t: Time :: Bans(p, t) <==> SomeAsks(ds, t))
  }

  /** AggregateProjection: one pass that counts the active decisions and keeps the latest
      expiry. */
  method AggregateProjection(node: NodeId, target: Prefix, revision: nat, ds: seq<Decision>) returns (r: Option<Projection>)
    ensures r.Some? <==> Canonical(target) && 0 < revision && AboutOne(ds, node, target)
    ensures r.Some? ==> Aggregates(r.value, node, target, ds) && r.value.revision == revision
  {
    hide ValidDecision, Latest, AboutOne, ActiveCount, SomeAsks, Bans;
    if !Canonical(target) {
      return None;
    }
    NothingYet(node, target);
    var count, latest: Time, allFinite := 0, 0, true;
    for i := 0 to |ds|
      invariant AboutOne(ds[..i], node, target) && count == ActiveCount(ds[..i])
      invariant Latest(ds[..i], latest, allFinite)
    {
      var d := ds[i];
      assert ds[..i + 1] == ds[..i] + [d];
      OneMore(ds, i, node, target);
      if !ValidDecision(d) || d.node != node || d.target != target {
        return None;
      }
      LatestSnoc(ds[..i], latest, allFinite, d);
      if d.state.Active? {
        count := count + 1;
        if d.expires.None? {
          allFinite := false;
        } else if latest == 0 || latest < d.expires.value {
          latest := d.expires.value;
        }
      }
    }
    assert ds[..|ds|] == ds;
    CountPositive(ds);
    if revision == 0 {
      return None;
    }
    var p := Projection(node, target, count != 0, count, if count != 0 && allFinite then Some(latest) else None, revision);
    EachValid(ds, node, target);
    LatestMeans(ds, latest, allFinite, p);
    r := Some(p);
  }

  lemma NothingYet(node: NodeId, target: Prefix)
    ensures AboutOne([], node, target) && ActiveCount([]) == 0 && Latest([], 0, true)
  {
  }

  lemma OneMore(ds: seq<Decision>, i: nat, node: NodeId, target: Prefix)
    requires i < |ds|
    ensures AboutOne(ds, node, target) ==> ValidDecision(ds[i]) && ds[i].node == node && ds[i].target == target
    ensures AboutOne(ds[..i], node, target) && ValidDecision(ds[i]) && ds[i].node == node && ds[i].target == target ==>
              AboutOne(ds[..i + 1], node, target)
    ensures ActiveCount(ds[..i + 1]) == ActiveCount(ds[..i]) + (if ds[i].state.Active? then 1 else 0)
  {
    hide ValidDecision;
    assert ds[i] in ds && ds[..i + 1] == ds[..i] + [ds[i]];
    assert ds[..i + 1][..i] == ds[..i];
  }

  lemma EachValid(ds: seq<Decision>, node: NodeId, target: Prefix)
    requires AboutOne(ds, node, target)
    ensures forall d | d in ds :: ValidDecision(d)
  {
  }

  /** What the pass knows: whether a permanent decision is active, and the latest expiry of
      the active ones, zero if none has one. */
  ghost predicate Latest(ds: seq<Decision>, latest: Time, allFinite: bool) {
    && (allFinite <==> forall d | d in ds && d.state.Active? :: d.expires.Some?)
    && (forall d | d in ds && d.state.Active? && d.expires.Some? :: d.expires.value <= latest)
    && (latest != 0 ==> exists d :: d in ds && d.state.Active? && d.expires == Some(latest))
  }

  lemma LatestSnoc(ds: seq<Decision>, latest: Time, allFinite: bool, d: Decision)
    requires Latest(ds, latest, allFinite) && ValidDecision(d)
    ensures Latest(ds + [d],
                   if d.state.Active? && d.expires.Some? && (latest == 0 || latest < d.expires.value) then d.expires.value else latest,
                   allFinite && !(d.state.Active? && d.expires.None?))
  {
    assert d in ds + [d] && forall e | e in ds :: e in ds + [d];
    assert forall e | e in ds + [d] :: e in ds || e == d;
  }

  lemma {:induction false} CountPositive(ds: seq<Decision>)
    ensures 0 < ActiveCount(ds) <==> exists d :: d in ds && d.state.Active?
  {
    if ds != [] {
      var n := |ds| - 1;
      CountPositive(ds[..n]);
      assert ds[n] in ds && ds == ds[..n] + [ds[n]];
    }
  }

  lemma LatestMeans(ds: seq<Decision>, latest: Time, allFinite: bool, p: Projection)
    requires Latest(ds, latest, allFinite) && (forall d | d in ds :: ValidDecision(d))
    requires p.present <==> exists d :: d in ds && d.state.Active?
    requires p.until == if p.present && allFinite then Some(latest) else None
    ensures forall t: Time :: Bans(p, t) <==> SomeAsks(ds, t)
    ensures p.present && allFinite ==> 0 < latest
  {
    if p.present && allFinite {
      var d :| d in ds && d.state.Active?;
    }
    forall t: Time
      ensures Bans(p, t) <==> SomeAsks(ds, t)
    {
      if Bans(p, t) {
        if allFinite {
          var d :| d in ds && d.state.Active? && d.expires == Some(latest);
          assert Asks(d, t);
        } else {
          var d :| d in ds && d.state.Active? && d.expires.None?;
          assert Asks(d, t);
        }
      }
      if SomeAsks(ds, t) {
        var d :| d in ds && Asks(d, t);
      }
    }
  }

  /** A valid projection is determined, up to its revision, by its count and its meaning. */
  lemma MeaningDetermines(p: Projection, q: Projection)
    requires ValidProjection(p) && ValidProjection(q) && p.node == q.node && p.target == q.target
    requires p.activeCount == q.activeCount && forall t: Time :: Bans(p, t) <==> Bans(q, t)
    ensures SameContent(p, q)
  {
    if p.until.Some? {
      assert Bans(p, p.until.value) <==> Bans(q, p.until.value);
    }
    if q.until.Some? {
      assert Bans(p, q.until.value) <==> Bans(q, q.until.value);
    }
  }

  /** Aggregation does not depend on the order of the decisions: rearranged lists give the
      same content. */
  lemma OrderDoesNotMatter(p: Projection, q: Projection, node: NodeId, target: Prefix, ds: seq<Decision>, es: seq<Decision>)
    requires Aggregates(p, node, target, ds) && Aggregates(q, node, target, es) && multiset(ds) == multiset(es)
    ensures SameContent(p, q)
  {
    CountPermuted(ds, es);
    forall d
      ensures d in ds <==> d in es
    {
      assert d in ds <==> d in multiset(ds);
      assert d in es <==> d in multiset(es);
    }
    forall t: Time
      ensures Bans(p, t) <==> Bans(q, t)
    {
      assert SomeAsks(ds, t) <==> SomeAsks(es, t);
    }
    MeaningDetermines(p, q);
  }

  lemma {:induction false} CountWithout(ds: seq<Decision>, k: nat)
    requires k < |ds|
    ensures ActiveCount(ds) == ActiveCount(ds[..k] + ds[k + 1..]) + (if ds[k].state.Active? then 1 else 0)
    decreases |ds|
  {
    var n := |ds| - 1;
    var rest := ds[..k] + ds[k + 1..];
    if k == n {
      assert rest == ds[..n];
    } else {
      CountWithout(ds[..n], k);
      assert rest[|rest| - 1] == ds[n] && rest[..|rest| - 1] == ds[..n][..k] + ds[..n][k + 1..];
      assert ds[..n][k] == ds[k];
    }
  }

  lemma WithoutOne(es: seq<Decision>, k: nat)
    requires k < |es|
    ensures multiset(es[..k] + es[k + 1..]) + multiset{es[k]} == multiset(es)
  {
    assert es == es[..k] + ([es[k]] + es[k + 1..]);
  }

  lemma {:induction false} CountPermuted(ds: seq<Decision>, es: seq<Decision>)
    requires multiset(ds) == multiset(es)
    ensures ActiveCount(ds) == ActiveCount(es)
    decreases |ds|
  {
    hide ActiveCount;
    if ds == [] {
      assert |multiset(es)| == 0;
      assert es == [];
    } else {
      assert ds[0] in multiset(es);
      var k :| 0 <= k < |es| && es[k] == ds[0];
      var ds', es' := ds[..0] + ds[1..], es[..k] + es[k + 1..];
      WithoutOne(ds, 0);
      WithoutOne(es, k);
      CountWithout(ds, 0);
      CountWithout(es, k);
      SameWithoutOne(multiset(ds'), multiset(es'), ds[0]);
      CountPermuted(ds', es');
    }
  }

  lemma SameWithoutOne(a: multiset<Decision>, b: multiset<Decision>, d: Decision)
    requires a + multiset{d} == b + multiset{d}
    ensures a == b
  {
    assert a == (a + multiset{d}) - multiset{d};
    assert b == (b + multiset{d}) - multiset{d};
  }

  // ----- rebuildProjection

  ghost predicate CurrentFor(p: Projection, ds: seq<Decision>, node: NodeId, target: Prefix) {
    && ValidProjection(p) && p.node == node && p.target == target
    && p.activeCount == ActiveCount(Selected(ds, node, target))
    && (forall t: Time :: Bans(p, t) <==> AsksOn(ds, node, target, t))
  }

  /** The decisions and projections of one transaction. */
  class ProjectionStore {
    var decisions: seq<Decision>
    var projections: map<Prefix, Projection>
    const node: NodeId

    constructor (n: NodeId)
      ensures decisions == [] && projections == map[] && node == n
    {
      decisions, projections, node := [], map[], n;
    }

    /** ListActiveDecisions. */
    function ActiveOn(target: Prefix): seq<Decision>
      reads this
    {
      Selected(decisions, node, target)
    }

    /** The stored projection of a target says what its active decisions ask. */
    ghost predicate Current(target: Prefix)
      reads this
    {
      target in projections && CurrentFor(projections[target], decisions, node, target)
    }

    /** rebuildProjection: whatever was stored, the target's projection is current
        afterwards. It is rewritten with the next revision unless, without force, its content
        is already right. */
    method Rebuild(target: Prefix, force: bool) returns (r: Option<Projection>, changed: bool)
      requires forall d | d in decisions :: ValidDecision(d)
      requires target in projections ==>
                 ValidProjection(projections[target]) && projections[target].node == node && projections[target].target == target
      modifies this`projections
      ensures r.Some? ==> Current(target) && projections == old(projections)[target := r.value]
      ensures r.None? ==> projections == old(projections) && !changed
      ensures r.Some? && target in old(projections) ==>
                && (changed ==> r.value.revision == old(projections)[target].revision + 1)
                && (!changed ==> r.value == old(projections)[target])
                && (!force ==> (changed <==> !SameContent(r.value, old(projections)[target])))
      ensures r.Some? && target !in old(projections) ==> changed && r.value.revision == 1
      ensures r.Some? && force ==> changed
      ensures r.None? ==> !Canonical(target) || (target in projections && MAX_INT64 <= projections[target].revision)
    {
      var found := target in projections;
      var revision := if found then projections[target].revision else 1;
      SelectedAre(decisions, node, target);
      var desired := AggregateProjection(node, target, revision, ActiveOn(target));
      if desired.None? {
        return None, false;
      }
      AsksActive(decisions, node, target);
      if found && !force && SameContent(projections[target], desired.value) {
        assert forall t: Time :: Bans(projections[target], t) <==> Bans(desired.value, t);
        assert projections[target := projections[target]] == projections;
        return Some(projections[target]), false;
      }
      var p := desired.value;
      if found {
        if MAX_INT64 <= projections[target].revision {
          return None, false;
        }
        p := p.(revision := projections[target].revision + 1);
        assert forall t: Time :: Bans(p, t) <==> Bans(desired.value, t);
      }
      projections := projections[target := p];
      r, changed := Some(p), true;
    }

    /** Every stored projection is current, and every target decided on has one. */
    ghost predicate Valid()
      reads this
    {
      && (forall d | d in decisions :: ValidDecision(d))
      && (forall target | target in projections :: Current(target))
      && (forall d | d in decisions && d.node == node :: d.target in projections)
    }

    /** One decision transaction: decisions on one target are added or rewritten in place,
        and the target's projection is rebuilt; if that fails, nothing changes. */
    method Decide(writes: seq<Write>, target: Prefix, force: bool) returns (ok: bool)
      requires Valid()
      modifies this
      ensures Valid() && RevisionsGrow(old(projections), projections)
      ensures ok ==>
                && decisions == Written(old(decisions), writes)
                && target in projections && projections == old(projections)[target := projections[target]]
      ensures !ok ==> decisions == old(decisions) && projections == old(projections)
    {
      hide ValidDecision, CurrentFor, ValidProjection, Selected, AsksOn;
      var before, next, kept := decisions, decisions, projections;
      for i := 0 to |writes|
        invariant next == Written(before, writes[..i]) && decisions == before
        invariant forall d | d in next :: ValidDecision(d) && (d.node == node ==> d.target == target || d.target in projections)
        invariant forall other | other != target :: Selected(next, node, other) == Selected(before, node, other)
      {
        var w := writes[i];
        if !ValidDecision(w.decision) || w.decision.node != node || w.decision.target != target ||
           (w.at < |next| && (next[w.at].node != node || next[w.at].target != target)) {
          return false;
        }
        assert writes[..i + 1][..i] == writes[..i];
        forall other | other != target
          ensures Selected(WrittenOne(next, w), node, other) == Selected(next, node, other)
        {
          OtherTarget(next, w, node, other);
        }
        assert forall d | d in WrittenOne(next, w) :: d in next || d == w.decision;
        next := WrittenOne(next, w);
      }
      assert writes[..|writes|] == writes;
      decisions := next;
      forall other | other in projections && other != target
        ensures CurrentFor(kept[other], decisions, node, other)
      {
        StaysCurrent(kept[other], before, next, node, other);
      }
      if target in projections {
        CurrentIsValid(projections[target], before, node, target);
      }
      var r, changed := Rebuild(target, force);
      if r.None? {
        decisions := before;
        return false;
      }
      ok := true;
    }
  }

  /** A decision row written at a place, or past the end added. */
  datatype Write = Write(at: nat, decision: Decision)

  function WrittenOne(ds: seq<Decision>, w: Write): seq<Decision> {
    if w.at < |ds| then ds[w.at := w.decision] else ds + [w.decision]
  }

  function Written(ds: seq<Decision>, writes: seq<Write>): seq<Decision> {
    if writes == [] then ds else WrittenOne(Written(ds, writes[..|writes| - 1]), writes[|writes| - 1])
  }

  lemma CurrentIsValid(p: Projection, ds: seq<Decision>, node: NodeId, target: Prefix)
    requires CurrentFor(p, ds, node, target)
    ensures ValidProjection(p) && p.node == node && p.target == target
  {
  }

  lemma StaysCurrent(p: Projection, ds: seq<Decision>, es: seq<Decision>, node: NodeId, target: Prefix)
    requires CurrentFor(p, ds, node, target) && Selected(es, node, target) == Selected(ds, node, target)
    ensures CurrentFor(p, es, node, target)
  {
    hide Selected, AsksOn, SomeAsks;
    AsksActive(ds, node, target);
    AsksActive(es, node, target);
  }

  ghost predicate RevisionsGrow(before: map<Prefix, Projection>, after: map<Prefix, Projection>) {
    forall target | target in before :: target in after && before[target].revision <= after[target].revision
  }

  /** Any sequence of decision transactions leaves every projection current. */
  method RunProjections(store: ProjectionStore, steps: seq<(seq<Write>, Prefix, bool)>)
    requires store.Valid()
    modifies store
    ensures store.Valid() && RevisionsGrow(old(store.projections), store.projections)
  {
    for i := 0 to |steps|
      invariant store.Valid() && RevisionsGrow(old(store.projections), store.projections)
    {
      var ok := store.Decide(steps[i].0, steps[i].1, steps[i].2);
    }
  }

  /** Writing a decision on one target leaves the active decisions of the others alone. */
  lemma {:induction false} OtherTarget(ds: seq<Decision>, w: Write, node: NodeId, target: Prefix)
    requires w.decision.target != target && (w.at < |ds| ==> ds[w.at].target != target)
    ensures Selected(WrittenOne(ds, w), node, target) == Selected(ds, node, target)
    decreases |ds|
  {
    if w.at < |ds| {
      var n := |ds| - 1;
      var es := ds[w.at := w.decision];
      if w.at == n {
        assert es[..n] == ds[..n];
      } else {
        OtherTarget(ds[..n], w, node, target);
        assert es[..n] == ds[..n][w.at := w.decision];
      }
    } else {
      assert (ds + [w.decision])[..|ds|] == ds;
    }
  }

  function Selected(ds: seq<Decision>, node: NodeId, target: Prefix): seq<Decision> {
    if ds == [] then []
    else
      var n := |ds| - 1;
      Selected(ds[..n], node, target) +
      (if ds[n].state.Active? && ds[n].node == node && ds[n].target == target then [ds[n]] else [])
  }

  lemma {:induction false} SelectedAre(ds: seq<Decision>, node: NodeId, target: Prefix)
    ensures forall d :: d in Selected(ds, node, target) <==> d in ds && d.state.Active? && d.node == node && d.target == target
  {
    if ds != [] {
      var n := |ds| - 1;
      SelectedAre(ds[..n], node, target);
      assert ds == ds[..n] + [ds[n]];
    }
  }

  lemma AsksActive(ds: seq<Decision>, node: NodeId, target: Prefix)
    ensures forall t: Time :: SomeAsks(Selected(ds, node, target), t) <==> AsksOn(ds, node, target, t)
  {
    SelectedAre(ds, node, target);
    forall t: Time
      ensures SomeAsks(Selected(ds, node, target), t) <==> AsksOn(ds, node, target, t)
    {
      if AsksOn(ds, node, target, t) {
        var d :| d in ds && d.node == node && d.target == target && Asks(d, t);
        assert d in Selected(ds, node, target);
      }
    }
  }
}
