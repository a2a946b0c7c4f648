/** Rule evaluation over a reserved batch (internal/processor/pipeline.go, evaluateRules):
    matches that fail permanently are excluded and the rest is judged again. */
module Pipeline {
  import opened Basics
  import opened Window
  import opened Ledger

  /** What evaluating one rule may answer. */
  datatype Verdict =
    | Effects(effects: string)
    | InvalidEffects
    | RecordPermanent(code: string)
    | PlanFailed

  /** A detection and the counts it was judged on. */
  datatype Detection = Detection(candidate: Candidate, judged: Snapshot, effects: string)

  datatype Permanent = Permanent(candidate: Candidate, code: string)

  datatype Evaluation = Evaluation(prepared: seq<Detection>, permanent: seq<Permanent>)

  datatype PlanFailure = Blocked | Retry

  /** The candidates whose key is not excluded, in order. */
  function Active(candidates: seq<Candidate>, excluded: set<ContributionKey>): seq<Candidate> {
    if candidates == [] then []
    else
      var n := |candidates| - 1;
      Active(candidates[..n], excluded) + (if candidates[n].key in excluded then [] else [candidates[n]])
  }

  function CandidatesOf(prepared: seq<Detection>): seq<Candidate> {
    seq(|prepared|, i requires 0 <= i < |prepared| => prepared[i].candidate)
  }

  function Rejected(permanent: seq<Permanent>): set<ContributionKey> {
    set p | p in permanent :: p.candidate.key
  }

  /** The rejected candidates are candidates, one per key. */
  ghost predicate RejectedOnce(permanent: seq<Permanent>, candidates: seq<Candidate>) {
    && (forall p | p in permanent :: p.candidate in candidates)
    && (forall i, j | 0 <= i < j < |permanent| :: permanent[i].candidate.key != permanent[j].candidate.key)
  }

  lemma {:induction false} ActiveAre(candidates: seq<Candidate>, excluded: set<ContributionKey>)
    ensures forall c :: c in Active(candidates, excluded) <==> c in candidates && c.key !in excluded
  {
    if candidates != [] {
      var n := |candidates| - 1;
      ActiveAre(candidates[..n], excluded);
      assert candidates == candidates[..n] + [candidates[n]];
    }
  }

  /** With distinct keys, the active candidates and the excluded keys partition the matches. */
  lemma {:induction false} ActivePartition(candidates: seq<Candidate>, excluded: set<ContributionKey>)
    requires DistinctKeys(candidates) && excluded <= Keys(candidates)
    ensures |Active(candidates, excluded)| + |excluded| == |candidates|
  {
    if candidates != [] {
      var n := |candidates| - 1;
      var rest, c := candidates[..n], candidates[n];
      assert candidates == rest + [c];
      KeysSnoc(rest, c);
      forall i | 0 <= i < n
        ensures rest[i].key != c.key
      {
        assert candidates[i] == rest[i];
      }
      if c.key in excluded {
        ActivePartition(rest, excluded - {c.key});
        ActiveWithout(rest, excluded, c.key);
      } else {
        ActivePartition(rest, excluded);
      }
    } else {
      assert excluded == {};
    }
  }

  lemma {:induction false} ActiveWithout(candidates: seq<Candidate>, excluded: set<ContributionKey>, k: ContributionKey)
    requires forall c | c in candidates :: c.key != k
    ensures Active(candidates, excluded - {k}) == Active(candidates, excluded)
  {
    if candidates != [] {
      var n := |candidates| - 1;
      ActiveWithout(candidates[..n], excluded, k);
      assert candidates[n] in candidates;
    }
  }

  /** A batch all of whose candidates are new is staged whole. */
  lemma {:induction false} AllStaged(m: Memberships, batch: seq<Candidate>, n: nat)
    requires n <= |batch| && forall i | 0 <= i < n :: PreviewOf(m, batch, i).willContribute
    ensures Staged(m, batch[..n]) == batch[..n]
  {
    if 0 < n {
      AllStaged(m, batch, n - 1);
      VisibleSnoc(m, batch, n - 1);
      assert PreviewOf(m, batch, n - 1).willContribute;
      assert batch[..n] == batch[..n - 1] + [batch[n - 1]];
    }
  }

  lemma PermanentSnoc(permanent: seq<Permanent>, p: Permanent, candidates: seq<Candidate>)
    requires RejectedOnce(permanent, candidates) && p.candidate in candidates && p.candidate.key !in Rejected(permanent)
    ensures RejectedOnce(permanent + [p], candidates) && Rejected(permanent + [p]) == Rejected(permanent) + {p.candidate.key}
    ensures |Rejected(permanent + [p])| == |Rejected(permanent)| + 1
  {
    RejectedSnoc(permanent, p);
    forall i | 0 <= i < |permanent|
      ensures permanent[i].candidate.key in Rejected(permanent)
    {
      assert permanent[i] in permanent;
    }
    hide Rejected;
  }

  lemma RejectedSnoc(permanent: seq<Permanent>, p: Permanent)
    ensures Rejected(permanent + [p]) == Rejected(permanent) + {p.candidate.key}
  {
    assert p in permanent + [p];
    assert forall q | q in permanent :: q in permanent + [p];
  }

  lemma RejectedWithin(permanent: seq<Permanent>, candidates: seq<Candidate>)
    requires RejectedOnce(permanent, candidates)
    ensures Rejected(permanent) <= Keys(candidates)
  {
  }

  lemma {:induction false} KeysBounded(candidates: seq<Candidate>)
    ensures |Keys(candidates)| <= |candidates|
  {
    if candidates != [] {
      var n := |candidates| - 1;
      KeysBounded(candidates[..n]);
      assert candidates == candidates[..n] + [candidates[n]];
      KeysSnoc(candidates[..n], candidates[n]);
    }
  }

  lemma SubsetSmaller<T>(a: set<T>, b: set<T>)
    requires a <= b
    ensures |a| <= |b|
  {
    assert b == a + (b - a);
  }

  /** What a successful evaluation leaves: the reservation stages exactly the prepared
      matches, each judged on counts that exclude the rejected ones. */
  ghost predicate Judged(m: Memberships, staged: seq<Candidate>, candidates: seq<Candidate>, e: Evaluation) {
    && staged == CandidatesOf(e.prepared) == Active(candidates, Rejected(e.permanent))
    && RejectedOnce(e.permanent, candidates)
    && (forall i | 0 <= i < |e.prepared| ::
          e.prepared[i].judged == SnapshotOf(Visible(m, staged[..i + 1]), staged[i].window))
  }

  /** For matches with distinct keys each one is prepared or rejected, and never both. */
  lemma EachMatchOnce(m: Memberships, staged: seq<Candidate>, candidates: seq<Candidate>, e: Evaluation)
    requires Judged(m, staged, candidates, e) && DistinctKeys(candidates)
    ensures |e.prepared| + |Rejected(e.permanent)| == |candidates|
    ensures forall c | c in candidates :: c in CandidatesOf(e.prepared) <==> c.key !in Rejected(e.permanent)
  {
    RejectedWithin(e.permanent, candidates);
    ActivePartition(candidates, Rejected(e.permanent));
    ActiveAre(candidates, Rejected(e.permanent));
  }

  /** A caller that holds no guard and no reservation. */
  ghost predicate HoldsNothing(ledger: Ledger, t: Ticket)
    reads ledger
  {
    t !in ledger.reservations && ledger.Guards(t) == {}
  }

  /** It holds no claim either. */
  lemma HoldsNoClaim(ledger: Ledger, t: Ticket)
    requires ledger.Valid() && HoldsNothing(ledger, t)
    ensures forall k | k in ledger.claims :: ledger.claims[k] != t
  {
    NothingClaimed(ledger.claims, ledger.memberships, ledger.reservations, t);
  }

  lemma HoldNoClaims(ledger: Ledger, used: set<Ticket>)
    requires ledger.Valid() && forall u | u in used :: HoldsNothing(ledger, u)
    ensures forall k | k in ledger.claims :: ledger.claims[k] !in used
  {
    hide ClaimsOwned, PromisesKept, CountsExact, GuardsHeld, HoldsNothing;
    forall u | u in used
      ensures forall k | k in ledger.claims :: ledger.claims[k] != u
    {
      HoldsNoClaim(ledger, u);
    }
  }

  datatype Judgement =
    | AllAccepted(detections: seq<Detection>)
    | OneRejected(permanent: Permanent)
    | Failed(failure: PlanFailure)

  /** Detections that follow their previews. */
  ghost predicate Follows(detections: seq<Detection>, batch: seq<Candidate>, previews: seq<Preview>) {
    && |detections| <= |batch| == |previews|
    && (forall i | 0 <= i < |detections| ::
          detections[i].candidate == batch[i] && detections[i].judged == previews[i].snapshot && previews[i].willContribute)
  }

  /** One pass over the previews, while other callers go on. The reservation survives only
      if every match was judged. */
  method JudgeAll(ledger: Ledger, t: Ticket, batch: seq<Candidate>, previews: seq<Preview>, mine: set<Ticket>)
    returns (j: Judgement)
    requires ledger.Valid() && t in mine && t in ledger.reservations
    requires t in ledger.batches && t in ledger.promises && ledger.batches[t] == batch && ledger.promises[t] == previews
    requires |previews| == |batch| && forall i | 0 <= i < |batch| :: previews[i].candidate == batch[i]
    requires forall u | u in mine :: u < ledger.next && (u != t ==> HoldsNothing(ledger, u))
    modifies ledger
    ensures ledger.Valid() && forall u | u in mine :: u < ledger.next && (u != t || !j.AllAccepted? ==> HoldsNothing(ledger, u))
    ensures j.AllAccepted? ==>
              && t in ledger.reservations && ledger.reservations[t] == old(ledger.reservations[t])
              && t in ledger.batches && t in ledger.promises && ledger.batches[t] == batch && ledger.promises[t] == previews
              && Follows(j.detections, batch, previews) && |j.detections| == |batch|
    ensures j.OneRejected? ==> j.permanent.candidate in batch
  {
    hide ClaimsOwned, PromisesKept, CountsExact, Visible, Staged;
    var detections: seq<Detection> := [];
    for i := 0 to |previews|
      invariant ledger.Valid() && t in ledger.reservations && ledger.reservations[t] == old(ledger.reservations[t])
      invariant t in ledger.batches && t in ledger.promises && ledger.batches[t] == batch && ledger.promises[t] == previews
      invariant forall u | u in mine :: u < ledger.next && (u != t ==> HoldsNothing(ledger, u))
      invariant |detections| == i && Follows(detections, batch, previews)
    {
      ledger.Others(mine);
      if !previews[i].willContribute {
        Release(ledger, t, mine);
        return Failed(Blocked);
      }
      var verdict: Verdict := *;
      match verdict {
        case RecordPermanent(code) =>
          Release(ledger, t, mine);
          return OneRejected(Permanent(previews[i].candidate, code));
        case PlanFailed =>
          Release(ledger, t, mine);
          return Failed(Retry);
        case InvalidEffects =>
          Release(ledger, t, mine);
          return Failed(Blocked);
        case Effects(effects) =>
          detections := detections + [Detection(previews[i].candidate, previews[i].snapshot, effects)];
      }
    }
    j := AllAccepted(detections);
  }

  /** Abort, after which the caller holds nothing. */
  method Release(ledger: Ledger, t: Ticket, ghost mine: set<Ticket>)
    requires ledger.Valid() && t in mine && t in ledger.reservations
    requires forall u | u in mine :: u < ledger.next && (u != t ==> HoldsNothing(ledger, u))
    modifies ledger
    ensures ledger.Valid() && forall u | u in mine :: u < ledger.next && HoldsNothing(ledger, u)
  {
    hide ClaimsOwned, PromisesKept, CountsExact;
    ledger.Abort(t);
  }

  /** evaluateRules. It ends within one pass more than there are matches; on every error the
      caller holds nothing. */
  method EvaluateRules(ledger: Ledger, delivery: DeliveryId, candidates: seq<Candidate>)
    returns (r: Result<Evaluation, PlanFailure>, t: Ticket, passes: nat, ghost used: set<Ticket>)
    requires ledger.Valid()
    modifies ledger
    ensures ledger.Valid() && 1 <= passes <= |candidates| + 1 && t in used
    ensures forall u | u in used && (r.Err? || u != t) :: HoldsNothing(ledger, u)
    ensures forall k | k in ledger.claims && ledger.claims[k] in used :: r.Ok? && ledger.claims[k] == t
    ensures r.Ok? ==>
              && t in ledger.reservations && ledger.reservations[t].delivery == delivery
              && Judged(ledger.memberships, ledger.reservations[t].staged, candidates, r.value)
  {
    hide ClaimsOwned, PromisesKept, CountsExact, GuardsHeld, Active, Rejected, RejectedOnce, Judged, HoldsNothing, Keys,
         Follows, Staged, PreviewOf;
    var mine: set<Ticket> := {};
    var permanent: seq<Permanent> := [];
    passes, used := 0, {};
    NothingRejected(candidates);
    while true
      invariant ledger.Valid() && used == mine && RejectedOnce(permanent, candidates)
      invariant passes == |Rejected(permanent)| && Rejected(permanent) <= Keys(candidates)
      invariant forall u | u in mine :: u < ledger.next && HoldsNothing(ledger, u)
      decreases |Keys(candidates)| - passes
    {
      PassesBounded(permanent, candidates);
      passes := passes + 1;
      var excluded := Rejected(permanent);
      var active := Active(candidates, excluded);
      ActiveAre(candidates, excluded);
      ghost var before := mine;
      var previews;
      t, previews := PrepareActive(ledger, delivery, active, mine);
      mine, used := mine + {t}, used + {t};
      if previews.Err? {
        HoldNoClaims(ledger, used);
        return Err(if previews.error.Cancelled? then Retry else Blocked), t, passes, used;
      }
      var j := JudgeAll(ledger, t, active, previews.value, mine);
      match j {
        case Failed(failure) =>
          HoldNoClaims(ledger, used);
          return Err(failure), t, passes, used;
        case AllAccepted(detections) =>
          HoldNoClaims(ledger, before);
          AllJudged(ledger, t, candidates, Evaluation(detections, permanent), previews.value);
          return Ok(Evaluation(detections, permanent)), t, passes, used;
        case OneRejected(p) =>
          PermanentSnoc(permanent, p, candidates);
          permanent := permanent + [p];
          RejectedWithin(permanent, candidates);
          PassesBounded(permanent, candidates);
      }
    }
  }

  method PrepareActive(ledger: Ledger, delivery: DeliveryId, active: seq<Candidate>, mine: set<Ticket>)
    returns (t: Ticket, previews: Result<seq<Preview>, Failure>)
    requires ledger.Valid() && forall u | u in mine :: u < ledger.next && HoldsNothing(ledger, u)
    modifies ledger
    ensures ledger.Valid() && t < ledger.next && forall u | u in mine :: u < ledger.next && u != t && HoldsNothing(ledger, u)
    ensures previews.Err? ==> HoldsNothing(ledger, t)
    ensures previews.Ok? ==>
              && t in ledger.reservations && ledger.reservations[t].delivery == delivery
              && t in ledger.batches && t in ledger.promises
              && ledger.batches[t] == active && ledger.promises[t] == previews.value
              && |previews.value| == |active| && forall i | 0 <= i < |active| :: previews.value[i].candidate == active[i]
  {
    hide ClaimsOwned, CountsExact, GuardsHeld, Visible, Staged;
    t, previews := ledger.PrepareBatch(delivery, active, mine);
  }

  lemma NothingRejected(candidates: seq<Candidate>)
    ensures RejectedOnce([], candidates) && Rejected([]) == {}
  {
  }

  lemma PassesBounded(permanent: seq<Permanent>, candidates: seq<Candidate>)
    requires Rejected(permanent) <= Keys(candidates)
    ensures |Rejected(permanent)| <= |Keys(candidates)| <= |candidates|
  {
    SubsetSmaller(Rejected(permanent), Keys(candidates));
    KeysBounded(candidates);
  }

  lemma AllJudged(ledger: Ledger, t: Ticket, candidates: seq<Candidate>, e: Evaluation, previews: seq<Preview>)
    requires ledger.Valid() && t in ledger.reservations && RejectedOnce(e.permanent, candidates)
    requires t in ledger.batches && t in ledger.promises && ledger.promises[t] == previews
    requires var batch := Active(candidates, Rejected(e.permanent));
             ledger.batches[t] == batch && |e.prepared| == |batch| && Follows(e.prepared, batch, previews)
    ensures Judged(ledger.memberships, ledger.reservations[t].staged, candidates, e)
  {
    hide Active, Rejected, RejectedOnce, Judged, Kept, CountsExact, ClaimsOwned, GuardsHeld;
    assert Kept(ledger.memberships, ledger.claims, t, ledger.reservations[t], ledger.batches[t], previews);
    KeptIsJudged(ledger.memberships, ledger.claims, t, ledger.reservations[t], candidates, e, previews);
  }

  lemma KeptIsJudged(m: Memberships, claims: Claims, t: Ticket, r: Reservation, candidates: seq<Candidate>, e: Evaluation,
                     previews: seq<Preview>)
    requires RejectedOnce(e.permanent, candidates)
    requires var batch := Active(candidates, Rejected(e.permanent));
             Kept(m, claims, t, r, batch, previews) && |e.prepared| == |batch| && Follows(e.prepared, batch, previews)
    ensures Judged(m, r.staged, candidates, e)
  {
    var batch := Active(candidates, Rejected(e.permanent));
    AllStaged(m, batch, |batch|);
    assert batch[..|batch|] == batch;
    assert CandidatesOf(e.prepared) == batch;
    hide Staged, Visible;
    forall i | 0 <= i < |batch|
      ensures e.prepared[i].judged == SnapshotOf(Visible(m, batch[..i + 1]), batch[i].window)
    {
      assert previews[i] == PreviewOf(m, batch, i);
    }
  }
}
