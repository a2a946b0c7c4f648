/** The shared detection ledger as an object (internal/detection/window.go). Its methods
    are the steps the code performs under the ledger mutex; what other callers do while
    one waits for a guard is an arbitrary sequence of such steps. */
module Ledger {
  import opened Basics
  import opened Window

  type Slots = map<WindowKey, Slot>
  type Claims = map<ContributionKey, Ticket>
  type Holders = map<WindowKey, Ticket>
  type Reservations = map<Ticket, Reservation>

  // ----- invariants

  /** Every window counts exactly its memberships. */
  ghost predicate CountsExact(windows: Slots, m: Memberships) {
    && (forall k | k in m :: m[k].window in windows)
    && (forall w | w in windows :: Exact(windows[w], m, w))
  }

  /** A claimed key is no membership yet and is staged by the one live reservation that
      claims it. */
  ghost predicate ClaimsOwned(claims: Claims, m: Memberships, reservations: Reservations) {
    && (forall k | k in claims :: k !in m && claims[k] in reservations && k in Keys(reservations[claims[k]].staged))
    && (forall t, c | t in reservations && c in reservations[t].staged :: c.key in claims && claims[c.key] == t)
  }

  /** A live reservation holds the guards of exactly its windows. */
  ghost predicate GuardsHeld(holders: Holders, reservations: Reservations, windows: Slots, next: Ticket) {
    && (forall w | w in holders :: w in windows && holders[w] < next)
    && (forall t | t in reservations :: t < next)
    && (forall t, w | t in reservations && w in reservations[t].locked :: w in holders && holders[w] == t)
    && (forall w | w in holders && holders[w] in reservations :: w in reservations[holders[w]].locked)
  }

  /** What a reservation was promised when it was prepared is still so. */
  ghost predicate Kept(m: Memberships, claims: Claims, t: Ticket, r: Reservation, batch: seq<Candidate>, promise: seq<Preview>) {
    && |promise| == |batch|
    && (forall i | 0 <= i < |batch| :: promise[i] == PreviewOf(m, batch, i))
    && r.staged == Staged(m, batch)
    && (forall c | c in batch :: c.window in r.locked && (c.key in m || (c.key in claims && claims[c.key] == t)))
  }

  ghost predicate PromisesKept(m: Memberships, claims: Claims, reservations: Reservations,
                               batches: map<Ticket, seq<Candidate>>, promises: map<Ticket, seq<Preview>>) {
    forall t | t in reservations ::
      t in batches && t in promises && Kept(m, claims, t, reservations[t], batches[t], promises[t])
  }

  /** A batch that prepareLocked accepts: one mapping per key, equal to an existing
      membership's, and no key that another reservation claims. */
  ghost predicate Acceptable(m: Memberships, claims: Claims, batch: seq<Candidate>) {
    && (forall c, d | c in batch && d in batch && c.key == d.key :: Record(c) == Record(d))
    && (forall c | c in batch :: if c.key in m then m[c.key] == Record(c) else c.key !in claims)
  }

  function Elements(keys: seq<WindowKey>): set<WindowKey> {
    set w | w in keys
  }

  function Claimed(claims: Claims, staged: seq<Candidate>, t: Ticket): Claims {
    claims + map k | k in Keys(staged) :: t
  }

  // ----- what settling a reservation does to the others

  /** Confirming one reservation changes nothing that another one previewed. */
  lemma ConfirmAgrees(m: Memberships, claims: Claims, holders: Holders, reservations: Reservations, windows: Slots,
                      next: Ticket, t: Ticket, u: Ticket, batch: seq<Candidate>, promise: seq<Preview>)
    requires ClaimsOwned(claims, m, reservations) && GuardsHeld(holders, reservations, windows, next)
    requires t in reservations && u in reservations && t != u
    requires Kept(m, claims, u, reservations[u], batch, promise)
    requires forall c | c in reservations[t].staged :: c.window in reservations[t].locked
    ensures Agree(m, Visible(m, reservations[t].staged), batch)
  {
    var staged := reservations[t].staged;
    var m' := Visible(m, staged);
    ConfirmedAreStaged(m, staged);
    hide Visible, Staged, PreviewOf;
    forall c | c in batch
      ensures c.key in m <==> c.key in m'
      ensures c.key in m ==> m[c.key] == m'[c.key]
      ensures AgreeAt(m, m', c.window)
    {
      assert c.window in reservations[u].locked && holders[c.window] == u;
    }
  }

  lemma ConfirmedAreStaged(m: Memberships, staged: seq<Candidate>)
    ensures forall k | k in m :: k in Visible(m, staged) && Visible(m, staged)[k] == m[k]
    ensures forall k | k in Visible(m, staged) && k !in m ::
              exists s :: s in staged && s.key == k && s.window == Visible(m, staged)[k].window
  {
    VisibleKeeps(m, staged);
    VisibleIsStaged(m, staged);
    forall k | k in Visible(m, staged) && k !in m
      ensures exists s :: s in staged && s.key == k && s.window == Visible(m, staged)[k].window
    {
      var s :| s in Staged(m, staged) && s.key == k;
      assert s in staged;
    }
  }

  lemma KeptAgrees(m: Memberships, m': Memberships, claims: Claims, claims': Claims, t: Ticket, r: Reservation,
                   batch: seq<Candidate>, promise: seq<Preview>)
    requires Kept(m, claims, t, r, batch, promise) && Agree(m, m', batch)
    requires forall c | c in batch && c.key in claims && claims[c.key] == t :: c.key in claims' && claims'[c.key] == t
    ensures Kept(m', claims', t, r, batch, promise)
  {
    forall i | 0 <= i < |batch|
      ensures PreviewOf(m, batch, i) == PreviewOf(m', batch, i)
    {
      PreviewAgrees(m, m', batch, i);
    }
    StagedAgrees(m, m', batch, |batch|);
    assert batch[..|batch|] == batch;
  }

  lemma AgreeItself(m: Memberships, batch: seq<Candidate>)
    ensures Agree(m, m, batch)
  {
  }

  /** The promises of all other reservations outlive the settling of one, confirmed or
      aborted. */
  lemma SettledKeepsPromises(m: Memberships, claims: Claims, holders: Holders, reservations: Reservations, windows: Slots,
                             next: Ticket, batches: map<Ticket, seq<Candidate>>, promises: map<Ticket, seq<Preview>>,
                             t: Ticket, committed: bool)
    requires ClaimsOwned(claims, m, reservations) && GuardsHeld(holders, reservations, windows, next)
    requires PromisesKept(m, claims, reservations, batches, promises) && t in reservations
    ensures PromisesKept(if committed then Visible(m, reservations[t].staged) else m, claims - Keys(reservations[t].staged),
                         reservations - {t}, batches, promises)
  {
    var staged := reservations[t].staged;
    var m' := if committed then Visible(m, staged) else m;
    StagedWindows(m, claims, reservations, batches, promises, t);
    forall u | u in reservations && u != t
      ensures Kept(m', claims - Keys(staged), u, reservations[u], batches[u], promises[u])
    {
      hide Kept, Agree, Visible, GuardsHeld;
      if committed {
        ConfirmAgrees(m, claims, holders, reservations, windows, next, t, u, batches[u], promises[u]);
      } else {
        AgreeItself(m, batches[u]);
      }
      KeptAgrees(m, m', claims, claims - Keys(staged), u, reservations[u], batches[u], promises[u]);
    }
  }

  lemma StagedWindows(m: Memberships, claims: Claims, reservations: Reservations, batches: map<Ticket, seq<Candidate>>,
                      promises: map<Ticket, seq<Preview>>, t: Ticket)
    requires PromisesKept(m, claims, reservations, batches, promises) && t in reservations
    ensures forall c | c in reservations[t].staged :: c.window in reservations[t].locked && c.key !in m
    ensures DistinctKeys(reservations[t].staged)
  {
    VisibleIsStaged(m, batches[t]);
    StagedDistinct(m, batches[t]);
  }

  lemma SettledClaims(m: Memberships, claims: Claims, reservations: Reservations, t: Ticket, committed: bool)
    requires ClaimsOwned(claims, m, reservations) && t in reservations
    ensures ClaimsOwned(claims - Keys(reservations[t].staged), if committed then Visible(m, reservations[t].staged) else m,
                        reservations - {t})
  {
    var staged := reservations[t].staged;
    VisibleIsStaged(m, staged);
    assert Keys(Staged(m, staged)) <= Keys(staged);
    forall u, c | u in reservations && u != t && c in reservations[u].staged
      ensures c.key !in Keys(staged)
    {
    }
    forall k | k in claims && k !in Keys(staged)
      ensures claims[k] != t
    {
    }
  }

  lemma SettledGuards(holders: Holders, reservations: Reservations, windows: Slots, windows': Slots, next: Ticket, t: Ticket)
    requires GuardsHeld(holders, reservations, windows, next) && t in reservations && windows.Keys == windows'.Keys
    ensures GuardsHeld(holders - Elements(reservations[t].locked), reservations - {t}, windows', next)
  {
    var holders' := holders - Elements(reservations[t].locked);
    forall w | w in reservations[t].locked
      ensures forall u | u in reservations && u != t :: w !in reservations[u].locked
    {
      assert w in holders && holders[w] == t;
    }
  }

  /** Abort undoes Prepare: for every accepted batch, dropping what was claimed restores the
      claims exactly. */
  lemma AbortUndoesPrepare(m: Memberships, claims: Claims, batch: seq<Candidate>, t: Ticket)
    requires Acceptable(m, claims, batch)
    ensures Claimed(claims, Staged(m, batch), t) - Keys(Staged(m, batch)) == claims
  {
    StagedIsUnclaimed(m, claims, batch);
  }

  /** `t` has taken the guards of `keys`, which were free, and nothing else changed. */
  ghost predicate TookOnly(before: Holders, after: Holders, t: Ticket, keys: seq<WindowKey>) {
    && (forall w :: w in after <==> w in before || w in keys)
    && (forall w | w in keys :: w !in before && w in after && after[w] == t)
    && (forall w | w in before :: after[w] == before[w] != t)
  }

  /** The windows are as before, but for empty ones that a batch asked for. */
  ghost predicate OnlyEmptyAdded(before: Slots, after: Slots, asked: set<WindowKey>) {
    && (forall w | w in before :: w in after && after[w] == before[w])
    && (forall w | w in after && w !in before :: w in asked && after[w] == EMPTY)
  }

  lemma GivenBack(before: Holders, after: Holders, t: Ticket, keys: seq<WindowKey>)
    requires TookOnly(before, after, t, keys)
    ensures after - Elements(keys) == before
    ensures forall w :: w in keys <==> w in after && after[w] == t
  {
    assert forall w :: w in after - Elements(keys) <==> w in before;
  }

  lemma Released(before: Holders, after: Holders, released: Holders, t: Ticket, keys: seq<WindowKey>)
    requires TookOnly(before, after, t, keys)
    requires forall w :: w in released <==> w in after && after[w] != t
    requires forall w | w in released :: released[w] == after[w]
    ensures released == before
  {
    assert forall w :: w in released <==> w in before;
  }

  // ----- preparing

  ghost predicate Projected(projected: Slots, windows: Slots, m: Memberships, v: Memberships) {
    forall w | w in windows :: Exact(if w in projected then projected[w] else windows[w], v, w)
  }

  lemma ProjectedStart(windows: Slots, m: Memberships)
    requires CountsExact(windows, m)
    ensures Projected(map[], windows, m, m)
  {
  }

  /** One more candidate keeps the projected counters exact. */
  lemma ProjectedStep(projected: Slots, windows: Slots, m: Memberships, v: Memberships, c: Candidate)
    requires Projected(projected, windows, m, v) && c.window in windows
    ensures var slot := if c.window in projected then projected[c.window] else windows[c.window];
            Projected(projected[c.window := if c.key in v then slot else Bump(slot, c.distinct)], windows, m, Added(v, c))
  {
    var slot := if c.window in projected then projected[c.window] else windows[c.window];
    var projected' := projected[c.window := if c.key in v then slot else Bump(slot, c.distinct)];
    forall w | w in windows
      ensures Exact(if w in projected' then projected'[w] else windows[w], Added(v, c), w)
    {
      hide Exact, Bump;
      if c.key !in v {
        if w == c.window {
          BumpStaysExact(slot, v, c);
        } else {
          OtherStaysExact(if w in projected then projected[w] else windows[w], v, c, w);
        }
      }
    }
  }

  lemma ProjectedAt(projected: Slots, windows: Slots, m: Memberships, v: Memberships, w: WindowKey)
    requires Projected(projected, windows, m, v) && w in windows && w in projected
    ensures Snapshot(projected[w].count, |projected[w].distinct|) == SnapshotOf(v, w)
  {
    ExactSnapshot(projected[w], v, w);
  }

  lemma SeenIsVisible(m: Memberships, batch: seq<Candidate>, i: nat, seen: set<ContributionKey>)
    requires i < |batch| && seen == Keys(batch[..i])
    ensures batch[i].key in Visible(m, batch[..i]) <==> batch[i].key in seen || batch[i].key in m
    ensures Keys(batch[..i + 1]) == seen + {batch[i].key}
  {
    VisibleKeeps(m, batch[..i]);
    VisibleIsStaged(m, batch[..i]);
    assert batch[..i + 1] == batch[..i] + [batch[i]];
    KeysSnoc(batch[..i], batch[i]);
  }

  lemma ClaimedSnoc(claims: Claims, staged: seq<Candidate>, c: Candidate, t: Ticket)
    ensures Claimed(claims, staged + [c], t) == Claimed(claims, staged, t)[c.key := t]
  {
    KeysSnoc(staged, c);
  }

  /** A newly prepared reservation keeps every invariant. */
  lemma Prepared(windows: Slots, m: Memberships, claims: Claims, holders: Holders, reservations: Reservations, next: Ticket,
                 batches: map<Ticket, seq<Candidate>>, promises: map<Ticket, seq<Preview>>,
                 t: Ticket, r: Reservation, batch: seq<Candidate>, promise: seq<Preview>)
    requires ClaimsOwned(claims, m, reservations) && GuardsHeld(holders, reservations, windows, next)
    requires PromisesKept(m, claims, reservations, batches, promises)
    requires t < next && t !in reservations && Acceptable(m, claims, batch)
    requires forall w :: w in r.locked <==> w in holders && holders[w] == t
    requires forall c | c in batch :: c.window in r.locked
    requires r.staged == Staged(m, batch) && |promise| == |batch|
    requires forall i | 0 <= i < |batch| :: promise[i] == PreviewOf(m, batch, i)
    ensures ClaimsOwned(Claimed(claims, r.staged, t), m, reservations[t := r])
    ensures GuardsHeld(holders, reservations[t := r], windows, next)
    ensures PromisesKept(m, Claimed(claims, r.staged, t), reservations[t := r], batches[t := batch], promises[t := promise])
  {
    hide ClaimsOwned, PromisesKept, Acceptable, Staged, PreviewOf, Claimed;
    PreparedClaims(m, claims, reservations, t, r, batch);
    PreparedPromises(m, claims, reservations, batches, promises, t, r, batch, promise);
  }

  lemma PreparedClaims(m: Memberships, claims: Claims, reservations: Reservations, t: Ticket, r: Reservation,
                       batch: seq<Candidate>)
    requires ClaimsOwned(claims, m, reservations) && t !in reservations && Acceptable(m, claims, batch)
    requires r.staged == Staged(m, batch)
    ensures ClaimsOwned(Claimed(claims, r.staged, t), m, reservations[t := r])
    ensures forall c | c in r.staged :: c.key !in claims
  {
    StagedIsUnclaimed(m, claims, batch);
    hide Visible, Staged, Acceptable;
    var reservations' := reservations[t := r];
    var claims' := Claimed(claims, r.staged, t);
    forall k | k in claims'
      ensures k !in m && claims'[k] in reservations' && k in Keys(reservations'[claims'[k]].staged)
    {
    }
  }

  lemma StagedIsUnclaimed(m: Memberships, claims: Claims, batch: seq<Candidate>)
    requires Acceptable(m, claims, batch)
    ensures forall c | c in Staged(m, batch) :: c.key !in claims && c.key !in m
  {
    VisibleIsStaged(m, batch);
    hide Visible, Staged;
    forall c | c in Staged(m, batch)
      ensures c.key !in claims && c.key !in m
    {
      assert c in batch;
    }
  }

  lemma PreparedPromises(m: Memberships, claims: Claims, reservations: Reservations, batches: map<Ticket, seq<Candidate>>,
                         promises: map<Ticket, seq<Preview>>, t: Ticket, r: Reservation, batch: seq<Candidate>,
                         promise: seq<Preview>)
    requires PromisesKept(m, claims, reservations, batches, promises) && t !in reservations
    requires ClaimsOwned(claims, m, reservations) && Acceptable(m, claims, batch)
    requires forall c | c in batch :: c.window in r.locked
    requires r.staged == Staged(m, batch) && |promise| == |batch|
    requires forall i | 0 <= i < |batch| :: promise[i] == PreviewOf(m, batch, i)
    ensures PromisesKept(m, Claimed(claims, r.staged, t), reservations[t := r], batches[t := batch], promises[t := promise])
  {
    var claims' := Claimed(claims, r.staged, t);
    StagedIsUnclaimed(m, claims, batch);
    NewlyKept(m, claims, t, r, batch, promise);
    hide Acceptable, ClaimsOwned, Staged, PreviewOf, Visible, Kept;
    forall u | u in reservations
      ensures Kept(m, claims', u, reservations[u], batches[u], promises[u])
    {
      AgreeItself(m, batches[u]);
      StillClaimed(claims, r.staged, t);
      KeptAgrees(m, m, claims, claims', u, reservations[u], batches[u], promises[u]);
    }
  }

  lemma NewlyKept(m: Memberships, claims: Claims, t: Ticket, r: Reservation, batch: seq<Candidate>, promise: seq<Preview>)
    requires forall c | c in batch :: c.window in r.locked
    requires r.staged == Staged(m, batch) && |promise| == |batch|
    requires forall i | 0 <= i < |batch| :: promise[i] == PreviewOf(m, batch, i)
    ensures Kept(m, Claimed(claims, r.staged, t), t, r, batch, promise)
  {
    VisibleIsStaged(m, batch);
    VisibleKeeps(m, batch);
  }

  lemma StillClaimed(claims: Claims, staged: seq<Candidate>, t: Ticket)
    requires forall c | c in staged :: c.key !in claims
    ensures forall k | k in claims :: k in Claimed(claims, staged, t) && Claimed(claims, staged, t)[k] == claims[k]
  {
  }

  lemma PreviewStart(windows: Slots, m: Memberships, batch: seq<Candidate>, claims: Claims, t: Ticket)
    requires CountsExact(windows, m)
    ensures Projected(map[], windows, m, Visible(m, batch[..0])) && Keys(batch[..0]) == {} && Staged(m, batch[..0]) == []
    ensures Claimed(claims, [], t) == claims
  {
    assert batch[..0] == [];
    ProjectedStart(windows, m);
  }

  lemma EmptyIsExact(m: Memberships, w: WindowKey)
    requires forall k | k in m :: m[k].window != w
    ensures Exact(EMPTY, m, w)
  {
    assert At(m, w) == {} && Values(m, w) == {};
  }

  /** Settling a reservation takes it off the register of deferred ones. */
  function Undeferred(pending: map<DeliveryId, Ticket>, t: Ticket): map<DeliveryId, Ticket> {
    map d | d in pending && pending[d] != t :: pending[d]
  }

  lemma StagedIsPromised(m: Memberships, claims: Claims, holders: Holders, reservations: Reservations, windows: Slots,
                         next: Ticket, batches: map<Ticket, seq<Candidate>>, promises: map<Ticket, seq<Preview>>, t: Ticket)
    requires PromisesKept(m, claims, reservations, batches, promises) && t in reservations
    requires ClaimsOwned(claims, m, reservations) && GuardsHeld(holders, reservations, windows, next)
    ensures t in batches && Visible(m, reservations[t].staged) == Visible(m, batches[t])
    ensures forall c | c in reservations[t].staged :: c.window in windows && c.key in claims && claims[c.key] == t
  {
    StagedIsEnough(m, batches[t]);
    StagedWindows(m, claims, reservations, batches, promises, t);
    LockedExist(holders, reservations, windows, next, t);
    hide GuardsHeld, Visible, Staged, PreviewOf;
  }

  lemma LockedExist(holders: Holders, reservations: Reservations, windows: Slots, next: Ticket, t: Ticket)
    requires GuardsHeld(holders, reservations, windows, next) && t in reservations
    ensures forall w | w in reservations[t].locked :: w in windows
  {
  }

  lemma StagedIsNew(m: Memberships, staged: seq<Candidate>, i: nat)
    requires i < |staged| && DistinctKeys(staged) && forall c | c in staged :: c.key !in m
    ensures staged[i].key !in Visible(m, staged[..i])
  {
    VisibleIsStaged(m, staged[..i]);
    assert staged[i] in staged;
  }

  lemma CountNone(m: Memberships, staged: seq<Candidate>)
    ensures Visible(m, staged[..0]) == m && Keys(staged[..0]) == {}
  {
    assert staged[..0] == [];
  }

  lemma CountOne(windows: Slots, m: Memberships, c: Candidate)
    requires CountsExact(windows, m) && c.window in windows && c.key !in m
    ensures CountsExact(windows[c.window := Bump(windows[c.window], c.distinct)], m[c.key := Record(c)])
  {
    var windows' := windows[c.window := Bump(windows[c.window], c.distinct)];
    forall w | w in windows'
      ensures Exact(windows'[w], m[c.key := Record(c)], w)
    {
      hide Exact, Bump;
      if w == c.window {
        BumpStaysExact(windows[w], m, c);
      } else {
        OtherStaysExact(windows[w], m, c, w);
      }
    }
  }

  lemma NothingClaimed(claims: Claims, m: Memberships, reservations: Reservations, t: Ticket)
    requires ClaimsOwned(claims, m, reservations) && t !in reservations
    ensures forall k | k in claims :: claims[k] != t
  {
  }

  lemma OrderedPrefix(keys: seq<WindowKey>, i: nat)
    requires Ordered(keys) && i <= |keys|
    ensures Ordered(keys[..i])
  {
  }

  /** Settling one reservation releases no guard of another caller. */
  lemma SettleApart(holders: Holders, reservations: Reservations, windows: Slots, next: Ticket, u: Ticket)
    requires GuardsHeld(holders, reservations, windows, next)
    ensures u in reservations ==> forall w | w in holders && holders[w] != u :: w !in Elements(reservations[u].locked)
  {
  }

  /** One step of another caller. */
  datatype OtherCall =
    | CallStart
    | CallTake(window: WindowKey)
    | CallRelease(window: WindowKey)
    | CallPrepare(delivery: DeliveryId, locked: seq<WindowKey>, batch: seq<Candidate>)
    | CallConfirm
    | CallAbort
    | CallDefer(delivery: DeliveryId)

  datatype Failure = Invalid | Cancelled | Conflict

  class Ledger {
    var windows: Slots
    var memberships: Memberships
    var claims: Claims
    var pending: map<DeliveryId, Ticket>
    /** The holder of each guard that is not available. */
    var holders: Holders
    /** The reservations that are neither confirmed nor aborted. */
    var reservations: Reservations
    var next: Ticket
    ghost var batches: map<Ticket, seq<Candidate>>
    ghost var promises: map<Ticket, seq<Preview>>

    ghost predicate Valid()
      reads this
    {
      && CountsExact(windows, memberships)
      && ClaimsOwned(claims, memberships, reservations)
      && GuardsHeld(holders, reservations, windows, next)
      && PromisesKept(memberships, claims, reservations, batches, promises)
    }

    /** What a caller without a reservation of its own sees of itself. */
    ghost function Guards(t: Ticket): set<WindowKey>
      reads this
    {
      set w | w in holders && holders[w] == t
    }

    constructor ()
      ensures Valid() && memberships == map[] && reservations == map[] && holders == map[]
    {
      windows, memberships, claims, pending, holders, reservations := map[], map[], map[], map[], map[], map[];
      next, batches, promises := 0, map[], map[];
    }

    method NewTicket() returns (t: Ticket)
      requires Valid()
      modifies this`next
      ensures Valid() && t == old(next) && next == t + 1 && t !in reservations && Guards(t) == {}
    {
      t := next;
      next := next + 1;
    }

    /** window and one attempt to receive from its guard channel. */
    method TakeGuard(t: Ticket, w: WindowKey) returns (taken: bool)
      requires Valid() && t < next && t !in reservations
      modifies this`windows, this`holders
      ensures Valid() && (taken <==> w !in old(holders))
      ensures holders == (if taken then old(holders)[w := t] else old(holders))
      ensures windows == (if w in old(windows) then old(windows) else old(windows)[w := EMPTY])
    {
      hide ClaimsOwned, PromisesKept, Exact;
      if w !in windows {
        EmptyIsExact(memberships, w);
        windows := windows[w := EMPTY];
      }
      taken := w !in holders;
      if taken {
        holders := holders[w := t];
      }
    }

    /** releaseSlot by a caller that has no reservation. */
    method ReleaseGuard(t: Ticket, w: WindowKey)
      requires Valid() && t !in reservations && w in holders && holders[w] == t
      modifies this`holders
      ensures Valid() && holders == old(holders) - {w}
    {
      hide ClaimsOwned, PromisesKept, CountsExact;
      holders := holders - {w};
    }

    /** releaseSlots, last taken first, by a caller that has no reservation. */
    method ReleaseSlots(t: Ticket, locked: seq<WindowKey>)
      requires Valid() && t !in reservations && Ordered(locked) && forall w :: w in locked <==> w in Guards(t)
      modifies this`holders
      ensures Valid() && Guards(t) == {}
      ensures forall w :: w in holders <==> w in old(holders) && old(holders)[w] != t
      ensures forall w | w in holders :: holders[w] == old(holders)[w]
    {
      hide ClaimsOwned, PromisesKept, CountsExact, GuardsHeld;
      var i := |locked|;
      assert locked[..i] == locked;
      assert forall w :: w in locked <==> w in holders && holders[w] == t;
      while 0 < i
        invariant Valid() && 0 <= i <= |locked|
        invariant forall w :: w in holders <==> w in old(holders) && (old(holders)[w] != t || w in locked[..i])
        invariant forall w | w in holders :: holders[w] == old(holders)[w]
      {
        i := i - 1;
        forall j | 0 <= j < i
          ensures locked[j] != locked[i]
        {
          KeyOrder(locked[j], locked[i], locked[i]);
        }
        assert locked[..i + 1] == locked[..i] + [locked[i]];
        assert locked[i] in locked[..i + 1];
        ReleaseGuard(t, locked[i]);
      }
    }

    /** prepareLocked, first pass: every check precedes every change. */
    method CheckBatch(t: Ticket, batch: seq<Candidate>) returns (ok: bool)
      requires Valid() && t !in reservations
      ensures ok <==> Acceptable(memberships, claims, batch)
    {
      hide CountsExact, GuardsHeld, PromisesKept;
      var seen: map<ContributionKey, Candidate> := map[];
      for i := 0 to |batch|
        invariant forall k :: k in seen <==> k in Keys(batch[..i])
        invariant forall k | k in seen :: seen[k] in batch[..i] && seen[k].key == k
        invariant forall c | c in batch[..i] :: Record(seen[c.key]) == Record(c)
        invariant forall c | c in batch[..i] ::
                    if c.key in memberships then memberships[c.key] == Record(c) else c.key !in claims
      {
        var c := batch[i];
        assert batch[..i + 1] == batch[..i] + [c];
        KeysSnoc(batch[..i], c);
        if c.key in seen {
          if Record(seen[c.key]) != Record(c) {
            assert seen[c.key] in batch && c in batch;
            return false;
          }
          continue;
        }
        seen := seen[c.key := c];
        if c.key in memberships {
          if memberships[c.key] != Record(c) {
            assert c in batch;
            return false;
          }
          continue;
        }
        if c.key in claims && claims[c.key] != t {
          assert c in batch;
          return false;
        }
      }
      assert batch[..|batch|] == batch;
      ok := true;
    }

    /** prepareLocked: claims what is new and previews every candidate. */
    method PrepareLocked(t: Ticket, delivery: DeliveryId, locked: seq<WindowKey>, batch: seq<Candidate>)
      returns (ok: bool, previews: seq<Preview>)
      requires Valid() && t < next && t !in reservations
      requires (forall w :: w in locked <==> w in Guards(t)) && forall c | c in batch :: c.window in locked
      modifies this`claims, this`reservations, this`batches, this`promises
      ensures Valid() && (ok <==> Acceptable(memberships, old(claims), batch))
      ensures ok ==>
                && |previews| == |batch| && (forall i | 0 <= i < |batch| :: previews[i] == PreviewOf(memberships, batch, i))
                && reservations == old(reservations)[t := Reservation(delivery, locked, Staged(memberships, batch))]
                && claims == Claimed(old(claims), Staged(memberships, batch), t)
                && batches == old(batches)[t := batch] && promises == old(promises)[t := previews]
      ensures !ok ==>
                && reservations == old(reservations) && claims == old(claims)
                && batches == old(batches) && promises == old(promises)
    {
      hide CountsExact, ClaimsOwned, PromisesKept, Acceptable, PreviewOf, Staged, Claimed;
      previews := [];
      ok := CheckBatch(t, batch);
      if !ok {
        return;
      }
      var staged;
      previews, staged := Preview(t, batch);
      var r := Reservation(delivery, locked, staged);
      Prepared(windows, memberships, old(claims), holders, reservations, next, batches, promises, t, r, batch, previews);
      reservations := reservations[t := r];
      batches, promises := batches[t := batch], promises[t := previews];
    }

    /** prepareLocked, second pass. */
    method Preview(t: Ticket, batch: seq<Candidate>) returns (previews: seq<Preview>, staged: seq<Candidate>)
      requires CountsExact(windows, memberships) && forall c | c in batch :: c.window in windows
      modifies this`claims
      ensures |previews| == |batch| && forall i | 0 <= i < |batch| :: previews[i] == PreviewOf(memberships, batch, i)
      ensures staged == Staged(memberships, batch) && claims == Claimed(old(claims), staged, t)
    {
      hide CountsExact, Exact, Visible, Staged, Projected, Bump, Keys, Claimed, Added, SnapshotOf;
      var projected: Slots := map[];
      var seen: set<ContributionKey> := {};
      previews, staged := [], [];
      PreviewStart(windows, memberships, batch, claims, t);
      for i := 0 to |batch|
        invariant seen == Keys(batch[..i]) && staged == Staged(memberships, batch[..i])
        invariant claims == Claimed(old(claims), staged, t)
        invariant Projected(projected, windows, memberships, Visible(memberships, batch[..i]))
        invariant |previews| == i && forall j | 0 <= j < i :: previews[j] == PreviewOf(memberships, batch, j)
      {
        var c := batch[i];
        assert c in batch;
        ghost var v := Visible(memberships, batch[..i]);
        VisibleSnoc(memberships, batch, i);
        SeenIsVisible(memberships, batch, i, seen);
        ProjectedStep(projected, windows, memberships, v, c);
        ClaimedSnoc(old(claims), staged, c, t);
        var state := if c.window in projected then projected[c.window] else windows[c.window];
        var willContribute := false;
        if c.key !in seen && c.key !in memberships {
          claims := claims[c.key := t];
          staged := staged + [c];
          state := Bump(state, c.distinct);
          willContribute := true;
        }
        seen := seen + {c.key};
        projected := projected[c.window := state];
        ProjectedAt(projected, windows, memberships, Added(v, c), c.window);
        previews := previews + [Window.Preview.Preview(c, Snapshot(state.count, |state.distinct|), willContribute)];
      }
      assert batch[..|batch|] == batch;
    }

    // ----- settling

    /** Confirm: every staged candidate becomes a membership and is counted; the claims and
        guards are released. A reservation that is already settled is left alone. */
    method Confirm(t: Ticket)
      requires Valid()
      modifies this`windows, this`memberships, this`claims, this`pending, this`holders, this`reservations
      ensures Valid() && reservations == old(reservations) - {t}
      ensures t in old(reservations) ==>
                && memberships == Visible(old(memberships), old(batches[t]))
                && claims == old(claims) - Keys(old(reservations[t].staged))
                && holders == old(holders) - Elements(old(reservations[t].locked))
      ensures t !in old(reservations) ==> memberships == old(memberships) && claims == old(claims) && holders == old(holders)
      ensures windows.Keys == old(windows).Keys
      ensures pending == if t in old(reservations) then Undeferred(old(pending), t) else old(pending)
    {
      hide ClaimsOwned, PromisesKept, GuardsHeld, CountsExact, Exact, Staged;
      if t !in reservations {
        return;
      }
      var r := reservations[t];
      StagedWindows(memberships, claims, reservations, batches, promises, t);
      SettledKeepsPromises(memberships, claims, holders, reservations, windows, next, batches, promises, t, true);
      SettledClaims(memberships, claims, reservations, t, true);
      StagedIsPromised(memberships, claims, holders, reservations, windows, next, batches, promises, t);
      CountStaged(r.staged);
      SettledGuards(holders, reservations, old(windows), windows, next, t);
      pending := Undeferred(pending, t);
      holders := holders - Elements(r.locked);
      reservations := reservations - {t};
    }

    /** The loop of Confirm. */
    method CountStaged(staged: seq<Candidate>)
      requires CountsExact(windows, memberships) && DistinctKeys(staged)
      requires forall c | c in staged :: c.key !in memberships && c.window in windows
      modifies this`windows, this`memberships, this`claims
      ensures CountsExact(windows, memberships) && windows.Keys == old(windows).Keys
      ensures memberships == Visible(old(memberships), staged) && claims == old(claims) - Keys(staged)
    {
      hide CountsExact, Exact, Staged, Visible, Keys, Bump, Record;
      CountNone(memberships, staged);
      assert staged[..0] == [];
      for i := 0 to |staged|
        invariant CountsExact(windows, memberships) && windows.Keys == old(windows).Keys
        invariant memberships == Visible(old(memberships), staged[..i])
        invariant claims == old(claims) - Keys(staged[..i])
      {
        var c := staged[i];
        assert c in staged;
        StagedIsNew(old(memberships), staged, i);
        VisibleSnoc(old(memberships), staged, i);
        assert staged[..i + 1] == staged[..i] + [c];
        KeysSnoc(staged[..i], c);
        CountOne(windows, memberships, c);
        windows := windows[c.window := Bump(windows[c.window], c.distinct)];
        memberships := memberships[c.key := Record(c)];
        claims := claims - {c.key};
      }
      assert staged[..|staged|] == staged;
    }

    /** Abort: the claims and guards are released and nothing else happens. */
    method Abort(t: Ticket)
      requires Valid()
      modifies this`claims, this`pending, this`holders, this`reservations
      ensures Valid() && reservations == old(reservations) - {t}
      ensures t in old(reservations) ==>
                && claims == old(claims) - Keys(old(reservations[t].staged))
                && holders == old(holders) - Elements(old(reservations[t].locked))
      ensures t !in old(reservations) ==> claims == old(claims) && holders == old(holders)
      ensures pending == if t in old(reservations) then Undeferred(old(pending), t) else old(pending)
    {
      hide ClaimsOwned, PromisesKept, GuardsHeld, CountsExact;
      if t !in reservations {
        return;
      }
      var r := reservations[t];
      SettledKeepsPromises(memberships, claims, holders, reservations, windows, next, batches, promises, t, false);
      SettledClaims(memberships, claims, reservations, t, false);
      SettledGuards(holders, reservations, windows, windows, next, t);
      StagedIsPromised(memberships, claims, holders, reservations, windows, next, batches, promises, t);
      Unclaim(t, r.staged);
      pending := Undeferred(pending, t);
      holders := holders - Elements(r.locked);
      reservations := reservations - {t};
    }

    /** The loop of Abort. */
    method Unclaim(t: Ticket, staged: seq<Candidate>)
      requires forall c | c in staged :: c.key in claims && claims[c.key] == t
      modifies this`claims
      ensures claims == old(claims) - Keys(staged)
    {
      assert staged[..0] == [];
      for i := 0 to |staged|
        invariant claims == old(claims) - Keys(staged[..i])
      {
        var c := staged[i];
        assert staged[..i + 1] == staged[..i] + [c];
        KeysSnoc(staged[..i], c);
        assert c in staged;
        if c.key in claims && claims[c.key] == t {
          claims := claims - {c.key};
        }
      }
      assert staged[..|staged|] == staged;
    }

    /** DeferResolution: registers an ambiguous reservation, never over another one. */
    method DeferResolution(t: Ticket, delivery: DeliveryId)
      requires Valid()
      modifies this`pending
      ensures Valid()
      ensures pending == if delivery in old(pending) && old(pending)[delivery] != t then old(pending) else old(pending)[delivery := t]
    {
      hide ClaimsOwned, PromisesKept, GuardsHeld, CountsExact;
      if delivery !in pending || pending[delivery] == t {
        pending := pending[delivery := t];
      }
    }

    /** ResolveDeferred. */
    method ResolveDeferred(delivery: DeliveryId, committed: bool) returns (owned: bool)
      requires Valid()
      modifies this`windows, this`memberships, this`claims, this`pending, this`holders, this`reservations
      ensures Valid() && (owned <==> delivery in old(pending))
      ensures owned ==> reservations == old(reservations) - {old(pending)[delivery]}
      ensures !owned ==> reservations == old(reservations)
      ensures memberships == if owned && committed && old(pending)[delivery] in old(reservations)
                             then Visible(old(memberships), old(batches[pending[delivery]])) else old(memberships)
    {
      hide ClaimsOwned, PromisesKept, GuardsHeld, CountsExact;
      owned := delivery in pending;
      if owned {
        if committed {
          Confirm(pending[delivery]);
        } else {
          Abort(pending[delivery]);
        }
      }
    }

    // ----- waiting for guards

    /** A caller keeps its guards, its reservation and what was promised to it. */
    twostate predicate Undisturbed(t: Ticket)
      reads this
    {
      && Guards(t) == old(Guards(t))
      && (t in reservations <==> t in old(reservations))
      && (t in reservations ==> reservations[t] == old(reservations)[t])
      && (t in old(batches) ==> t in batches && batches[t] == old(batches)[t])
      && (t in old(promises) ==> t in promises && promises[t] == old(promises)[t])
    }

    /** Whatever other callers do meanwhile: they use no ticket in `mine`. */
    method Others(mine: set<Ticket>)
      requires Valid() && forall t | t in mine :: t < next
      modifies this
      ensures Valid() && old(next) <= next && forall t | t in mine :: Undisturbed(t)
    {
      hide ClaimsOwned, PromisesKept, CountsExact, GuardsHeld, Exact, Guards;
      var n :| 0 <= n;
      while 0 < n
        invariant Valid() && old(next) <= next && forall t | t in mine :: Undisturbed(t)
      {
        n := n - 1;
        var u :| 0 <= u;
        if u !in mine {
          OtherStep(mine, u);
        }
      }
    }

    method OtherStep(mine: set<Ticket>, u: Ticket)
      requires Valid() && u !in mine && forall t | t in mine :: t < next
      modifies this
      ensures Valid() && old(next) <= next && forall t | t in mine :: Undisturbed(t)
    {
      hide ClaimsOwned, PromisesKept, CountsExact, Exact, Acceptable, PreviewOf, Visible, Staged, Claimed, Keys, GuardsHeld;
      var step: OtherCall := *;
      match step {
        case CallStart => var fresh' := NewTicket();
        case CallTake(w) =>
          if u < next && u !in reservations {
            var taken := TakeGuard(u, w);
          }
        case CallRelease(w) =>
          if u !in reservations && w in holders && holders[w] == u {
            ReleaseGuard(u, w);
          }
        case CallPrepare(delivery, locked, batch) =>
          if u < next && u !in reservations && (forall w | w in locked :: w in holders && holders[w] == u) &&
             (forall w | w in holders :: holders[w] == u ==> w in locked) && (forall c | c in batch :: c.window in locked) {
            var ok, previews := PrepareLocked(u, delivery, locked, batch);
          }
        case CallConfirm =>
          SettleApart(holders, reservations, windows, next, u);
          Confirm(u);
        case CallAbort =>
          SettleApart(holders, reservations, windows, next, u);
          Abort(u);
        case CallDefer(delivery) => DeferResolution(u, delivery);
      }
    }

    /** PrepareBatch: takes the guards of all its windows in order, then prepares. On every
        failure it holds nothing; on success its previews are exact for what is visible now.
        `mine` are tickets of the same caller, which nobody else uses. */
    method PrepareBatch(delivery: DeliveryId, batch: seq<Candidate>, mine: set<Ticket>)
      returns (t: Ticket, r: Result<seq<Preview>, Failure>)
      requires Valid() && forall u | u in mine :: u < next
      modifies this
      ensures Valid() && old(next) <= t < next && forall u | u in mine :: Undisturbed(u)
      ensures r.Ok? <==> t in reservations
      ensures r.Ok? ==>
                && (forall c | c in batch :: ValidCandidate(delivery, c))
                && |r.value| == |batch| && (forall i | 0 <= i < |batch| :: r.value[i] == PreviewOf(memberships, batch, i))
                && batches[t] == batch && promises[t] == r.value
                && reservations[t].delivery == delivery && reservations[t].staged == Staged(memberships, batch)
                && Ordered(reservations[t].locked) && Elements(reservations[t].locked) == Windows(batch)
      ensures r.Err? ==> Guards(t) == {} && forall k | k in claims :: claims[k] != t
      ensures r == Err(Invalid) <==> exists c :: c in batch && !ValidCandidate(delivery, c)
    {
      hide ClaimsOwned, PromisesKept, CountsExact, Exact, Ordered, Acceptable, GuardsHeld, PreviewOf, Staged;
      t := NewTicket();
      for i := 0 to |batch|
        invariant forall c | c in batch[..i] :: ValidCandidate(delivery, c)
      {
        if !ValidCandidate(delivery, batch[i]) {
          assert batch[i] in batch;
          NothingClaimed(claims, memberships, reservations, t);
          return t, Err(Invalid);
        }
        assert batch[..i + 1] == batch[..i] + [batch[i]];
      }
      assert batch[..|batch|] == batch;
      var keys := UniqueSortedWindowKeys(batch);
      var ok := TakeGuards(t, keys, mine);
      if !ok {
        NothingClaimed(claims, memberships, reservations, t);
        return t, Err(Cancelled);
      }
      var previews;
      ok, previews := PrepareLocked(t, delivery, keys, batch);
      if !ok {
        ReleaseSlots(t, keys);
        NothingClaimed(claims, memberships, reservations, t);
        return t, Err(Conflict);
      }
      assert Elements(keys) == Windows(batch);
      r := Ok(previews);
    }

    /** The acquisition loop of PrepareBatch: it either gets every guard or, cancelled,
        gives all of them back. */
    method TakeGuards(t: Ticket, keys: seq<WindowKey>, mine: set<Ticket>) returns (ok: bool)
      requires Valid() && t < next && t !in reservations && Guards(t) == {} && Ordered(keys)
      requires t !in mine && forall u | u in mine :: u < next
      modifies this
      ensures forall u | u in mine :: Undisturbed(u)
      ensures Valid() && t < next && old(next) <= next && t !in reservations
      ensures ok ==> forall w :: w in keys <==> w in Guards(t)
      ensures !ok ==> Guards(t) == {}
    {
      hide ClaimsOwned, PromisesKept, CountsExact, Exact, Ordered, GuardsHeld;
      var i := 0;
      while i < |keys|
        invariant 0 <= i <= |keys| && Valid() && t < next && old(next) <= next && t !in reservations
        invariant forall u | u in mine :: Undisturbed(u)
        invariant forall w :: w in keys[..i] <==> w in Guards(t)
      {
        var taken := WaitForGuard(t, keys[i], mine);
        assert keys[..i + 1] == keys[..i] + [keys[i]];
        if !taken {
          OrderedPrefix(keys, i);
          ReleaseSlots(t, keys[..i]);
          return false;
        }
        i := i + 1;
      }
      assert keys[..i] == keys;
      var cancelled: bool := *;
      if cancelled {
        ReleaseSlots(t, keys);
        return false;
      }
      ok := true;
    }

    /** Takes guards in order as long as they are free. */
    method TakeFree(t: Ticket, keys: seq<WindowKey>) returns (n: nat)
      requires Valid() && t < next && t !in reservations && Guards(t) == {} && Ordered(keys)
      modifies this`windows, this`holders
      ensures Valid() && n <= |keys| && TookOnly(old(holders), holders, t, keys[..n])
      ensures n < |keys| ==> keys[n] in old(holders)
      ensures OnlyEmptyAdded(old(windows), windows, Elements(keys))
    {
      hide ClaimsOwned, PromisesKept, CountsExact, GuardsHeld;
      n := 0;
      assert forall w | w in holders :: holders[w] != t by {
        assert forall w | w in holders && holders[w] == t :: w in Guards(t);
      }
      while n < |keys|
        invariant n <= |keys| && Valid() && TookOnly(old(holders), holders, t, keys[..n])
        invariant OnlyEmptyAdded(old(windows), windows, Elements(keys))
      {
        assert keys[..n + 1] == keys[..n] + [keys[n]] && keys[n] in Elements(keys);
        var taken := TakeGuard(t, keys[n]);
        if !taken {
          forall j | 0 <= j < n
            ensures keys[j] != keys[n]
          {
            KeyOrder(keys[j], keys[n], keys[n]);
          }
          return;
        }
        n := n + 1;
      }
    }

    /** Preparing a batch and aborting it, or failing to prepare it, leaves claims, guards,
        reservations, memberships and counters as they were; at most empty windows are new. */
    method PrepareThenAbort(delivery: DeliveryId, batch: seq<Candidate>) returns (prepared: bool)
      requires Valid()
      modifies this
      ensures Valid() && memberships == old(memberships)
      ensures claims == old(claims) && holders == old(holders) && reservations == old(reservations)
      ensures OnlyEmptyAdded(old(windows), windows, Windows(batch))
      ensures prepared ==> Acceptable(old(memberships), old(claims), batch)
      ensures Acceptable(old(memberships), old(claims), batch) && (forall w | w in Windows(batch) :: w !in old(holders)) ==> prepared
    {
      hide ClaimsOwned, PromisesKept, CountsExact, GuardsHeld, Exact, Ordered, Acceptable, PreviewOf, Staged, Claimed, Keys,
           TookOnly, OnlyEmptyAdded;
      var t := NewTicket();
      var keys := UniqueSortedWindowKeys(batch);
      assert Elements(keys) == Windows(batch);
      ghost var free := holders;
      var n := TakeFree(t, keys);
      GivenBack(free, holders, t, keys[..n]);
      if n < |keys| {
        OrderedPrefix(keys, n);
        assert keys[n] in Elements(keys);
        ghost var taken := holders;
        ReleaseSlots(t, keys[..n]);
        Released(free, taken, holders, t, keys[..n]);
        return false;
      }
      assert keys[..n] == keys;
      ghost var taken := holders;
      var previews;
      prepared, previews := PrepareLocked(t, delivery, keys, batch);
      if prepared {
        AbortUndoesPrepare(memberships, old(claims), batch, t);
        Abort(t);
        assert reservations == old(reservations);
      } else {
        ReleaseSlots(t, keys);
        Released(free, taken, holders, t, keys);
      }
    }

    /** Blocks on one guard for as long as it takes, or until the caller is cancelled. */
    method WaitForGuard(t: Ticket, w: WindowKey, mine: set<Ticket>) returns (taken: bool)
      requires Valid() && t < next && t !in reservations && t !in mine && forall u | u in mine :: u < next
      modifies this
      ensures forall u | u in mine :: Undisturbed(u)
      ensures Valid() && t < next && old(next) <= next && t !in reservations
      ensures Guards(t) == old(Guards(t)) + if taken then {w} else {}
    {
      hide ClaimsOwned, PromisesKept, CountsExact, Exact, GuardsHeld;
      var patience :| 0 <= patience;
      taken := false;
      while 0 < patience && !taken
        invariant Valid() && t < next && old(next) <= next && t !in reservations
        invariant forall u | u in mine :: Undisturbed(u)
        invariant Guards(t) == old(Guards(t)) + if taken then {w} else {}
        decreases patience
      {
        patience := patience - 1;
        Others(mine + {t});
        ghost var held := Guards(t);
        taken := TakeGuard(t, w);
        assert Guards(t) == held + if taken then {w} else {};
      }
    }

    /** Snapshot: reads a window's counters under its guard, so only what is committed and
        not under reservation by anyone. */
    method CommittedSnapshot(w: WindowKey, mine: set<Ticket>) returns (r: Option<Snapshot>)
      requires Valid() && forall u | u in mine :: u < next
      modifies this
      ensures Valid() && forall u | u in mine :: Undisturbed(u)
      ensures r.Some? ==>
                && r.value == SnapshotOf(memberships, w) && w !in holders
                && forall u | u in reservations :: w !in reservations[u].locked
    {
      hide ClaimsOwned, PromisesKept, Exact, SnapshotOf;
      var t := NewTicket();
      var taken := WaitForGuard(t, w, mine);
      if !taken {
        return None;
      }
      assert w in Guards(t);
      ExactSnapshot(windows[w], memberships, w);
      r := Some(Snapshot(windows[w].count, |windows[w].distinct|));
      ReleaseGuard(t, w);
    }
  }
}
