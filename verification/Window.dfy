/** The in-memory membership ledger of detection windows (internal/detection/window.go):
    reservations hold window guards and claims until they are confirmed or aborted. */
module Window {
  import opened Basics

  /** Identities of deliveries and events are opaque canonical values. */
  type DeliveryId = nat
  type EventId = nat

  datatype ContributionKey = ContributionKey(event: EventId, rule: string, version: string)

  datatype WindowKey = WindowKey(rule: string, version: string, group: string)

  datatype Candidate = Candidate(
    delivery: DeliveryId, key: ContributionKey, window: WindowKey, distinct: string, observedAt: Time)

  datatype Snapshot = Snapshot(count: nat, distinctCount: nat)

  datatype Preview = Preview(candidate: Candidate, snapshot: Snapshot, willContribute: bool)

  datatype Member = Member(window: WindowKey, distinct: string, observedAt: Time)

  type Memberships = map<ContributionKey, Member>

  /** windowSlot without its guard. */
  datatype Slot = Slot(count: nat, distinct: map<string, nat>)

  /** A reservation is named by the ticket of the call that made it. */
  type Ticket = nat

  datatype Reservation = Reservation(delivery: DeliveryId, locked: seq<WindowKey>, staged: seq<Candidate>)

  const EMPTY: Slot := Slot(0, map[])

  function Record(c: Candidate): Member {
    Member(c.window, c.distinct, c.observedAt)
  }

  /** validateCandidate. */
  predicate ValidCandidate(delivery: DeliveryId, c: Candidate) {
    && c.delivery == delivery
    && c.window.rule != "" && c.window.version != "" && c.window.group != ""
    && c.key.rule == c.window.rule && c.key.version == c.window.version
    && c.distinct != "" && 0 < c.observedAt
  }

  // ----- what the memberships mean

  ghost function At(m: Memberships, w: WindowKey): set<ContributionKey> {
    set k | k in m && m[k].window == w
  }

  ghost function AtValue(m: Memberships, w: WindowKey, d: string): set<ContributionKey> {
    set k | k in m && m[k].window == w && m[k].distinct == d
  }

  ghost function Values(m: Memberships, w: WindowKey): set<string> {
    set k | k in m && m[k].window == w :: m[k].distinct
  }

  /** A window's counts, recomputed from the memberships. */
  ghost function SnapshotOf(m: Memberships, w: WindowKey): Snapshot {
    Snapshot(|At(m, w)|, |Values(m, w)|)
  }

  /** A slot's counters are those of the memberships. */
  ghost predicate Exact(slot: Slot, m: Memberships, w: WindowKey) {
    && slot.count == |At(m, w)|
    && slot.distinct.Keys == Values(m, w)
    && forall d | d in slot.distinct :: slot.distinct[d] == |AtValue(m, w, d)|
  }

  function Counted(distinct: map<string, nat>, d: string): map<string, nat> {
    distinct[d := (if d in distinct then distinct[d] else 0) + 1]
  }

  function Bump(slot: Slot, d: string): Slot {
    Slot(slot.count + 1, Counted(slot.distinct, d))
  }

  lemma BumpStaysExact(slot: Slot, m: Memberships, c: Candidate)
    requires Exact(slot, m, c.window) && c.key !in m
    ensures Exact(Bump(slot, c.distinct), m[c.key := Record(c)], c.window)
  {
    var m' := m[c.key := Record(c)];
    var slot' := Bump(slot, c.distinct);
    OneMoreAt(m, c);
    OneMoreValue(m, c);
    hide At, AtValue, Values;
    assert slot'.distinct.Keys == slot.distinct.Keys + {c.distinct};
    forall d | d in slot'.distinct
      ensures slot'.distinct[d] == |AtValue(m', c.window, d)|
    {
      OneMoreAtValue(m, c, d);
    }
  }

  lemma OneMoreAt(m: Memberships, c: Candidate)
    requires c.key !in m
    ensures |At(m[c.key := Record(c)], c.window)| == |At(m, c.window)| + 1
  {
    assert At(m[c.key := Record(c)], c.window) == At(m, c.window) + {c.key};
  }

  lemma OneMoreAtValue(m: Memberships, c: Candidate, d: string)
    requires c.key !in m
    ensures |AtValue(m[c.key := Record(c)], c.window, d)| == |AtValue(m, c.window, d)| + (if d == c.distinct then 1 else 0)
  {
    if d == c.distinct {
      assert AtValue(m[c.key := Record(c)], c.window, d) == AtValue(m, c.window, d) + {c.key};
    } else {
      assert AtValue(m[c.key := Record(c)], c.window, d) == AtValue(m, c.window, d);
    }
  }

  lemma OneMoreValue(m: Memberships, c: Candidate)
    requires c.key !in m
    ensures Values(m[c.key := Record(c)], c.window) == Values(m, c.window) + {c.distinct}
    ensures c.distinct !in Values(m, c.window) ==> AtValue(m, c.window, c.distinct) == {}
  {
    var m' := m[c.key := Record(c)];
    assert m'[c.key].distinct == c.distinct && m'[c.key].window == c.window;
    forall v
      ensures v in Values(m', c.window) <==> v in Values(m, c.window) || v == c.distinct
    {
      if v in Values(m, c.window) {
        var k :| k in m && m[k].window == c.window && m[k].distinct == v;
        assert k in m' && m'[k] == m[k];
      }
    }
  }

  lemma OtherStaysExact(slot: Slot, m: Memberships, c: Candidate, w: WindowKey)
    requires Exact(slot, m, w) && c.key !in m && w != c.window
    ensures Exact(slot, m[c.key := Record(c)], w)
  {
    SameAt(m, m[c.key := Record(c)], w);
  }

  /** Two membership maps that agree on a window. */
  ghost predicate AgreeAt(m: Memberships, m': Memberships, w: WindowKey) {
    forall k :: ((k in m && m[k].window == w) || (k in m' && m'[k].window == w)) ==> k in m && k in m' && m[k] == m'[k]
  }

  lemma SameAt(m: Memberships, m': Memberships, w: WindowKey)
    requires AgreeAt(m, m', w)
    ensures At(m, w) == At(m', w) && Values(m, w) == Values(m', w) && SnapshotOf(m, w) == SnapshotOf(m', w)
    ensures forall d :: AtValue(m, w, d) == AtValue(m', w, d)
    ensures forall slot :: Exact(slot, m, w) <==> Exact(slot, m', w)
  {
    assert At(m, w) == At(m', w);
    forall v
      ensures v in Values(m, w) <==> v in Values(m', w)
    {
      if v in Values(m, w) {
        var k :| k in m && m[k].window == w && m[k].distinct == v;
        assert k in m' && m'[k].distinct == v;
      }
      if v in Values(m', w) {
        var k :| k in m' && m'[k].window == w && m'[k].distinct == v;
        assert k in m && m[k].distinct == v;
      }
    }
    assert Values(m, w) == Values(m', w);
    forall d
      ensures AtValue(m, w, d) == AtValue(m', w, d)
    {
    }
  }

  lemma ExactSnapshot(slot: Slot, m: Memberships, w: WindowKey)
    requires Exact(slot, m, w)
    ensures Snapshot(slot.count, |slot.distinct|) == SnapshotOf(m, w)
  {
    assert |slot.distinct| == |slot.distinct.Keys|;
  }

  // ----- what confirming a batch would make visible

  /** The memberships after committing the batch: the first candidate of each new key. */
  function Visible(m: Memberships, batch: seq<Candidate>): Memberships {
    if batch == [] then m else Added(Visible(m, batch[..|batch| - 1]), batch[|batch| - 1])
  }

  function Added(m: Memberships, c: Candidate): Memberships {
    if c.key in m then m else m[c.key := Record(c)]
  }

  function Staged(m: Memberships, batch: seq<Candidate>): seq<Candidate> {
    if batch == [] then []
    else
      var rest := batch[..|batch| - 1];
      var c := batch[|batch| - 1];
      Staged(m, rest) + (if c.key in Visible(m, rest) then [] else [c])
  }

  /** The preview of the i-th candidate: the counts after committing the candidates up to
      it, and whether it is new. */
  ghost function PreviewOf(m: Memberships, batch: seq<Candidate>, i: nat): Preview
    requires i < |batch|
  {
    Preview(batch[i], SnapshotOf(Visible(m, batch[..i + 1]), batch[i].window), batch[i].key !in Visible(m, batch[..i]))
  }

  function Keys(batch: seq<Candidate>): set<ContributionKey> {
    set c | c in batch :: c.key
  }

  function Windows(batch: seq<Candidate>): set<WindowKey> {
    set c | c in batch :: c.window
  }

  ghost predicate DistinctKeys(batch: seq<Candidate>) {
    forall i, j | 0 <= i < j < |batch| :: batch[i].key != batch[j].key
  }

  lemma VisibleSnoc(m: Memberships, batch: seq<Candidate>, i: nat)
    requires i < |batch|
    ensures Visible(m, batch[..i + 1]) == Added(Visible(m, batch[..i]), batch[i])
    ensures Staged(m, batch[..i + 1]) ==
            Staged(m, batch[..i]) + (if batch[i].key in Visible(m, batch[..i]) then [] else [batch[i]])
  {
    assert batch[..i + 1][..i] == batch[..i];
  }

  lemma {:induction false} VisibleKeeps(m: Memberships, batch: seq<Candidate>)
    ensures forall k | k in m :: k in Visible(m, batch) && Visible(m, batch)[k] == m[k]
    ensures forall k | k in Visible(m, batch) && k !in m :: Visible(m, batch)[k].window in Windows(batch)
    ensures forall c | c in batch :: c.key in Visible(m, batch)
  {
    if batch != [] {
      var n := |batch| - 1;
      VisibleKeeps(m, batch[..n]);
      assert batch == batch[..n] + [batch[n]];
      assert batch[n] in batch;
    }
  }

  /** What becomes visible is what was there and the staged candidates, each new. */
  lemma {:induction false} VisibleIsStaged(m: Memberships, batch: seq<Candidate>)
    ensures forall k :: k in Visible(m, batch) <==> k in m || k in Keys(Staged(m, batch))
    ensures forall c | c in Staged(m, batch) :: c in batch && c.key !in m
    ensures forall c | c in Staged(m, batch) :: c.key in Visible(m, batch) && Visible(m, batch)[c.key] == Record(c)
  {
    if batch != [] {
      var n := |batch| - 1;
      VisibleIsStaged(m, batch[..n]);
      assert batch == batch[..n] + [batch[n]];
      KeysSnoc(Staged(m, batch[..n]), batch[n]);
      VisibleKeeps(m, batch[..n]);
      hide Keys;
    }
  }

  lemma KeysSnoc(batch: seq<Candidate>, c: Candidate)
    ensures Keys(batch + [c]) == Keys(batch) + {c.key}
  {
    assert c in batch + [c];
  }

  lemma {:induction false} StagedDistinct(m: Memberships, batch: seq<Candidate>)
    ensures DistinctKeys(Staged(m, batch))
  {
    if batch != [] {
      var n := |batch| - 1;
      StagedDistinct(m, batch[..n]);
      VisibleIsStaged(m, batch[..n]);
      var rest := Staged(m, batch[..n]);
      forall i | 0 <= i < |rest|
        ensures rest[i].key in Visible(m, batch[..n])
      {
        assert rest[i] in rest;
      }
    }
  }

  /** Confirming what a batch stages makes visible what the batch previewed. */
  lemma {:induction false} StagedIsEnough(m: Memberships, batch: seq<Candidate>)
    ensures Visible(m, Staged(m, batch)) == Visible(m, batch)
  {
    if batch != [] {
      var n := |batch| - 1;
      StagedIsEnough(m, batch[..n]);
      var rest, more := Staged(m, batch[..n]), Staged(m, batch);
      if batch[n].key !in Visible(m, batch[..n]) {
        assert more == rest + [batch[n]] && more[..|more| - 1] == rest;
        assert Visible(m, more) == Added(Visible(m, rest), batch[n]);
      } else {
        assert more == rest;
      }
    }
  }

  /** Memberships that agree on a batch's keys and windows preview it alike. */
  ghost predicate Agree(m: Memberships, m': Memberships, batch: seq<Candidate>) {
    && (forall c | c in batch :: (c.key in m <==> c.key in m') && (c.key in m ==> m[c.key] == m'[c.key]))
    && (forall c | c in batch :: AgreeAt(m, m', c.window))
  }

  lemma {:induction false} VisibleAgrees(m: Memberships, m': Memberships, batch: seq<Candidate>, n: nat)
    requires Agree(m, m', batch) && n <= |batch|
    ensures Agree(Visible(m, batch[..n]), Visible(m', batch[..n]), batch)
  {
    hide Agree, Added, Staged;
    if 0 < n {
      VisibleAgrees(m, m', batch, n - 1);
      VisibleSnoc(m, batch, n - 1);
      VisibleSnoc(m', batch, n - 1);
      AddedAgrees(Visible(m, batch[..n - 1]), Visible(m', batch[..n - 1]), batch, batch[n - 1]);
    } else {
      assert batch[..n] == [];
    }
  }

  lemma AddedAgrees(m: Memberships, m': Memberships, batch: seq<Candidate>, c: Candidate)
    requires Agree(m, m', batch) && c in batch
    ensures Agree(Added(m, c), Added(m', c), batch)
  {
  }

  lemma PreviewAgrees(m: Memberships, m': Memberships, batch: seq<Candidate>, i: nat)
    requires Agree(m, m', batch) && i < |batch|
    ensures PreviewOf(m, batch, i) == PreviewOf(m', batch, i)
  {
    VisibleAgrees(m, m', batch, i);
    VisibleAgrees(m, m', batch, i + 1);
    assert batch[i] in batch;
    SameAt(Visible(m, batch[..i + 1]), Visible(m', batch[..i + 1]), batch[i].window);
  }

  lemma {:induction false} StagedAgrees(m: Memberships, m': Memberships, batch: seq<Candidate>, n: nat)
    requires Agree(m, m', batch) && n <= |batch|
    ensures Staged(m, batch[..n]) == Staged(m', batch[..n])
  {
    if 0 < n {
      StagedAgrees(m, m', batch, n - 1);
      VisibleAgrees(m, m', batch, n - 1);
      VisibleSnoc(m, batch, n - 1);
      VisibleSnoc(m', batch, n - 1);
      assert batch[n - 1] in batch;
    } else {
      assert batch[..n] == [];
    }
  }

  // ----- the order in which guards are taken

  /** Byte order of UTF-8 text is code point order. */
  predicate TextBefore(a: string, b: string) {
    b != [] && (a == [] || a[0] < b[0] || (a[0] == b[0] && TextBefore(a[1..], b[1..])))
  }

  predicate KeyBefore(a: WindowKey, b: WindowKey) {
    if a.rule != b.rule then TextBefore(a.rule, b.rule)
    else if a.version != b.version then TextBefore(a.version, b.version)
    else TextBefore(a.group, b.group)
  }

  lemma {:induction false} TextOrder(a: string, b: string)
    ensures a == b || TextBefore(a, b) || TextBefore(b, a)
    ensures !(TextBefore(a, b) && TextBefore(b, a)) && !TextBefore(a, a)
  {
    if a != [] {
      TextOrder(a[1..], if b != [] then b[1..] else []);
      if b != [] && a[0] == b[0] && a[1..] == b[1..] {
        assert a == [a[0]] + a[1..] && b == [b[0]] + b[1..];
      }
    }
  }

  lemma {:induction false} TextTransitive(a: string, b: string, c: string)
    requires TextBefore(a, b) && TextBefore(b, c)
    ensures TextBefore(a, c)
  {
    if a != [] && a[0] == b[0] && b[0] == c[0] {
      TextTransitive(a[1..], b[1..], c[1..]);
    }
  }

  /** Window keys are strictly and totally ordered. */
  lemma KeyOrder(a: WindowKey, b: WindowKey, c: WindowKey)
    ensures a == b || KeyBefore(a, b) || KeyBefore(b, a)
    ensures !KeyBefore(a, a) && !(KeyBefore(a, b) && KeyBefore(b, a))
    ensures KeyBefore(a, b) && KeyBefore(b, c) ==> KeyBefore(a, c)
  {
    TextOrder(a.rule, b.rule);
    TextOrder(a.version, b.version);
    TextOrder(a.group, b.group);
    TextOrder(b.rule, c.rule);
    TextOrder(b.version, c.version);
    if KeyBefore(a, b) && KeyBefore(b, c) {
      if a.rule != b.rule && b.rule != c.rule {
        TextTransitive(a.rule, b.rule, c.rule);
        TextOrder(a.rule, c.rule);
      } else if a.rule == b.rule == c.rule && a.version != b.version && b.version != c.version {
        TextTransitive(a.version, b.version, c.version);
        TextOrder(a.version, c.version);
      } else if a.rule == b.rule == c.rule && a.version == b.version == c.version {
        TextTransitive(a.group, b.group, c.group);
      }
    }
  }

  predicate Ordered(keys: seq<WindowKey>) {
    forall i, j | 0 <= i < j < |keys| :: KeyBefore(keys[i], keys[j])
  }

  /** A key's place among ordered keys. */
  function Inserted(keys: seq<WindowKey>, k: WindowKey): seq<WindowKey> {
    if keys == [] || KeyBefore(k, keys[0]) then [k] + keys
    else if k == keys[0] then keys
    else [keys[0]] + Inserted(keys[1..], k)
  }

  lemma {:induction false} InsertedOrdered(keys: seq<WindowKey>, k: WindowKey)
    requires Ordered(keys)
    ensures Ordered(Inserted(keys, k)) && forall q :: q in Inserted(keys, k) <==> q in keys || q == k
  {
    if keys != [] {
      KeyOrder(k, keys[0], k);
      if KeyBefore(k, keys[0]) {
        forall j | 0 < j < |keys|
          ensures KeyBefore(k, keys[j])
        {
          KeyOrder(k, keys[0], keys[j]);
        }
      } else if k != keys[0] {
        var rest := keys[1..];
        InsertedOrdered(rest, k);
        var r := Inserted(rest, k);
        forall j | 0 <= j < |r|
          ensures KeyBefore(keys[0], r[j])
        {
          assert r[j] in r;
          if r[j] != k {
            assert r[j] in rest;
          }
        }
        assert forall q :: q in keys <==> q == keys[0] || q in rest;
      }
    }
  }

  /** uniqueSortedWindowKeys: every window of the batch once, in order. */
  method UniqueSortedWindowKeys(batch: seq<Candidate>) returns (keys: seq<WindowKey>)
    ensures Ordered(keys) && forall w :: w in keys <==> w in Windows(batch)
  {
    keys := [];
    for i := 0 to |batch|
      invariant Ordered(keys) && forall w :: w in keys <==> w in Windows(batch[..i])
    {
      InsertedOrdered(keys, batch[i].window);
      keys := Inserted(keys, batch[i].window);
      assert batch[..i + 1] == batch[..i] + [batch[i]];
      assert batch[i] in batch[..i + 1];
    }
    assert batch[..|batch|] == batch;
  }
}
