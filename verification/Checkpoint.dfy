/** Contiguous completion and checkpoint retry of one source
    (internal/source/checkpoint.go) over its durable store. */
module Checkpoint {
  import opened Basics
  import opened FileRanges
  import opened Coverage

  datatype Completion = Completion(sequence: nat, position: Position)

  datatype Candidate = Candidate(through: nat, position: Position, ranges: seq<FilePosition>)

  type Received = map<nat, Position>

  /** `n` is the first sequence from `first` on that has not been received. */
  ghost predicate FirstGap(received: Received, first: nat, n: nat) {
    first <= n && n !in received && forall q | first <= q < n :: q in received
  }

  /** The order in which completions arrive does not matter: the first gap is one number. */
  lemma FirstGapUnique(received: Received, first: nat, n: nat, m: nat)
    requires FirstGap(received, first, n) && FirstGap(received, first, m)
    ensures n == m
  {
  }

  /** The positions of sequences `lo` up to, not including, `hi`. */
  ghost function Slice(received: Received, lo: nat, hi: nat): seq<Position>
    requires lo <= hi && forall q | lo <= q < hi :: q in received
    decreases hi
  {
    if lo == hi then [] else Slice(received, lo, hi - 1) + [received[hi - 1]]
  }

  lemma {:induction false} SliceSame(a: Received, b: Received, lo: nat, hi: nat)
    requires lo <= hi && forall q | lo <= q < hi :: q in a && q in b && a[q] == b[q]
    ensures Slice(a, lo, hi) == Slice(b, lo, hi)
    decreases hi
  {
    if lo < hi {
      SliceSame(a, b, lo, hi - 1);
    }
  }

  lemma {:induction false} SliceConcat(received: Received, lo: nat, mid: nat, hi: nat)
    requires lo <= mid <= hi && forall q | lo <= q < hi :: q in received
    ensures Slice(received, lo, hi) == Slice(received, lo, mid) + Slice(received, mid, hi)
    decreases hi
  {
    if mid < hi {
      SliceConcat(received, lo, mid, hi - 1);
    }
  }

  lemma {:induction false} FilesConcat(a: seq<Position>, b: seq<Position>)
    ensures Files(a + b) == Files(a) + Files(b)
  {
    if b == [] {
      assert a + b == a;
    } else {
      var n := |b| - 1;
      FilesConcat(a, b[..n]);
      assert (a + b)[..|a + b| - 1] == a + b[..n];
    }
  }

  /** The file pieces of sequences `lo` up to, not including, `hi`. */
  ghost function Pieces(received: Received, lo: nat, hi: nat): seq<FilePosition>
    requires lo <= hi && forall q | lo <= q < hi :: q in received
  {
    Files(Slice(received, lo, hi))
  }

  lemma PiecesConcat(received: Received, lo: nat, mid: nat, hi: nat)
    requires lo <= mid <= hi && forall q | lo <= q < hi :: q in received
    ensures Pieces(received, lo, hi) == Pieces(received, lo, mid) + Pieces(received, mid, hi)
  {
    SliceConcat(received, lo, mid, hi);
    FilesConcat(Slice(received, lo, mid), Slice(received, mid, hi));
  }

  lemma {:induction false} PiecesAre(received: Received, lo: nat, hi: nat)
    requires lo <= hi && forall q | lo <= q < hi :: q in received
    ensures forall f | f in Pieces(received, lo, hi) :: exists q :: lo <= q < hi && received[q] == FileAt(f)
    decreases hi
  {
    if lo < hi {
      PiecesAre(received, lo, hi - 1);
      assert Slice(received, lo, hi)[..|Slice(received, lo, hi)| - 1] == Slice(received, lo, hi - 1);
      forall f | f in Pieces(received, lo, hi)
        ensures exists q :: lo <= q < hi && received[q] == FileAt(f)
      {
        if f !in Pieces(received, lo, hi - 1) {
          assert received[hi - 1] == FileAt(f);
        }
      }
    }
  }

  lemma OneMorePiece(received: Received, lo: nat, hi: nat)
    requires lo <= hi && forall q | lo <= q <= hi :: q in received
    ensures Pieces(received, lo, hi + 1) ==
            Pieces(received, lo, hi) + (if received[hi].FileAt? then [received[hi].file] else [])
  {
    var s := Slice(received, lo, hi + 1);
    assert s[..|s| - 1] == Slice(received, lo, hi);
  }

  lemma NoPieces(received: Received, lo: nat)
    ensures Merge([], Pieces(received, lo, lo)) == Some([])
  {
  }

  /** Merging the next completion's range into the merge so far. */
  lemma MergeOneMore(received: Received, lo: nat, hi: nat, ranges: seq<FilePosition>)
    requires lo <= hi && (forall q | lo <= q <= hi :: q in received) && Merge([], Pieces(received, lo, hi)) == Some(ranges)
    ensures Merge([], Pieces(received, lo, hi + 1)) ==
            (if received[hi].FileAt? then Merge(ranges, [received[hi].file]) else Some(ranges))
  {
    OneMorePiece(received, lo, hi);
    if received[hi].FileAt? {
      MergeConcat([], Pieces(received, lo, hi), [received[hi].file]);
    } else {
      assert Pieces(received, lo, hi) + [] == Pieces(received, lo, hi);
    }
  }

  /** The released pieces of `lo` up to `hi` are what the candidate carries. */
  ghost predicate Carries(c: Candidate, received: Received, lo: nat, hi: nat)
    requires lo < hi && forall q | lo <= q < hi :: q in received
  {
    c.through == hi - 1 && c.position == received[hi - 1] && Merge([], Pieces(received, lo, hi)) == Some(c.ranges)
  }

  lemma CarriesThrough(c: Candidate, received: Received, lo: nat, hi: nat)
    requires lo < hi && (forall q | lo <= q < hi :: q in received) && Carries(c, received, lo, hi)
    ensures c.through == hi - 1
  {
  }

  lemma CarriesSame(c: Candidate, received: Received, received': Received, lo: nat, hi: nat)
    requires lo < hi && (forall q | lo <= q < hi :: q in received) && Carries(c, received, lo, hi)
    requires forall q | q in received :: q in received' && received'[q] == received[q]
    ensures (forall q | lo <= q < hi :: q in received') && Carries(c, received', lo, hi)
  {
    SliceSame(received, received', lo, hi);
  }

  /** Some completions in a row from `lo` do not merge: their ranges leave a gap or change file. */
  ghost predicate Broken(received: Received, lo: nat) {
    exists hi: nat :: lo <= hi && (forall q | lo <= q < hi :: q in received) && Merge([], Pieces(received, lo, hi)).None?
  }

  // ----- CompletionTracker

  /** Everything before `next` has been received and released; what came later waits. */
  ghost predicate Tracked(first: nat, next: nat, completed: Received, exhausted: bool, received: Received) {
    && 1 <= first <= next <= MAX_UINT64
    && (forall q | q in received :: first <= q <= MAX_UINT64)
    && (forall q | first <= q < next :: q in received)
    && (exhausted ==> next == MAX_UINT64 && next in received && completed == map[])
    && (!exhausted ==> forall q :: q in completed <==> q in received && next <= q)
    && (!exhausted ==> forall q | q in completed :: completed[q] == received[q])
  }

  lemma TrackedBefore(first: nat, next: nat, completed: Received, exhausted: bool, received: Received)
    requires Tracked(first, next, completed, exhausted, received)
    ensures 1 <= first <= next && forall q | first <= q < (if exhausted then next + 1 else next) :: q in received
  {
  }

  class CompletionTracker {
    var next: nat
    var completed: Received
    var exhausted: bool
    const first: nat
    /** Every completion accepted so far. */
    ghost var received: Received

    ghost predicate Valid()
      reads this
    {
      Tracked(first, next, completed, exhausted, received)
    }

    /** The tracker has released all it can: it stands at the first gap. */
    ghost predicate AtGap()
      reads this
    {
      exhausted || FirstGap(received, first, next)
    }

    /** One past the last sequence before the first gap. */
    ghost function Edge(): nat
      reads this
    {
      if exhausted then next + 1 else next
    }

    constructor (start: nat)
      requires 1 <= start <= MAX_UINT64
      ensures Valid() && AtGap() && received == map[] && first == start && Edge() == start
    {
      first, next, completed, exhausted, received := start, start, map[], false, map[];
    }

    /** Mark: accepts one completion and releases everything up to the first gap. */
    method Mark(c: Completion) returns (r: Result<Option<Candidate>, string>)
      requires Valid() && AtGap()
      modifies this
      ensures Valid() && old(Edge()) <= Edge()
      ensures r.Ok? ==> AtGap()
      ensures r.Ok? && r.value.None? ==> Edge() == old(Edge())
      ensures r.Ok? && r.value.Some? ==>
                && old(Edge()) < Edge() && (forall q | first <= q < Edge() :: q in received)
                && Carries(r.value.value, received, old(Edge()), Edge())
      ensures r.Err? ==> Edge() == old(Edge())
      ensures r.Err? ==>
                || c.sequence == 0 || MAX_UINT64 < c.sequence || !ValidPosition(c.position) || old(exhausted)
                || (old(next) <= c.sequence && c.sequence in old(received) && old(received)[c.sequence] != c.position)
                || Broken(received, old(next))
      ensures received == old(received) ||
              (c.sequence !in old(received) && ValidPosition(c.position) && received == old(received)[c.sequence := c.position])
      ensures r.Ok? && old(Edge()) <= c.sequence <= MAX_UINT64 ==> c.sequence in received && received[c.sequence] == c.position
    {
      hide Carries, Pieces, Merge, Broken;
      if c.sequence == 0 || MAX_UINT64 < c.sequence || !ValidPosition(c.position) {
        return Err("invalid durable completion");
      }
      if exhausted {
        return Err("delivery sequence space is exhausted");
      }
      if c.sequence < next {
        return Ok(None);
      }
      if c.sequence in completed {
        if completed[c.sequence] != c.position {
          return Err("conflicting positions");
        }
        return Ok(None);
      }
      r := Accept(c);
    }

    /** Mark, once the completion is known to be new. */
    method Accept(c: Completion) returns (r: Result<Option<Candidate>, string>)
      requires Valid() && AtGap() && !exhausted && next <= c.sequence <= MAX_UINT64 && c.sequence !in completed
      modifies this
      ensures Valid() && old(Edge()) <= Edge() && received == old(received)[c.sequence := c.position]
      ensures r.Ok? ==> AtGap()
      ensures r.Ok? && r.value.None? ==> Edge() == old(Edge())
      ensures r.Ok? && r.value.Some? ==>
                && old(Edge()) < Edge() && (forall q | first <= q < Edge() :: q in received)
                && Carries(r.value.value, received, old(Edge()), Edge())
      ensures r.Err? ==> Edge() == old(Edge()) && Broken(received, old(next))
    {
      hide Carries, Pieces, Merge, Broken;
      completed := completed[c.sequence := c.position];
      received := received[c.sequence := c.position];
      r := Collect();
      if r.Ok? && r.value.Some? {
        Release(r.value.value.through);
      }
    }

    /** The first loop of Mark: walks to the first gap, merging as it goes. */
    method Collect() returns (r: Result<Option<Candidate>, string>)
      requires Valid() && !exhausted
      ensures r.Err? ==> Broken(received, next)
      ensures r.Ok? && r.value.None? ==> next !in completed
      ensures r.Ok? && r.value.Some? ==>
                var through := r.value.value.through;
                && next <= through <= MAX_UINT64 && (forall q | next <= q <= through :: q in completed)
                && (through < MAX_UINT64 ==> through + 1 !in completed)
                && (forall q | first <= q <= through :: q in received)
                && Carries(r.value.value, received, next, through + 1)
    {
      hide Pieces, Merge;
      var n, ranges, last: Position, done := next, [], JournalAt(""), false;
      NoPieces(received, next);
      while n in completed && !done
        invariant next <= n <= MAX_UINT64 + 1 && (n == MAX_UINT64 + 1 ==> done) && (done ==> n == MAX_UINT64 + 1)
        invariant forall q | next <= q < n :: q in completed
        invariant next < n ==> last == completed[n - 1]
        invariant Merge([], Pieces(received, next, n)) == Some(ranges)
        decreases MAX_UINT64 + 1 - n
      {
        last := completed[n];
        MergeOneMore(received, next, n, ranges);
        if last.FileAt? {
          var merged := MergeFileRanges(ranges, [last.file]);
          if merged.None? {
            assert forall q | next <= q < n + 1 :: q in received;
            return Err("completion range is not contiguous");
          }
          ranges := merged.value;
        }
        done := n == MAX_UINT64;
        n := n + 1;
      }
      r := Ok(if n == next then None else Some(Candidate(n - 1, last, ranges)));
    }

    /** The second loop of Mark. */
    method Release(through: nat)
      requires Valid() && !exhausted && next <= through <= MAX_UINT64 && forall q | next <= q <= through :: q in completed
      modifies this`next, this`completed, this`exhausted
      ensures Valid() && Edge() == through + 1 && (exhausted <==> through == MAX_UINT64)
    {
      ghost var start := next;
      var more := true;
      while more
        invariant first <= start <= next <= MAX_UINT64 && (more ==> next <= through && !exhausted)
        invariant forall q :: q in completed <==> q in received && next <= q && !exhausted
        invariant forall q | q in completed :: completed[q] == received[q]
        invariant forall q | start <= q <= through :: q in received
        invariant exhausted ==> next == MAX_UINT64 == through && next in received
        invariant !more && !exhausted ==> next == through + 1
        decreases MAX_UINT64 - next, more
      {
        completed := completed - {next};
        if next == MAX_UINT64 {
          exhausted, more := true, false;
        } else {
          next := next + 1;
          more := next <= through;
        }
      }
    }
  }

  /** Two trackers that received the same completions stand at the same place, in whatever
      order these arrived. */
  lemma ArrivalOrderIsIrrelevant(a: CompletionTracker, b: CompletionTracker)
    requires a.Valid() && a.AtGap() && b.Valid() && b.AtGap() && a.first == b.first && a.received == b.received
    ensures a.next == b.next && a.exhausted == b.exhausted && a.completed == b.completed
  {
    if !a.exhausted && !b.exhausted {
      FirstGapUnique(a.received, a.first, a.next, b.next);
    }
  }

  // ----- CheckpointManager

  /** What was received is durably processed. */
  ghost predicate AllDurable(received: Received, completions: set<FilePosition>) {
    forall q | q in received && received[q].FileAt? :: received[q].file in completions && ValidPosition(received[q])
  }

  /** The batches saved so far are, in order, all pieces before `base`, and all of them lie
      below the durable ends. */
  ghost predicate Flushed(flushed: seq<seq<FilePosition>>, received: Received, first: nat, base: nat, rows: Registry) {
    && first <= base && (forall q | first <= q < base :: q in received)
    && Concat(flushed) == Pieces(received, first, base)
    && (forall b | b in flushed :: Merge([], b).Some? && forall r | r in Merge([], b).value :: Reaches(rows, r))
  }

  lemma FlushedGrows(flushed: seq<seq<FilePosition>>, received: Received, received': Received, first: nat, base: nat,
                     rows: Registry, rows': Registry)
    requires Flushed(flushed, received, first, base, rows) && Onward(rows, rows')
    requires forall q | q in received :: q in received' && received'[q] == received[q]
    ensures Flushed(flushed, received', first, base, rows')
  {
    SliceSame(received, received', first, base);
  }

  lemma FlushedOneMore(flushed: seq<seq<FilePosition>>, received: Received, first: nat, base: nat, hi: nat, rows: Registry,
                       ranges: seq<FilePosition>)
    requires Flushed(flushed, received, first, base, rows) && base <= hi && forall q | base <= q < hi :: q in received
    requires Merge([], Pieces(received, base, hi)) == Some(ranges) && forall r | r in ranges :: Reaches(rows, r)
    ensures Flushed(flushed + [Pieces(received, base, hi)], received, first, hi, rows)
  {
    PiecesConcat(received, first, base, hi);
    var more := flushed + [Pieces(received, base, hi)];
    assert more[..|more| - 1] == flushed;
  }

  /** Extending a pending candidate by a new one is merging all their pieces at once. */
  lemma PendingExtended(p: Candidate, c: Candidate, received: Received, base: nat, mid: nat, hi: nat)
    requires base < mid < hi && forall q | base <= q < hi :: q in received
    requires Carries(p, received, base, mid) && Carries(c, received, mid, hi)
    ensures Merge(p.ranges, c.ranges) == Merge([], Pieces(received, base, hi))
  {
    PiecesConcat(received, base, mid, hi);
    MergeConcat([], Pieces(received, base, mid), Pieces(received, mid, hi));
    MergeKeepsOne([], Pieces(received, base, mid));
    MergeOfMerged(p.ranges, Pieces(received, mid, hi));
  }

  /** Every byte that a candidate carries belongs to a durable completion. */
  lemma CarriedIsCompleted(c: Candidate, received: Received, lo: nat, hi: nat, completions: set<FilePosition>)
    requires lo < hi && (forall q | lo <= q < hi :: q in received) && Carries(c, received, lo, hi)
    requires AllDurable(received, completions)
    ensures RangesCompleted(c.ranges, completions)
  {
    var pieces := Pieces(received, lo, hi);
    PiecesAre(received, lo, hi);
    forall f | f in pieces
      ensures f.start <= f.end && f in completions
    {
      var q :| lo <= q < hi && received[q] == FileAt(f);
    }
    forall r, b: nat | r in c.ranges && r.start <= b < r.end
      ensures Completed(completions, r.generation, b)
    {
      assert Holds(c.ranges, r.generation, b);
      MergeHoldsSame(pieces, r.generation, b);
      var f :| f in pieces && f.generation == r.generation && f.start <= b < f.end;
    }
  }

  lemma RangesStayCompleted(ranges: seq<FilePosition>, completions: set<FilePosition>, more: set<FilePosition>)
    requires RangesCompleted(ranges, completions) && completions <= more
    ensures RangesCompleted(ranges, more)
  {
    forall r, b: nat | r in ranges && r.start <= b < r.end
      ensures Completed(more, r.generation, b)
    {
      assert Completed(completions, r.generation, b);
    }
  }

  class CheckpointManager {
    const tracker: CompletionTracker
    const store: SourceStore
    const session: SessionId
    var pending: Option<Candidate>
    var invalid: bool
    /** The first sequence that a pending candidate carries. */
    ghost var base: nat
    /** The pieces of every save that cleared a pending candidate. */
    ghost var flushed: seq<seq<FilePosition>>

    ghost predicate Valid()
      reads this, tracker, store
    {
      && tracker.Valid() && store.Valid() && AllDurable(tracker.received, store.completions)
      && (!invalid ==>
            && tracker.AtGap() && base <= tracker.Edge()
            && Flushed(flushed, tracker.received, tracker.first, base, store.rows)
            && (pending.None? ==> base == tracker.Edge())
            && (pending.Some? ==> base < tracker.Edge() && Carried(pending.value)))
    }

    ghost predicate Carried(c: Candidate)
      reads this, tracker
    {
      && base < tracker.Edge() && (forall q | base <= q < tracker.Edge() :: q in tracker.received)
      && Carries(c, tracker.received, base, tracker.Edge())
    }

    /** A new session starts at sequence 1. */
    constructor (s: SourceStore, id: SessionId)
      requires s.Valid()
      ensures Valid() && store == s && session == id && fresh(tracker) && pending.None? && !invalid && flushed == []
      ensures tracker.received == map[]
    {
      var t := new CompletionTracker(1);
      tracker, store, session, pending, invalid, base, flushed := t, s, id, None, false, 1, [];
    }

    /** Complete, under its mutex. The completion is durable. */
    method CompleteLocked(c: Completion) returns (ok: bool)
      requires Valid() && (c.position.FileAt? ==> c.position.file in store.completions)
      modifies this`pending, this`invalid, tracker
      ensures Valid() && base == old(base) && flushed == old(flushed) && (old(invalid) ==> invalid)
      ensures old(tracker.Edge()) <= tracker.Edge()
      ensures forall q | q in old(tracker.received) :: q in tracker.received && tracker.received[q] == old(tracker.received)[q]
      ensures !invalid && pending.Some? && tracker.Edge() == old(tracker.Edge()) ==> pending == old(pending)
      ensures ok ==> !invalid
    {
      hide Flushed, Carries, Pieces, Merge, Tracked, FirstGap;
      if invalid {
        return false;
      }
      ghost var before, edge := tracker.received, tracker.Edge();
      var r := tracker.Mark(c);
      if r.Err? {
        invalid := true;
        return false;
      }
      TrackedBefore(tracker.first, tracker.next, tracker.completed, tracker.exhausted, tracker.received);
      OnwardItself(store.rows);
      FlushedGrows(flushed, before, tracker.received, tracker.first, base, store.rows, store.rows);
      if pending.Some? {
        CarriesSame(pending.value, before, tracker.received, base, edge);
      }
      if r.value.Some? {
        var joined := Joined(pending, r.value.value, tracker.received, base, edge, tracker.Edge());
        if joined.None? {
          invalid := true;
          return false;
        }
        pending := joined;
      }
      ok := true;
    }

    /** A new candidate takes over what is still pending. */
    method Joined(p: Option<Candidate>, c: Candidate, ghost received: Received, ghost lo: nat, ghost mid: nat, ghost hi: nat)
      returns (r: Option<Candidate>)
      requires lo <= mid < hi && (forall q | lo <= q < hi :: q in received) && Carries(c, received, mid, hi)
      requires if p.Some? then lo < mid && Carries(p.value, received, lo, mid) else lo == mid
      ensures r.Some? ==> Carries(r.value, received, lo, hi)
    {
      if p.None? {
        return Some(c);
      }
      PendingExtended(p.value, c, received, lo, mid, hi);
      var merged := MergeFileRanges(p.value.ranges, c.ranges);
      if merged.None? {
        return None;
      }
      r := Some(c.(ranges := merged.value));
    }

    /** What other goroutines do while no lock is held: completions arrive, generations are
        registered, initialised and sealed, and another worker may take the source over and
        save its own progress. */
    method Interleave()
      requires Valid()
      modifies this`pending, this`invalid, tracker, store
      ensures Valid() && base == old(base) && flushed == old(flushed)
      ensures Onward(old(store.rows), store.rows) && old(store.completions) <= store.completions
      ensures old(tracker.Edge()) <= tracker.Edge()
      ensures !invalid && pending.Some? && tracker.Edge() == old(tracker.Edge()) ==> !old(invalid) && pending == old(pending)
    {
      hide Flushed, Carries, Tracked, FirstGap, AllDurable, Onward, Covered, WithinEOF;
      OnwardItself(store.rows);
      var n :| 0 <= n;
      while 0 < n
        invariant Valid() && base == old(base) && flushed == old(flushed)
        invariant Onward(old(store.rows), store.rows) && old(store.completions) <= store.completions
        invariant old(tracker.Edge()) <= tracker.Edge()
        invariant !invalid && pending.Some? && tracker.Edge() == old(tracker.Edge()) ==> !old(invalid) && pending == old(pending)
      {
        n := n - 1;
        var step: SourceStep := *;
        if step.Completes? {
          ghost var completions := store.completions;
          store.RecordCompletion(step.completion.position);
          DurableGrows(tracker.received, completions, store.completions);
          var ok := CompleteLocked(step.completion);
        } else {
          ghost var rows := store.rows;
          OtherStoreStep(step);
          OnwardThrough(old(store.rows), rows, store.rows);
        }
      }
    }

    method OtherStoreStep(step: SourceStep)
      requires Valid() && !step.Completes?
      modifies store
      ensures Valid() && Onward(old(store.rows), store.rows) && store.completions == old(store.completions)
    {
      hide Carries, Tracked, FirstGap, AllDurable, Covered, WithinEOF, Flushed;
      ghost var rows := store.rows;
      OnwardItself(rows);
      match step {
        case Completes(_) =>
        case Begins(id) => var began := store.BeginSession(store.active, id);
        case Registers(g, device, inode) => store.Register(g, device, inode);
        case Initializes(id, g) => var initialized := store.Initialize(id, g);
        case Seals(id, g, lifecycle, eof) => var sealed := store.Seal(id, g, lifecycle, eof);
        case Saves(id, sequence, position, ranges) =>
          if RangesCompleted(ranges, store.completions) {
            var saved := store.SaveCheckpoint(id, sequence, position, ranges);
          }
      }
      if !invalid {
        FlushedGrows(flushed, tracker.received, tracker.received, tracker.first, base, rows, store.rows);
      }
    }

    /** Flush: saves the pending candidate and forgets it unless it has grown meanwhile. */
    method Flush() returns (ok: bool)
      requires Valid()
      modifies this, tracker, store
      ensures Valid() && Onward(old(store.rows), store.rows) && old(store.completions) <= store.completions
      ensures flushed == old(flushed) || |flushed| == |old(flushed)| + 1
      ensures ok && !old(invalid) && old(pending).Some? ==> forall r | r in old(pending).value.ranges :: Reaches(store.rows, r)
    {
      hide Flushed, Carries, Tracked, FirstGap, AllDurable, Onward, Covered, WithinEOF, RangesCompleted, Reaches;
      OnwardItself(store.rows);
      if invalid {
        return false;
      }
      if pending.None? {
        return true;
      }
      var snapshot := pending.value;
      CarriedIsCompleted(snapshot, tracker.received, base, tracker.Edge(), store.completions);
      CarriesThrough(snapshot, tracker.received, base, tracker.Edge());
      ghost var edge, start, completions := tracker.Edge(), store.rows, store.completions;
      Interleave();
      ghost var before := store.rows;
      RangesStayCompleted(snapshot.ranges, completions, store.completions);
      var saved := Save(snapshot);
      OnwardThrough(start, before, store.rows);
      if !saved {
        return false;
      }
      ghost var between := store.rows;
      Interleave();
      OnwardThrough(start, between, store.rows);
      StillReached(between, store.rows, snapshot.ranges);
      if !invalid && pending.Some? {
        CarriesThrough(pending.value, tracker.received, base, tracker.Edge());
      }
      if pending.Some? && pending.value.through == snapshot.through {
        if invalid {
          pending := None;
        } else {
          Clear(snapshot);
        }
      }
      ok := true;
    }

    method Save(c: Candidate) returns (saved: bool)
      requires Valid() && RangesCompleted(c.ranges, store.completions)
      modifies store`rows, store`checkpoint
      ensures Valid() && Onward(old(store.rows), store.rows)
      ensures saved ==> forall r | r in c.ranges :: Reaches(store.rows, r)
    {
      hide Flushed, Carries, Tracked, FirstGap, AllDurable, Onward, Covered, WithinEOF, RangesCompleted;
      ghost var before := store.rows;
      saved := store.SaveCheckpoint(session, c.through, c.position, c.ranges);
      if !invalid {
        FlushedGrows(flushed, tracker.received, tracker.received, tracker.first, base, before, store.rows);
      }
    }

    /** The saved candidate is still the pending one. */
    method Clear(snapshot: Candidate)
      requires Valid() && !invalid && pending == Some(snapshot) && forall r | r in snapshot.ranges :: Reaches(store.rows, r)
      modifies this`pending, this`base, this`flushed
      ensures Valid() && |flushed| == |old(flushed)| + 1
    {
      FlushedOneMore(flushed, tracker.received, tracker.first, base, tracker.Edge(), store.rows, snapshot.ranges);
      flushed := flushed + [Pieces(tracker.received, base, tracker.Edge())];
      base := tracker.Edge();
      pending := None;
    }

    /** Complete: marks and flushes. */
    method Complete(c: Completion) returns (ok: bool)
      requires Valid() && (c.position.FileAt? ==> c.position.file in store.completions)
      modifies this, tracker, store
      ensures Valid() && Onward(old(store.rows), store.rows) && old(store.completions) <= store.completions
    {
      hide Flushed, Carries, Tracked, FirstGap, AllDurable, Onward, Covered, WithinEOF;
      OnwardItself(store.rows);
      ok := CompleteLocked(c);
      if ok {
        ok := Flush();
      }
    }

    /** Pending and saved ranges together are one merge of every released piece. */
    lemma SavedAndPendingAreAll()
      requires Valid() && !invalid
      ensures forall q | tracker.first <= q < tracker.Edge() :: q in tracker.received
      ensures Merge([], Pieces(tracker.received, tracker.first, tracker.Edge())) ==
              (match MergeBatches(flushed)
               case None => None
               case Some(m) => if pending.None? then Some(m) else Merge(m, pending.value.ranges))
    {
      TrackedBefore(tracker.first, tracker.next, tracker.completed, tracker.exhausted, tracker.received);
      AnySplit(flushed);
      if pending.Some? {
        PiecesConcat(tracker.received, tracker.first, base, tracker.Edge());
        MergeConcat([], Concat(flushed), Pieces(tracker.received, base, tracker.Edge()));
        if MergeBatches(flushed).Some? {
          MergeKeepsOne([], Concat(flushed));
          MergeOfMerged(MergeBatches(flushed).value, Pieces(tracker.received, base, tracker.Edge()));
        }
      }
    }

    /** The checkpoint a save carries is the last sequence before the first gap. */
    lemma PendingIsBeforeGap()
      requires Valid() && !invalid && pending.Some?
      ensures tracker.exhausted ==> pending.value.through == MAX_UINT64
      ensures !tracker.exhausted ==> FirstGap(tracker.received, tracker.first, pending.value.through + 1)
    {
    }
  }

  /** What else may happen to a source. */
  datatype SourceStep =
    | Completes(completion: Completion)
    | Begins(id: SessionId)
    | Registers(generation: string, device: nat, inode: nat)
    | Initializes(id: SessionId, generation: string)
    | Seals(id: SessionId, generation: string, lifecycle: Lifecycle, eof: nat)
    /** A save of another manager, which carries durably completed ranges only
        (CarriedIsCompleted). */
    | Saves(id: SessionId, sequence: nat, position: Position, ranges: seq<FilePosition>)

  lemma DurableGrows(received: Received, completions: set<FilePosition>, more: set<FilePosition>)
    requires AllDurable(received, completions) && completions <= more
    ensures AllDurable(received, more)
  {
  }

  lemma StillReached(rows: Registry, rows': Registry, ranges: seq<FilePosition>)
    requires (forall r | r in ranges :: Reaches(rows, r)) && Onward(rows, rows')
    ensures forall r | r in ranges :: Reaches(rows', r)
  {
  }

  /** Any number of sessions, each with any completions, flushes, failed and uncertain
      saves: coverage holds throughout and never shrinks. */
  method RunSource(store: SourceStore)
    requires store.Valid()
    modifies store
    ensures store.Valid() && Onward(old(store.rows), store.rows) && old(store.completions) <= store.completions
  {
    hide Covered, WithinEOF, Onward, Flushed, Carries, Tracked, FirstGap, AllDurable;
    OnwardItself(store.rows);
    var sessions :| 0 <= sessions;
    while 0 < sessions
      invariant store.Valid() && Onward(old(store.rows), store.rows) && old(store.completions) <= store.completions
    {
      sessions := sessions - 1;
      var id :| 0 <= id;
      var began := store.BeginSession(store.active, id);
      if began {
        ghost var before := store.rows;
        var manager := new CheckpointManager(store, id);
        RunSession(manager);
        OnwardThrough(old(store.rows), before, store.rows);
      }
    }
  }

  method RunSession(manager: CheckpointManager)
    requires manager.Valid()
    modifies manager, manager.tracker, manager.store
    ensures manager.Valid() && Onward(old(manager.store.rows), manager.store.rows)
    ensures old(manager.store.completions) <= manager.store.completions
  {
    hide Covered, WithinEOF, Onward, Flushed, Carries, Tracked, FirstGap, AllDurable;
    OnwardItself(manager.store.rows);
    var n :| 0 <= n;
    while 0 < n
      invariant manager.Valid() && Onward(old(manager.store.rows), manager.store.rows)
      invariant old(manager.store.completions) <= manager.store.completions
    {
      n := n - 1;
      ghost var before := manager.store.rows;
      var flush: bool := *;
      if flush {
        var ok := manager.Flush();
      } else {
        var c: Completion := *;
        ghost var completions := manager.store.completions;
        manager.store.RecordCompletion(c.position);
        DurableGrows(manager.tracker.received, completions, manager.store.completions);
        var ok := manager.Complete(c);
      }
      OnwardThrough(old(manager.store.rows), before, manager.store.rows);
    }
  }
}
