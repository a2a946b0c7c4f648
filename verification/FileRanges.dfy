/** Positions of a source and the merging of released file ranges
    (internal/source/checkpoint.go, mergeFileRanges). */
module FileRanges {
  import opened Basics

  datatype FilePosition = FilePosition(generation: string, device: nat, inode: nat, start: nat, end: nat)

  datatype Position = FileAt(file: FilePosition) | JournalAt(cursor: string)

  /** SourcePosition.Valid, on canonical generations and cursors. */
  predicate ValidPosition(p: Position) {
    p.FileAt? ==> p.file.start <= p.file.end
  }

  /** The file positions among a run of positions. */
  function Files(positions: seq<Position>): seq<FilePosition> {
    if positions == [] then []
    else
      var n := |positions| - 1;
      Files(positions[..n]) + (if positions[n].FileAt? then [positions[n].file] else [])
  }

  // ----- merging, one piece after the other

  /** The last range of a generation. */
  function Find(ranges: seq<FilePosition>, g: string): (i: Option<nat>)
    ensures i.Some? ==> i.value < |ranges| && ranges[i.value].generation == g
    ensures i.Some? ==> forall j | i.value < j < |ranges| :: ranges[j].generation != g
    ensures i.None? ==> forall j | 0 <= j < |ranges| :: ranges[j].generation != g
  {
    if ranges == [] then None
    else if ranges[|ranges| - 1].generation == g then Some(|ranges| - 1)
    else Find(ranges[..|ranges| - 1], g)
  }

  /** `next` continues `last` byte for byte in the same file. */
  predicate Continues(last: FilePosition, next: FilePosition) {
    last.device == next.device && last.inode == next.inode && last.end == next.start
  }

  function Absorb(ranges: seq<FilePosition>, f: FilePosition): Option<seq<FilePosition>> {
    match Find(ranges, f.generation)
    case None => Some(ranges + [f])
    case Some(i) => if Continues(ranges[i], f) then Some(ranges[i := ranges[i].(end := f.end)]) else None
  }

  function Merge(ranges: seq<FilePosition>, pieces: seq<FilePosition>): Option<seq<FilePosition>> {
    if pieces == [] then Some(ranges)
    else
      var n := |pieces| - 1;
      match Merge(ranges, pieces[..n])
      case None => None
      case Some(m) => Absorb(m, pieces[n])
  }

  /** mergeFileRanges: one pass with an index per generation. */
  method MergeFileRanges(previous: seq<FilePosition>, next: seq<FilePosition>) returns (r: Option<seq<FilePosition>>)
    ensures r == Merge(previous, next)
  {
    var merged := previous;
    var indices: map<string, nat> := map[];
    for i := 0 to |merged|
      invariant forall g :: Find(merged[..i], g) == (if g in indices then Some(indices[g]) else None)
    {
      assert merged[..i + 1] == merged[..i] + [merged[i]];
      indices := indices[merged[i].generation := i];
    }
    assert merged[..|merged|] == merged;
    for k := 0 to |next|
      invariant Merge(previous, next[..k]) == Some(merged)
      invariant forall g :: Find(merged, g) == (if g in indices then Some(indices[g]) else None)
    {
      var f := next[k];
      MergeSnoc(previous, next, k);
      assert Find(merged, f.generation) == (if f.generation in indices then Some(indices[f.generation]) else None);
      if f.generation in indices {
        var i := indices[f.generation];
        if !Continues(merged[i], f) {
          MergeFails(previous, next, k + 1);
          return None;
        }
        FindUpdated(merged, i, merged[i].(end := f.end));
        merged := merged[i := merged[i].(end := f.end)];
      } else {
        FindAppended(merged, f);
        indices := indices[f.generation := |merged|];
        merged := merged + [f];
      }
    }
    assert next[..|next|] == next;
    r := Some(merged);
  }

  lemma MergeSnoc(ranges: seq<FilePosition>, pieces: seq<FilePosition>, k: nat)
    requires k < |pieces|
    ensures Merge(ranges, pieces[..k + 1]) ==
            (match Merge(ranges, pieces[..k]) case None => None case Some(m) => Absorb(m, pieces[k]))
  {
    assert pieces[..k + 1][..k] == pieces[..k];
  }

  lemma {:induction false} MergeFails(ranges: seq<FilePosition>, pieces: seq<FilePosition>, k: nat)
    requires k <= |pieces| && Merge(ranges, pieces[..k]).None?
    ensures Merge(ranges, pieces).None?
    decreases |pieces| - k
  {
    if k == |pieces| {
      assert pieces[..k] == pieces;
    } else {
      MergeSnoc(ranges, pieces, k);
      MergeFails(ranges, pieces, k + 1);
    }
  }

  lemma {:induction false} FindUpdated(ranges: seq<FilePosition>, i: nat, f: FilePosition)
    requires i < |ranges| && f.generation == ranges[i].generation
    ensures forall g :: Find(ranges[i := f], g) == Find(ranges, g)
  {
    var n := |ranges| - 1;
    if i < n {
      FindUpdated(ranges[..n], i, f);
      assert ranges[i := f][..n] == ranges[..n][i := f];
    } else {
      assert ranges[i := f][..n] == ranges[..n];
    }
  }

  lemma FindAppended(ranges: seq<FilePosition>, f: FilePosition)
    ensures forall g :: Find(ranges + [f], g) == (if g == f.generation then Some(|ranges|) else Find(ranges, g))
  {
    assert (ranges + [f])[..|ranges|] == ranges;
  }

  // ----- what a merge means

  ghost predicate OnePerGeneration(ranges: seq<FilePosition>) {
    forall i, j | 0 <= i < j < |ranges| :: ranges[i].generation != ranges[j].generation
  }

  lemma AbsorbKeepsOne(ranges: seq<FilePosition>, f: FilePosition)
    requires OnePerGeneration(ranges) && Absorb(ranges, f).Some?
    ensures OnePerGeneration(Absorb(ranges, f).value)
  {
  }

  lemma {:induction false} MergeKeepsOne(ranges: seq<FilePosition>, pieces: seq<FilePosition>)
    requires OnePerGeneration(ranges) && Merge(ranges, pieces).Some?
    ensures OnePerGeneration(Merge(ranges, pieces).value)
  {
    if pieces != [] {
      var n := |pieces| - 1;
      MergeKeepsOne(ranges, pieces[..n]);
      AbsorbKeepsOne(Merge(ranges, pieces[..n]).value, pieces[n]);
    }
  }

  /** Pieces of one generation follow each other without a gap. */
  ghost predicate Contiguous(pieces: seq<FilePosition>) {
    forall j | 0 <= j < |pieces| :: FollowsOn(pieces[..j], pieces[j])
  }

  ghost predicate FollowsOn(before: seq<FilePosition>, f: FilePosition) {
    var last := Find(before, f.generation);
    last.Some? ==> Continues(before[last.value], f)
  }

  /** A merged range ends where the generation's last piece ends, in the same file. */
  lemma {:induction false} MergedEnd(pieces: seq<FilePosition>, g: string)
    requires Merge([], pieces).Some?
    ensures var m := Merge([], pieces).value;
            && (Find(m, g).Some? <==> Find(pieces, g).Some?)
            && (Find(m, g).Some? ==>
                  var r, last := m[Find(m, g).value], pieces[Find(pieces, g).value];
                  r.end == last.end && r.device == last.device && r.inode == last.inode)
  {
    if pieces != [] {
      var n := |pieces| - 1;
      var m, f := Merge([], pieces[..n]).value, pieces[n];
      MergedEnd(pieces[..n], g);
      MergedEnd(pieces[..n], f.generation);
      if Find(m, f.generation).Some? {
        var i := Find(m, f.generation).value;
        FindUpdated(m, i, m[i].(end := f.end));
      } else {
        FindAppended(m, f);
      }
    }
  }

  /** Merging succeeds exactly when the pieces of every generation are contiguous. */
  lemma {:induction false} MergesExactlyWhen(pieces: seq<FilePosition>)
    ensures Merge([], pieces).Some? <==> Contiguous(pieces)
  {
    if pieces != [] {
      var n := |pieces| - 1;
      var rest, f := pieces[..n], pieces[n];
      MergesExactlyWhen(rest);
      ContiguousSnoc(pieces);
      if Merge([], rest).Some? {
        MergedEnd(rest, f.generation);
      }
    }
  }

  lemma ContiguousSnoc(pieces: seq<FilePosition>)
    requires pieces != []
    ensures var n := |pieces| - 1;
            Contiguous(pieces) <==> Contiguous(pieces[..n]) && FollowsOn(pieces[..n], pieces[n])
  {
    hide FollowsOn;
    var n := |pieces| - 1;
    var rest := pieces[..n];
    forall j | 0 <= j < n
      ensures rest[..j] == pieces[..j] && rest[j] == pieces[j]
      ensures FollowsOn(rest[..j], rest[j]) == FollowsOn(pieces[..j], pieces[j])
    {
    }
  }

  /** A byte of a generation that some piece holds. */
  ghost predicate Holds(pieces: seq<FilePosition>, g: string, b: nat) {
    exists f :: f in pieces && f.generation == g && f.start <= b < f.end
  }

  /** The merged ranges hold exactly the bytes of the pieces. */
  lemma {:induction false} MergeHoldsSame(pieces: seq<FilePosition>, g: string, b: nat)
    requires Merge([], pieces).Some? && forall f | f in pieces :: f.start <= f.end
    ensures Holds(Merge([], pieces).value, g, b) <==> Holds(pieces, g, b)
    ensures forall r | r in Merge([], pieces).value :: r.start <= r.end
  {
    if pieces != [] {
      var n := |pieces| - 1;
      var rest, f := pieces[..n], pieces[n];
      assert pieces == rest + [f] && f in pieces;
      assert forall e | e in rest :: e in pieces;
      hide Holds, Absorb;
      MergeHoldsSame(rest, g, b);
      HoldsSnoc(rest, f, g, b);
      AbsorbHolds(Merge([], rest).value, f, g, b);
    }
  }

  lemma HoldsSnoc(pieces: seq<FilePosition>, f: FilePosition, g: string, b: nat)
    ensures Holds(pieces + [f], g, b) <==> Holds(pieces, g, b) || (f.generation == g && f.start <= b < f.end)
  {
    assert f in pieces + [f];
    if Holds(pieces, g, b) {
      var e :| e in pieces && e.generation == g && e.start <= b < e.end;
      assert e in pieces + [f];
    }
  }

  lemma AbsorbHolds(ranges: seq<FilePosition>, f: FilePosition, g: string, b: nat)
    requires Absorb(ranges, f).Some? && f.start <= f.end && forall r | r in ranges :: r.start <= r.end
    ensures var m := Absorb(ranges, f).value;
            && (Holds(m, g, b) <==> Holds(ranges, g, b) || (f.generation == g && f.start <= b < f.end))
            && (forall r | r in m :: r.start <= r.end)
  {
    var m := Absorb(ranges, f).value;
    if Find(ranges, f.generation).None? {
      HoldsSnoc(ranges, f, g, b);
    } else {
      var i := Find(ranges, f.generation).value;
      ExtendedHolds(ranges, i, f.end, g, b);
    }
  }

  /** Extending one range adds exactly the bytes up to its new end. */
  lemma ExtendedHolds(ranges: seq<FilePosition>, i: nat, end: nat, g: string, b: nat)
    requires i < |ranges| && ranges[i].start <= ranges[i].end <= end
    ensures Holds(ranges[i := ranges[i].(end := end)], g, b) <==>
            Holds(ranges, g, b) || (ranges[i].generation == g && ranges[i].end <= b < end)
  {
    var m := ranges[i := ranges[i].(end := end)];
    assert m[i] in m;
    if Holds(ranges, g, b) {
      var e :| e in ranges && e.generation == g && e.start <= b < e.end;
      var j :| 0 <= j < |ranges| && ranges[j] == e;
      assert m[j] in m;
    }
    if Holds(m, g, b) {
      var e :| e in m && e.generation == g && e.start <= b < e.end;
      var j :| 0 <= j < |m| && m[j] == e;
      if j != i || b < ranges[i].end {
        assert ranges[j] in ranges;
      }
    }
  }

  // ----- merging in batches

  lemma {:induction false} MergeConcat(ranges: seq<FilePosition>, a: seq<FilePosition>, b: seq<FilePosition>)
    ensures Merge(ranges, a + b) == (match Merge(ranges, a) case None => None case Some(m) => Merge(m, b))
  {
    if b == [] {
      assert a + b == a;
    } else {
      var n := |b| - 1;
      MergeConcat(ranges, a, b[..n]);
      assert (a + b)[..|a + b| - 1] == a + b[..n];
    }
  }

  function SetEnd(ranges: seq<FilePosition>, g: string, end: nat): seq<FilePosition> {
    match Find(ranges, g)
    case None => ranges
    case Some(i) => ranges[i := ranges[i].(end := end)]
  }

  /** Moving the end of one range of a batch moves the end of its generation. */
  lemma {:induction false} MergeExtended(ranges: seq<FilePosition>, q: seq<FilePosition>, i: nat, end: nat)
    requires OnePerGeneration(ranges) && OnePerGeneration(q) && i < |q|
    ensures Merge(ranges, q[i := q[i].(end := end)]) ==
            (match Merge(ranges, q) case None => None case Some(m) => Some(SetEnd(m, q[i].generation, end)))
  {
    var n := |q| - 1;
    var q' := q[i := q[i].(end := end)];
    if i == n {
      assert q'[..n] == q[..n];
      if Merge(ranges, q[..n]).Some? {
        AbsorbEnd(Merge(ranges, q[..n]).value, q[n], end);
      }
    } else {
      MergeExtended(ranges, q[..n], i, end);
      assert q'[..n] == q[..n][i := q[i].(end := end)];
      if Merge(ranges, q[..n]).Some? {
        AbsorbOther(Merge(ranges, q[..n]).value, q[n], q[i].generation, end);
      }
    }
  }

  lemma AbsorbEnd(m: seq<FilePosition>, f: FilePosition, end: nat)
    ensures Absorb(m, f.(end := end)) ==
            (match Absorb(m, f) case None => None case Some(r) => Some(SetEnd(r, f.generation, end)))
  {
    if Find(m, f.generation).None? {
      FindAppended(m, f);
      assert (m + [f])[|m| := f.(end := end)] == m + [f.(end := end)];
    } else {
      var i := Find(m, f.generation).value;
      FindUpdated(m, i, m[i].(end := f.end));
      assert m[i := m[i].(end := f.end)][i := m[i].(end := end)] == m[i := m[i].(end := end)];
    }
  }

  lemma AbsorbOther(m: seq<FilePosition>, f: FilePosition, g: string, end: nat)
    requires f.generation != g
    ensures Absorb(SetEnd(m, g, end), f) ==
            (match Absorb(m, f) case None => None case Some(r) => Some(SetEnd(r, g, end)))
  {
    if Find(m, g).Some? {
      var i := Find(m, g).value;
      FindUpdated(m, i, m[i].(end := end));
      if Find(m, f.generation).Some? {
        var j := Find(m, f.generation).value;
        FindUpdated(m, j, m[j].(end := f.end));
        assert m[i := m[i].(end := end)][j := m[j].(end := f.end)] == m[j := m[j].(end := f.end)][i := m[i].(end := end)];
      } else {
        FindAppended(m, f);
        FindAppended(SetEnd(m, g, end), f);
        assert m[i := m[i].(end := end)] + [f] == (m + [f])[i := m[i].(end := end)];
      }
    } else if Find(m, f.generation).Some? {
      var j := Find(m, f.generation).value;
      FindUpdated(m, j, m[j].(end := f.end));
    } else {
      FindAppended(m, f);
    }
  }

  /** Merging ranges that were merged before equals merging their pieces. */
  lemma {:induction false} MergeOfMerged(ranges: seq<FilePosition>, pieces: seq<FilePosition>)
    requires OnePerGeneration(ranges) && Merge([], pieces).Some?
    ensures Merge(ranges, Merge([], pieces).value) == Merge(ranges, pieces)
  {
    if pieces != [] {
      var n := |pieces| - 1;
      var rest, f := pieces[..n], pieces[n];
      MergeOfMerged(ranges, rest);
      MergeKeepsOne([], rest);
      var q := Merge([], rest).value;
      if Find(q, f.generation).None? {
        assert (q + [f])[..|q|] == q;
      } else {
        var i := Find(q, f.generation).value;
        MergeExtended(ranges, q, i, f.end);
        if Merge(ranges, q).Some? {
          LaterEnd(ranges, q, i);
          AbsorbSetsEnd(Merge(ranges, q).value, f);
        }
      }
    }
  }

  /** What a batch says last about a generation is what the merge ends with. */
  lemma {:induction false} LaterEnd(ranges: seq<FilePosition>, q: seq<FilePosition>, i: nat)
    requires OnePerGeneration(q) && i < |q| && Merge(ranges, q).Some?
    ensures var m, g := Merge(ranges, q).value, q[i].generation;
            && Find(m, g).Some?
            && m[Find(m, g).value].(start := 0) == q[i].(start := 0)
  {
    hide Absorb;
    var n := |q| - 1;
    var m, f := Merge(ranges, q[..n]).value, q[n];
    AbsorbLast(m, f);
    if i < n {
      AbsorbApart(m, f, q[i].generation);
      LaterEnd(ranges, q[..n], i);
    }
  }

  lemma AbsorbLast(m: seq<FilePosition>, f: FilePosition)
    requires Absorb(m, f).Some?
    ensures var r := Absorb(m, f).value;
            Find(r, f.generation).Some? && r[Find(r, f.generation).value].(start := 0) == f.(start := 0)
  {
    if Find(m, f.generation).Some? {
      var j := Find(m, f.generation).value;
      FindUpdated(m, j, m[j].(end := f.end));
    } else {
      FindAppended(m, f);
    }
  }

  lemma AbsorbApart(m: seq<FilePosition>, f: FilePosition, g: string)
    requires Absorb(m, f).Some? && g != f.generation
    ensures var r := Absorb(m, f).value;
            Find(r, g) == Find(m, g) && (Find(m, g).Some? ==> r[Find(m, g).value] == m[Find(m, g).value])
  {
    if Find(m, f.generation).Some? {
      var j := Find(m, f.generation).value;
      FindUpdated(m, j, m[j].(end := f.end));
    } else {
      FindAppended(m, f);
    }
  }

  lemma AbsorbSetsEnd(m: seq<FilePosition>, f: FilePosition)
    requires Find(m, f.generation).Some? && Continues(m[Find(m, f.generation).value], f)
    ensures Absorb(m, f) == Some(SetEnd(m, f.generation, f.end))
  {
  }

  function Concat(batches: seq<seq<FilePosition>>): seq<FilePosition> {
    if batches == [] then [] else Concat(batches[..|batches| - 1]) + batches[|batches| - 1]
  }

  /** The batches merged one by one, each from its own merged ranges. */
  function MergeBatches(batches: seq<seq<FilePosition>>): Option<seq<FilePosition>> {
    if batches == [] then Some([])
    else
      var n := |batches| - 1;
      match (MergeBatches(batches[..n]), Merge([], batches[n]))
      case (Some(m), Some(q)) => Merge(m, q)
      case _ => None
  }

  /** Pieces split at any points and merged batch by batch equal one merge of the whole. */
  lemma {:induction false} AnySplit(batches: seq<seq<FilePosition>>)
    requires forall b | b in batches :: Merge([], b).Some?
    ensures MergeBatches(batches) == Merge([], Concat(batches))
  {
    if batches != [] {
      var n := |batches| - 1;
      forall b | b in batches[..n]
        ensures Merge([], b).Some?
      {
      }
      AnySplit(batches[..n]);
      MergeConcat([], Concat(batches[..n]), batches[n]);
      assert batches[n] in batches;
      if MergeBatches(batches[..n]).Some? {
        MergeKeepsOne([], Concat(batches[..n]));
        MergeOfMerged(MergeBatches(batches[..n]).value, batches[n]);
      }
    }
  }
}
