/** The durable side of a file source: its session, its checkpoint and the covered prefix
    of each file generation (internal/store/source_coverage.go, source_state.go,
    source_session.go and internal/source/sqlite_state.go). */
module Coverage {
  import opened Basics
  import opened FileRanges

  /** Session identities are fresh opaque values. */
  type SessionId = nat

  datatype Lifecycle = GenerationOpen | GenerationDraining | GenerationSealed | GenerationRetired

  /** A row of the generation registry. */
  datatype Generation = Generation(
    device: nat, inode: nat, state: Lifecycle, durableEnd: Option<nat>, finalEOF: Option<nat>,
    coverageSession: Option<SessionId>)

  datatype Checkpoint = Checkpoint(session: SessionId, sequence: nat, position: Position)

  type Registry = map<string, Generation>

  datatype SaveError = StaleSession | PositionMismatch | NotDurable | Regression

  // ----- what coverage means

  /** Every byte of an initialised generation below its durable end belongs to a durable
      completion. */
  ghost predicate Covered(rows: Registry, completions: set<FilePosition>) {
    forall g, b: nat | g in rows && rows[g].durableEnd.Some? && b < rows[g].durableEnd.value :: Completed(completions, g, b)
  }

  predicate Completed(completions: set<FilePosition>, g: string, b: nat) {
    exists f :: f in completions && f.generation == g && f.start <= b < f.end
  }

  predicate RangesCompleted(ranges: seq<FilePosition>, completions: set<FilePosition>) {
    forall r, b: nat | r in ranges && r.start <= b < r.end :: Completed(completions, r.generation, b)
  }

  /** No durable end lies beyond a set final EOF. */
  ghost predicate WithinEOF(rows: Registry) {
    forall g | g in rows && rows[g].durableEnd.Some? && rows[g].finalEOF.Some? :: rows[g].durableEnd.value <= rows[g].finalEOF.value
  }

  /** Generations stay registered, durable ends never fall and final EOFs never move. */
  ghost predicate Onward(rows: Registry, rows': Registry) {
    forall g | g in rows ::
      && g in rows'
      && (rows[g].durableEnd.Some? ==> rows'[g].durableEnd.Some? && rows[g].durableEnd.value <= rows'[g].durableEnd.value)
      && (rows[g].finalEOF.Some? ==> rows'[g].finalEOF == rows[g].finalEOF)
  }

  // ----- advanceFileCoverage

  /** A range that may be recorded: a known, live generation whose prefix it continues
      without a gap and within its final EOF. */
  predicate Admissible(rows: Registry, span: FilePosition) {
    && span.start <= span.end <= MAX_INT64 && span.device <= MAX_INT64 && span.inode <= MAX_INT64
    && span.generation in rows
    && var row := rows[span.generation];
    && !row.state.GenerationRetired? && row.device == span.device && row.inode == span.inode
    && row.durableEnd.Some? && span.start <= row.durableEnd.value
    && (row.finalEOF.Some? ==> span.end <= row.finalEOF.value)
  }

  predicate MayRecord(rows: Registry, span: FilePosition, advancing: bool) {
    Admissible(rows, span) && (advancing || span.end <= rows[span.generation].durableEnd.value)
  }

  /** When a save of one range per generation goes through. */
  ghost predicate MayAdvance(rows: Registry, position: Position, ranges: seq<FilePosition>, advancing: bool) {
    && position.FileAt? && (exists span :: span in ranges && Includes(span, position.file))
    && (forall span | span in ranges :: MayRecord(rows, span, advancing))
  }

  predicate Includes(span: FilePosition, last: FilePosition) {
    && span.generation == last.generation && span.device == last.device && span.inode == last.inode
    && span.start <= last.start && last.end <= span.end
  }

  function Extended(rows: Registry, span: FilePosition, session: SessionId): Registry
    requires span.generation in rows
  {
    rows[span.generation := rows[span.generation].(durableEnd := Some(span.end), coverageSession := Some(session))]
  }

  lemma ExtendedOk(rows: Registry, span: FilePosition, session: SessionId, completions: set<FilePosition>)
    requires Covered(rows, completions) && WithinEOF(rows) && Admissible(rows, span)
    requires rows[span.generation].durableEnd.value < span.end
    requires forall b: nat | span.start <= b < span.end :: Completed(completions, span.generation, b)
    ensures Covered(Extended(rows, span, session), completions) && WithinEOF(Extended(rows, span, session))
    ensures Onward(rows, Extended(rows, span, session))
  {
  }

  lemma OnwardThrough(a: Registry, b: Registry, c: Registry)
    requires Onward(a, b) && Onward(b, c)
    ensures Onward(a, c)
  {
  }

  /** One range of advanceFileCoverage. */
  method RecordRange(rows: Registry, session: SessionId, span: FilePosition, advancing: bool) returns (r: Result<Registry, SaveError>)
    ensures r.Ok? <==> MayRecord(rows, span, advancing)
    ensures r.Ok? ==> r.value == Recorded(rows, span, session)
  {
    if !(span.start <= span.end <= MAX_INT64 && span.device <= MAX_INT64 && span.inode <= MAX_INT64) {
      return Err(PositionMismatch);
    }
    if span.generation !in rows || rows[span.generation].state.GenerationRetired? ||
       rows[span.generation].device != span.device || rows[span.generation].inode != span.inode {
      return Err(PositionMismatch);
    }
    var row := rows[span.generation];
    if row.durableEnd.None? || row.durableEnd.value < span.start || (row.finalEOF.Some? && row.finalEOF.value < span.end) {
      return Err(NotDurable);
    }
    if span.end <= row.durableEnd.value {
      return Ok(rows);
    }
    if !advancing {
      return Err(Regression);
    }
    r := Ok(rows[span.generation := row.(durableEnd := Some(span.end), coverageSession := Some(session))]);
  }

  function Recorded(rows: Registry, span: FilePosition, session: SessionId): Registry
    requires Admissible(rows, span)
  {
    if span.end <= rows[span.generation].durableEnd.value then rows else Extended(rows, span, session)
  }

  lemma RecordedOk(rows: Registry, span: FilePosition, session: SessionId, completions: set<FilePosition>)
    requires Covered(rows, completions) && WithinEOF(rows) && Admissible(rows, span)
    requires forall b: nat | span.start <= b < span.end :: Completed(completions, span.generation, b)
    ensures var rows' := Recorded(rows, span, session);
            && Covered(rows', completions) && WithinEOF(rows') && Onward(rows, rows') && Reaches(rows', span)
            && rows'.Keys == rows.Keys && (forall g | g in rows && g != span.generation :: rows'[g] == rows[g])
  {
    OnwardItself(rows);
    if rows[span.generation].durableEnd.value < span.end {
      ExtendedOk(rows, span, session, completions);
    }
  }

  /** The durable prefix includes the range. */
  ghost predicate Reaches(rows: Registry, span: FilePosition) {
    span.generation in rows && rows[span.generation].durableEnd.Some? && span.end <= rows[span.generation].durableEnd.value
  }

  /** advanceFileCoverage, inside its transaction: `Err` rolls everything back. */
  method AdvanceFileCoverage(rows: Registry, session: SessionId, position: Position, ranges: seq<FilePosition>, advancing: bool,
                             ghost completions: set<FilePosition>)
    returns (r: Result<Registry, SaveError>)
    requires Covered(rows, completions) && WithinEOF(rows) && RangesCompleted(ranges, completions)
    ensures r.Ok? ==>
              && Covered(r.value, completions) && WithinEOF(r.value) && Onward(rows, r.value)
              && (forall span | span in ranges :: Reaches(r.value, span))
              && (!advancing ==> r.value == rows)
              && (forall g | g in rows && g !in Generations(ranges) :: r.value[g] == rows[g])
    ensures OnePerGeneration(ranges) ==> (r.Ok? <==> MayAdvance(rows, position, ranges, advancing))
  {
    if !position.FileAt? || ranges == [] {
      return Err(NotDurable);
    }
    hide Covered, WithinEOF, Completed, Onward, Admissible, Recorded, Reaches, MayRecord, Includes, Generations, RangesCompleted,
         OnePerGeneration, MayAdvance, Progress;
    var current, lastCovered := rows, false;
    ProgressStarts(rows, ranges, advancing, completions);
    for i := 0 to |ranges|
      invariant Progress(rows, current, ranges, i, advancing, completions)
      invariant lastCovered <==> exists k :: 0 <= k < i && Includes(ranges[k], position.file)
    {
      var span := ranges[i];
      var next := RecordRange(current, session, span, advancing);
      UntouchedSoFar(rows, current, ranges, i, advancing, completions);
      if next.Err? {
        Refused(rows, position, ranges, advancing, i);
        return Err(next.error);
      }
      lastCovered := lastCovered || Includes(span, position.file);
      ProgressStep(rows, current, ranges, i, session, advancing, completions);
      current := next.value;
    }
    ProgressEnds(rows, current, ranges, advancing, completions);
    Accepted(rows, position, ranges, advancing);
    if !lastCovered {
      return Err(NotDurable);
    }
    r := Ok(current);
  }

  /** What holds after the first `i` ranges. */
  ghost predicate Progress(rows: Registry, current: Registry, ranges: seq<FilePosition>, i: nat, advancing: bool,
                           completions: set<FilePosition>)
    requires i <= |ranges|
  {
    && Covered(current, completions) && WithinEOF(current) && Onward(rows, current) && current.Keys == rows.Keys
    && (forall k | 0 <= k < i :: Reaches(current, ranges[k]))
    && (!advancing ==> current == rows)
    && (forall g | g in rows && g !in Generations(ranges[..i]) :: current[g] == rows[g])
    && (OnePerGeneration(ranges) ==> forall k | 0 <= k < i :: MayRecord(rows, ranges[k], advancing))
  }

  lemma ProgressStarts(rows: Registry, ranges: seq<FilePosition>, advancing: bool, completions: set<FilePosition>)
    requires Covered(rows, completions) && WithinEOF(rows)
    ensures Progress(rows, rows, ranges, 0, advancing, completions)
  {
    OnwardItself(rows);
  }

  lemma ProgressStep(rows: Registry, current: Registry, ranges: seq<FilePosition>, i: nat, session: SessionId, advancing: bool,
                     completions: set<FilePosition>)
    requires i < |ranges| && Progress(rows, current, ranges, i, advancing, completions) && RangesCompleted(ranges, completions)
    requires MayRecord(current, ranges[i], advancing)
    requires OnePerGeneration(ranges) ==> MayRecord(rows, ranges[i], advancing)
    ensures Progress(rows, Recorded(current, ranges[i], session), ranges, i + 1, advancing, completions)
  {
    var next := Recorded(current, ranges[i], session);
    RangeCompleted(ranges, i, completions);
    GenerationsSnoc(ranges, i);
    RecordedStep(rows, current, next, ranges[i], session, advancing, completions);
    StillReaches(current, next, ranges, i);
    hide Covered, WithinEOF, Completed, Onward, Admissible, Recorded, Reaches, MayRecord, Generations, RangesCompleted,
         OnePerGeneration;
  }

  lemma ProgressEnds(rows: Registry, current: Registry, ranges: seq<FilePosition>, advancing: bool, completions: set<FilePosition>)
    requires Progress(rows, current, ranges, |ranges|, advancing, completions)
    ensures Covered(current, completions) && WithinEOF(current) && Onward(rows, current) && (!advancing ==> current == rows)
    ensures forall span | span in ranges :: Reaches(current, span)
    ensures forall g | g in rows && g !in Generations(ranges) :: g in current && current[g] == rows[g]
    ensures OnePerGeneration(ranges) ==> forall k | 0 <= k < |ranges| :: MayRecord(rows, ranges[k], advancing)
  {
    assert ranges[..|ranges|] == ranges;
  }

  lemma RangeCompleted(ranges: seq<FilePosition>, i: nat, completions: set<FilePosition>)
    requires i < |ranges| && RangesCompleted(ranges, completions)
    ensures forall b: nat | ranges[i].start <= b < ranges[i].end :: Completed(completions, ranges[i].generation, b)
  {
    assert ranges[i] in ranges;
  }

  lemma Refused(rows: Registry, position: Position, ranges: seq<FilePosition>, advancing: bool, i: nat)
    requires i < |ranges|
    ensures !MayRecord(rows, ranges[i], advancing) ==> !MayAdvance(rows, position, ranges, advancing)
  {
    assert ranges[i] in ranges;
  }

  lemma Accepted(rows: Registry, position: Position, ranges: seq<FilePosition>, advancing: bool)
    requires position.FileAt?
    ensures MayAdvance(rows, position, ranges, advancing) <==>
              && (exists k :: 0 <= k < |ranges| && Includes(ranges[k], position.file))
              && (forall k | 0 <= k < |ranges| :: MayRecord(rows, ranges[k], advancing))
  {
    if MayAdvance(rows, position, ranges, advancing) {
      var span :| span in ranges && Includes(span, position.file);
      var k :| 0 <= k < |ranges| && ranges[k] == span;
    }
  }

  function Generations(ranges: seq<FilePosition>): set<string> {
    set r | r in ranges :: r.generation
  }

  lemma GenerationsSnoc(ranges: seq<FilePosition>, i: nat)
    requires i < |ranges|
    ensures Generations(ranges[..i + 1]) == Generations(ranges[..i]) + {ranges[i].generation}
  {
    assert ranges[..i + 1] == ranges[..i] + [ranges[i]];
    assert ranges[i] in ranges[..i + 1];
  }

  lemma UntouchedSoFar(rows: Registry, current: Registry, ranges: seq<FilePosition>, i: nat, advancing: bool,
                       completions: set<FilePosition>)
    requires i < |ranges| && Progress(rows, current, ranges, i, advancing, completions)
    ensures OnePerGeneration(ranges) ==> (MayRecord(current, ranges[i], advancing) <==> MayRecord(rows, ranges[i], advancing))
  {
    assert OnePerGeneration(ranges) ==> ranges[i].generation !in Generations(ranges[..i]);
  }

  lemma RecordedStep(rows: Registry, current: Registry, next: Registry, span: FilePosition, session: SessionId, advancing: bool,
                     completions: set<FilePosition>)
    requires Covered(current, completions) && WithinEOF(current) && Onward(rows, current) && current.Keys == rows.Keys
    requires MayRecord(current, span, advancing) && next == Recorded(current, span, session)
    requires forall b: nat | span.start <= b < span.end :: Completed(completions, span.generation, b)
    ensures Covered(next, completions) && WithinEOF(next) && Onward(rows, next) && Onward(current, next) && next.Keys == rows.Keys
    ensures Reaches(next, span) && (!advancing ==> next == current)
    ensures forall g | g in current && g != span.generation :: next[g] == current[g]
  {
    RecordedOk(current, span, session, completions);
    OnwardThrough(rows, current, next);
  }

  lemma StillReaches(current: Registry, next: Registry, ranges: seq<FilePosition>, i: nat)
    requires i <= |ranges| && Onward(current, next) && forall k | 0 <= k < i :: Reaches(current, ranges[k])
    ensures forall k | 0 <= k < i :: Reaches(next, ranges[k])
  {
  }

  // ----- the database of one source

  class SourceStore {
    var active: Option<SessionId>
    var checkpoint: Option<Checkpoint>
    var rows: Registry
    var journal: bool
    /** Every position whose processing receipt is durable. */
    var completions: set<FilePosition>

    ghost predicate Valid()
      reads this
    {
      Covered(rows, completions) && WithinEOF(rows)
    }

    constructor (isJournal: bool)
      ensures Valid() && rows == map[] && completions == {} && active == None && checkpoint == None
    {
      active, checkpoint, rows, journal, completions := None, None, map[], isJournal, {};
    }

    /** A delivery's receipt became durable. */
    method RecordCompletion(p: Position)
      requires Valid()
      modifies this`completions
      ensures Valid() && completions == old(completions) + (if p.FileAt? then {p.file} else {})
    {
      CompletedGrows(rows, completions, completions + (if p.FileAt? then {p.file} else {}));
      completions := completions + (if p.FileAt? then {p.file} else {});
    }

    /** BeginSourceSession: compare-and-swap of the active session. */
    method BeginSession(expected: Option<SessionId>, id: SessionId) returns (ok: bool)
      requires Valid()
      modifies this`active
      ensures Valid() && (ok <==> old(active) == expected && expected != Some(id))
      ensures active == if ok then Some(id) else old(active)
    {
      ok := active == expected && expected != Some(id);
      if ok {
        active := Some(id);
      }
    }

    /** RegisterFileGeneration: an existing row is kept. */
    method Register(g: string, device: nat, inode: nat)
      requires Valid()
      modifies this`rows
      ensures Valid() && Onward(old(rows), rows) && g in rows
    {
      if g !in rows {
        rows := rows[g := Generation(device, inode, GenerationOpen, None, None, None)];
      }
    }

    /** InitializeFileGenerationCoverage. */
    method Initialize(session: SessionId, g: string) returns (ok: bool)
      requires Valid()
      modifies this`rows
      ensures Valid() && Onward(old(rows), rows)
      ensures ok <==> active == Some(session) && g in old(rows) && !old(rows)[g].state.GenerationRetired?
      ensures ok ==> rows[g].durableEnd == (if old(rows)[g].durableEnd.Some? then old(rows)[g].durableEnd else Some(0))
      ensures !ok ==> rows == old(rows)
    {
      if active != Some(session) || g !in rows || rows[g].state.GenerationRetired? {
        return false;
      }
      if rows[g].durableEnd.None? {
        rows := rows[g := rows[g].(durableEnd := Some(0), coverageSession := Some(session))];
      }
      ok := true;
    }

    /** SealFileGenerationWithSession; the table's check refuses an EOF below the durable
        end. */
    method Seal(session: SessionId, g: string, from: Lifecycle, eof: nat) returns (ok: bool)
      requires Valid()
      modifies this`rows
      ensures Valid() && Onward(old(rows), rows)
      ensures ok <==>
                && active == Some(session) && eof <= MAX_INT64 && (from.GenerationOpen? || from.GenerationDraining?)
                && g in old(rows) && old(rows)[g].state == from && old(rows)[g].finalEOF.None?
                && (old(rows)[g].durableEnd.Some? ==> old(rows)[g].durableEnd.value <= eof)
      ensures ok ==> rows == old(rows)[g := old(rows)[g].(state := GenerationSealed, finalEOF := Some(eof))]
      ensures !ok ==> rows == old(rows)
    {
      if active != Some(session) || MAX_INT64 < eof || !(from.GenerationOpen? || from.GenerationDraining?) ||
         g !in rows || rows[g].state != from || rows[g].finalEOF.Some? ||
         (rows[g].durableEnd.Some? && eof < rows[g].durableEnd.value) {
        return false;
      }
      rows := rows[g := rows[g].(state := GenerationSealed, finalEOF := Some(eof))];
      ok := true;
    }

    /** The sequence is new to the stored checkpoint; otherwise it must be the same one. */
    predicate Moves(session: SessionId, sequence: nat)
      reads this
    {
      checkpoint.None? || checkpoint.value.session != session || checkpoint.value.sequence < sequence
    }

    /** advanceSourceCheckpoint with coverage: one transaction. */
    method Advance(session: SessionId, sequence: nat, position: Position, ranges: seq<FilePosition>)
      returns (r: Result<(Registry, Checkpoint), SaveError>)
      requires Valid() && (active == Some(session) ==> RangesCompleted(ranges, completions))
      ensures r.Ok? ==>
                && active == Some(session) && r.value.1 == Checkpoint(session, sequence, position)
                && Covered(r.value.0, completions) && WithinEOF(r.value.0) && Onward(rows, r.value.0)
                && (forall span | span in ranges :: Reaches(r.value.0, span))
                && (checkpoint.Some? && checkpoint.value.session == session ==> checkpoint.value.sequence <= sequence)
      ensures OnePerGeneration(ranges) ==>
                (r.Ok? <==>
                   && 0 < sequence <= MAX_INT64 && active == Some(session) && !journal
                   && (Moves(session, sequence) || checkpoint == Some(Checkpoint(session, sequence, position)))
                   && MayAdvance(rows, position, ranges, Moves(session, sequence)))
    {
      if sequence == 0 || MAX_INT64 < sequence || active != Some(session) {
        return Err(StaleSession);
      }
      if position.FileAt? != !journal ||
         (position.FileAt? && (position.file.generation !in rows || rows[position.file.generation].state.GenerationRetired? ||
                               rows[position.file.generation].device != position.file.device ||
                               rows[position.file.generation].inode != position.file.inode)) {
        return Err(PositionMismatch);
      }
      var advancing := Moves(session, sequence);
      if !advancing && checkpoint != Some(Checkpoint(session, sequence, position)) {
        return Err(Regression);
      }
      var next := AdvanceFileCoverage(rows, session, position, ranges, advancing, completions);
      if next.Err? {
        return Err(next.error);
      }
      r := Ok((next.value, Checkpoint(session, sequence, position)));
    }

    /** AdvanceSourceCheckpoint of a journal: no coverage rows may exist. */
    method AdvanceJournal(session: SessionId, sequence: nat, position: Position) returns (r: Result<Checkpoint, SaveError>)
      ensures r.Ok? ==> active == Some(session) && r.value == Checkpoint(session, sequence, position)
      ensures r.Ok? ==> journal && forall g | g in rows :: rows[g].durableEnd.None?
      ensures r.Ok? && checkpoint.Some? && checkpoint.value.session == session ==> checkpoint.value.sequence <= sequence
    {
      if sequence == 0 || MAX_INT64 < sequence || active != Some(session) {
        return Err(StaleSession);
      }
      if !position.JournalAt? || !journal {
        return Err(PositionMismatch);
      }
      if exists g :: g in rows && rows[g].durableEnd.Some? {
        return Err(NotDurable);
      }
      var advancing := Moves(session, sequence);
      if !advancing && checkpoint != Some(Checkpoint(session, sequence, position)) {
        return Err(Regression);
      }
      r := Ok(Checkpoint(session, sequence, position));
    }

    /** saveCheckpoint: the transaction may fail, and its commit may be uncertain and then
        read back. When it answers yes, everything in the ranges is durably covered. */
    method SaveCheckpoint(session: SessionId, sequence: nat, position: Position, ranges: seq<FilePosition>) returns (ok: bool)
      requires Valid() && (active == Some(session) ==> RangesCompleted(ranges, completions))
      modifies this`rows, this`checkpoint
      ensures Valid() && Onward(old(rows), rows)
      ensures active != Some(session) ==> !ok && rows == old(rows) && checkpoint == old(checkpoint)
      ensures ok ==>
                && checkpoint == Some(Checkpoint(session, sequence, position))
                && (forall span | span in ranges :: Reaches(rows, span))
      ensures rows == old(rows) || checkpoint == Some(Checkpoint(session, sequence, position))
    {
      hide Covered, WithinEOF, RangesCompleted;
      OnwardItself(rows);
      var fails: bool := *;
      var committed: bool := *;
      var uncertain: bool := *;
      if position.JournalAt? && ranges == [] {
        var next := AdvanceJournal(session, sequence, position);
        if next.Err? || fails {
          return false;
        }
        if committed || !uncertain {
          checkpoint := Some(next.value);
        }
      } else {
        var next := Advance(session, sequence, position, ranges);
        if next.Err? || fails {
          return false;
        }
        if committed || !uncertain {
          rows, checkpoint := next.value.0, Some(next.value.1);
        }
      }
      if !uncertain {
        return true;
      }
      var readable: bool := *;
      ok := readable && CheckpointConfirmed(session, sequence, position, ranges);
    }

    /** checkpointConfirmed: one snapshot proves the whole candidate. */
    predicate CheckpointConfirmed(session: SessionId, sequence: nat, position: Position, ranges: seq<FilePosition>)
      reads this
    {
      && active == Some(session) && checkpoint == Some(Checkpoint(session, sequence, position))
      && (forall span | span in ranges ::
            && span.generation in rows && !rows[span.generation].state.GenerationRetired?
            && rows[span.generation].device == span.device && rows[span.generation].inode == span.inode
            && rows[span.generation].durableEnd.Some? && span.end <= rows[span.generation].durableEnd.value)
    }
  }

  lemma CompletedGrows(rows: Registry, completions: set<FilePosition>, more: set<FilePosition>)
    requires Covered(rows, completions) && completions <= more
    ensures Covered(rows, more)
  {
    forall g, b: nat | g in rows && rows[g].durableEnd.Some? && b < rows[g].durableEnd.value
      ensures Completed(more, g, b)
    {
      assert Completed(completions, g, b);
    }
  }

  lemma OnwardItself(rows: Registry)
    ensures Onward(rows, rows)
  {
  }
}
