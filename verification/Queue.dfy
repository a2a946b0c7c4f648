/** The bounded, sealable delivery queue (internal/source/queue.go) as an interleaving of
    the steps of any number of Enqueue, Dequeue and Seal calls. */
module Queue {
  import opened Basics

  type CallId = nat
  type Delivery = nat

  datatype Phase =
    // Enqueue, while its admission is counted
    | Admitted(delivery: Delivery)
    | HoldsSlot(delivery: Delivery)
    | Sending(delivery: Delivery)
    | Appending
    | Rejecting
    | LeavingEnqueue
    // Dequeue, once it has received an item
    | Received(delivery: Delivery)
    | Returning(delivery: Delivery)

  datatype State = State(
    capacity: nat,
    slots: nat,
    items: seq<Delivery>,
    closed: bool,
    sealed: bool,
    admissions: nat,
    /** The holder of statsMu. */
    stats: Option<CallId>,
    /** Only the length of acceptedAt matters. */
    acceptedAt: nat,
    calls: map<CallId, Phase>,
    /** Every delivery accepted and every delivery received so far, in order. */
    accepted: seq<Delivery>,
    received: seq<Delivery>)

  function Initial(capacity: nat): State {
    State(capacity, capacity, [], false, false, 0, None, 0, map[], [], [])
  }

  datatype Action =
    | Enqueue(delivery: Delivery)
    | TakeSlot
    | GiveUp
    | LockStats
    | Send
    | Append
    | CountRejected
    | Leave
    | Receive
    | RecordDequeued
    | ReturnSlot
    | Seal
    | CloseItems

  function At(s: State, t: CallId, p: Phase): map<CallId, Phase> {
    s.calls[t := p]
  }

  /** A step of a call; one that its phase or a blocking operation does not allow changes
      nothing. */
  function Step(s: State, t: CallId, action: Action): State {
    match action
    case Enqueue(d) =>
      if t in s.calls || s.sealed then s else s.(calls := At(s, t, Admitted(d)), admissions := s.admissions + 1)
    case TakeSlot =>
      if t in s.calls && s.calls[t].Admitted? && 0 < s.slots
      then s.(calls := At(s, t, HoldsSlot(s.calls[t].delivery)), slots := s.slots - 1) else s
    case GiveUp =>
      if t in s.calls && s.calls[t].Admitted? then s.(calls := At(s, t, Rejecting)) else s
    case LockStats =>
      if t in s.calls && s.calls[t].HoldsSlot? && s.stats.None?
      then s.(calls := At(s, t, Sending(s.calls[t].delivery)), stats := Some(t)) else s
    case Send =>
      if t in s.calls && s.calls[t].Sending? && |s.items| < s.capacity
      then s.(calls := At(s, t, Appending), items := s.items + [s.calls[t].delivery],
              accepted := s.accepted + [s.calls[t].delivery]) else s
    case Append =>
      if t in s.calls && s.calls[t].Appending?
      then s.(calls := At(s, t, LeavingEnqueue), acceptedAt := s.acceptedAt + 1, stats := None) else s
    case CountRejected =>
      if t in s.calls && s.calls[t].Rejecting? && s.stats.None? then s.(calls := At(s, t, LeavingEnqueue)) else s
    case Leave =>
      if t in s.calls && s.calls[t].LeavingEnqueue?
      then s.(calls := s.calls - {t}, admissions := if 0 < s.admissions then s.admissions - 1 else 0) else s
    case Receive =>
      if t !in s.calls && s.items != []
      then s.(calls := At(s, t, Received(s.items[0])), items := s.items[1..], received := s.received + [s.items[0]]) else s
    case RecordDequeued =>
      if t in s.calls && s.calls[t].Received? && s.stats.None?
      then s.(calls := At(s, t, Returning(s.calls[t].delivery)), acceptedAt := if 0 < s.acceptedAt then s.acceptedAt - 1 else 0)
      else s
    case ReturnSlot =>
      if t in s.calls && s.calls[t].Returning? && s.slots < s.capacity
      then s.(calls := s.calls - {t}, slots := s.slots + 1) else s
    case Seal => s.(sealed := true)
    case CloseItems => s.(closed := s.closed || (s.sealed && s.admissions == 0))
  }

  datatype Move = Move(call: CallId, action: Action)

  /** A run of the queue: any calls in any interleaving. */
  function Run(capacity: nat, moves: seq<Move>): State {
    if moves == [] then Initial(capacity)
    else
      var n := |moves| - 1;
      Step(Run(capacity, moves[..n]), moves[n].call, moves[n].action)
  }

  // ----- counting calls

  predicate InEnqueue(p: Phase) {
    !p.Received? && !p.Returning?
  }

  predicate WithSlot(p: Phase) {
    p.HoldsSlot? || p.Sending?
  }

  predicate WithItem(p: Phase) {
    p.Received? || p.Returning?
  }

  ghost function Those(calls: map<CallId, Phase>, f: Phase -> bool): set<CallId> {
    set t | t in calls && f(calls[t])
  }

  ghost function Count(calls: map<CallId, Phase>, f: Phase -> bool): nat {
    |Those(calls, f)|
  }

  lemma CountMoved(calls: map<CallId, Phase>, t: CallId, p: Phase, f: Phase -> bool)
    ensures Count(calls[t := p], f) ==
            Count(calls, f) - (if t in calls && f(calls[t]) then 1 else 0) + (if f(p) then 1 else 0)
  {
    var before, after := Those(calls, f), Those(calls[t := p], f);
    var rest := before - {t};
    assert after == if f(p) then rest + {t} else rest;
    assert t in before <==> t in calls && f(calls[t]);
  }

  lemma CountGone(calls: map<CallId, Phase>, t: CallId, f: Phase -> bool)
    requires t in calls
    ensures Count(calls - {t}, f) == Count(calls, f) - (if f(calls[t]) then 1 else 0)
  {
    var before, after := Those(calls, f), Those(calls - {t}, f);
    assert after == before - {t};
    assert t in before <==> f(calls[t]);
  }

  lemma CountSome(calls: map<CallId, Phase>, t: CallId, f: Phase -> bool)
    requires t in calls && f(calls[t])
    ensures 1 <= Count(calls, f)
  {
    assert t in Those(calls, f);
  }

  // ----- invariants

  /** Free slots, slots held by senders, buffered items and slots still to be returned sum
      to the capacity. */
  ghost predicate Conserved(s: State) {
    s.slots + Count(s.calls, WithSlot) + |s.items| + Count(s.calls, WithItem) == s.capacity
  }

  /** acceptedAt lists the buffered items and those received but not yet recorded, except
      the one whose sender is about to append it. */
  ghost predicate Listed(s: State) {
    s.acceptedAt + Count(s.calls, IsAppending) == |s.items| + Count(s.calls, IsReceived)
  }

  predicate IsAppending(p: Phase) {
    p.Appending?
  }

  predicate IsReceived(p: Phase) {
    p.Received?
  }

  /** statsMu has one holder, and only a sender holds it across steps. */
  ghost predicate StatsHeld(s: State) {
    forall t | t in s.calls && (s.calls[t].Sending? || s.calls[t].Appending?) :: s.stats == Some(t)
  }

  /** The items are closed only when no admission is left. */
  ghost predicate ClosedLate(s: State) {
    && s.admissions == Count(s.calls, InEnqueue)
    && (s.closed ==> s.sealed && s.admissions == 0)
  }

  ghost predicate Inv(s: State) {
    Conserved(s) && Listed(s) && StatsHeld(s) && ClosedLate(s) && s.accepted == s.received + s.items
  }

  lemma Recount(s: State, t: CallId, p: Phase)
    ensures Count(At(s, t, p), WithSlot) ==
            Count(s.calls, WithSlot) - (if t in s.calls && WithSlot(s.calls[t]) then 1 else 0) + (if WithSlot(p) then 1 else 0)
    ensures Count(At(s, t, p), WithItem) ==
            Count(s.calls, WithItem) - (if t in s.calls && WithItem(s.calls[t]) then 1 else 0) + (if WithItem(p) then 1 else 0)
    ensures Count(At(s, t, p), IsAppending) ==
            Count(s.calls, IsAppending) - (if t in s.calls && IsAppending(s.calls[t]) then 1 else 0) + (if IsAppending(p) then 1 else 0)
    ensures Count(At(s, t, p), IsReceived) ==
            Count(s.calls, IsReceived) - (if t in s.calls && IsReceived(s.calls[t]) then 1 else 0) + (if IsReceived(p) then 1 else 0)
    ensures Count(At(s, t, p), InEnqueue) ==
            Count(s.calls, InEnqueue) - (if t in s.calls && InEnqueue(s.calls[t]) then 1 else 0) + (if InEnqueue(p) then 1 else 0)
  {
    CountMoved(s.calls, t, p, WithSlot);
    CountMoved(s.calls, t, p, WithItem);
    CountMoved(s.calls, t, p, IsAppending);
    CountMoved(s.calls, t, p, IsReceived);
    CountMoved(s.calls, t, p, InEnqueue);
  }

  lemma StepOk(s: State, t: CallId, action: Action)
    requires Inv(s)
    ensures Inv(Step(s, t, action))
  {
    hide Count;
    match action {
      case Enqueue(d) => Recount(s, t, Admitted(d));
      case TakeSlot =>
        if t in s.calls && s.calls[t].Admitted? {
          Recount(s, t, HoldsSlot(s.calls[t].delivery));
        }
      case GiveUp => Recount(s, t, Rejecting);
      case LockStats =>
        if t in s.calls && s.calls[t].HoldsSlot? {
          Recount(s, t, Sending(s.calls[t].delivery));
        }
      case Send => Recount(s, t, Appending);
      case Append => Recount(s, t, LeavingEnqueue);
      case CountRejected => Recount(s, t, LeavingEnqueue);
      case Leave => GoneOk(s, t);
      case Receive =>
        if s.items != [] {
          Recount(s, t, Received(s.items[0]));
          assert s.received + s.items == (s.received + [s.items[0]]) + s.items[1..];
        }
      case RecordDequeued =>
        if t in s.calls && s.calls[t].Received? && s.stats.None? {
          NeverEmpty(s, t);
          Recount(s, t, Returning(s.calls[t].delivery));
        }
      case ReturnSlot => GoneOk(s, t);
      case Seal =>
      case CloseItems =>
    }
  }

  lemma GoneOk(s: State, t: CallId)
    ensures t in s.calls ==>
              && Count(s.calls - {t}, WithSlot) == Count(s.calls, WithSlot) - (if WithSlot(s.calls[t]) then 1 else 0)
              && Count(s.calls - {t}, WithItem) == Count(s.calls, WithItem) - (if WithItem(s.calls[t]) then 1 else 0)
              && Count(s.calls - {t}, IsAppending) == Count(s.calls, IsAppending) - (if IsAppending(s.calls[t]) then 1 else 0)
              && Count(s.calls - {t}, IsReceived) == Count(s.calls, IsReceived) - (if IsReceived(s.calls[t]) then 1 else 0)
              && Count(s.calls - {t}, InEnqueue) == Count(s.calls, InEnqueue) - (if InEnqueue(s.calls[t]) then 1 else 0)
              && (InEnqueue(s.calls[t]) ==> 1 <= Count(s.calls, InEnqueue))
  {
    if t in s.calls {
      CountGone(s.calls, t, WithSlot);
      CountGone(s.calls, t, WithItem);
      CountGone(s.calls, t, IsAppending);
      CountGone(s.calls, t, IsReceived);
      CountGone(s.calls, t, InEnqueue);
      if InEnqueue(s.calls[t]) {
        CountSome(s.calls, t, InEnqueue);
      }
    }
  }

  /** recordDequeued never finds an empty list. */
  lemma NeverEmpty(s: State, t: CallId)
    requires Listed(s) && StatsHeld(s) && t in s.calls && s.calls[t].Received? && s.stats.None?
    ensures 0 < s.acceptedAt
  {
    CountSome(s.calls, t, IsReceived);
    assert Those(s.calls, IsAppending) == {};
  }

  lemma {:induction false} RunOk(capacity: nat, moves: seq<Move>)
    ensures Inv(Run(capacity, moves)) && Run(capacity, moves).capacity == capacity
  {
    if moves == [] {
      var s := Initial(capacity);
      assert Those(s.calls, WithSlot) == {} && Those(s.calls, WithItem) == {} && Those(s.calls, InEnqueue) == {};
      assert Those(s.calls, IsAppending) == {} && Those(s.calls, IsReceived) == {};
    } else {
      var n := |moves| - 1;
      RunOk(capacity, moves[..n]);
      StepOk(Run(capacity, moves[..n]), moves[n].call, moves[n].action);
    }
  }

  // ----- what every run promises

  /** A send on the items under statsMu never blocks and never meets a closed channel. */
  lemma SendNeverBlocks(capacity: nat, moves: seq<Move>, t: CallId)
    requires t in Run(capacity, moves).calls && Run(capacity, moves).calls[t].Sending?
    ensures |Run(capacity, moves).items| < capacity && !Run(capacity, moves).closed
  {
    RunOk(capacity, moves);
    CountSome(Run(capacity, moves).calls, t, WithSlot);
    CountSome(Run(capacity, moves).calls, t, InEnqueue);
  }

  /** Returning a slot never blocks. */
  lemma ReturnNeverBlocks(capacity: nat, moves: seq<Move>, t: CallId)
    requires t in Run(capacity, moves).calls && Run(capacity, moves).calls[t].Returning?
    ensures Run(capacity, moves).slots < capacity
  {
    RunOk(capacity, moves);
    CountSome(Run(capacity, moves).calls, t, WithItem);
  }

  /** recordDequeued runs under statsMu and always has an entry to drop. */
  lemma DequeueAlwaysListed(capacity: nat, moves: seq<Move>, t: CallId)
    requires var s := Run(capacity, moves); t in s.calls && s.calls[t].Received? && s.stats.None?
    ensures 0 < Run(capacity, moves).acceptedAt
  {
    RunOk(capacity, moves);
    NeverEmpty(Run(capacity, moves), t);
  }

  /** Deliveries are received in the order of acceptance, each once; once the queue is
      closed and drained, every accepted one has been. */
  lemma AcceptanceOrder(capacity: nat, moves: seq<Move>)
    ensures var s := Run(capacity, moves);
            s.received <= s.accepted && (s.closed && s.items == [] ==> s.received == s.accepted)
  {
    RunOk(capacity, moves);
  }

  /** Nothing is accepted after the items are closed. */
  lemma ClosedAcceptsNothing(capacity: nat, moves: seq<Move>, move: Move)
    requires Run(capacity, moves).closed
    ensures Run(capacity, moves + [move]).closed && Run(capacity, moves + [move]).accepted == Run(capacity, moves).accepted
  {
    RunOk(capacity, moves);
    var s := Run(capacity, moves);
    assert (moves + [move])[..|moves + [move]| - 1] == moves;
    if move.call in s.calls && s.calls[move.call].Sending? {
      CountSome(s.calls, move.call, InEnqueue);
    }
  }
}
