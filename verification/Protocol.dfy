/** The processing commit protocol (internal/processor/coordinator.go over
    internal/detection/window.go) as an interleaving of the steps of any number of Process
    calls, on any number of coordinators that share one detection ledger.

    Every step is one critical section or one database call of the code. What a database
    call answers, when a caller is cancelled and which call moves next is arbitrary. */
module Protocol {
  import opened Basics
  import opened Window

  type ThreadId = nat
  type CoordinatorId = nat
  type AttemptId = nat

  /** How an attempt is to be settled once its commit is understood. */
  datatype Decision = ToConfirm | ToAbort | ToRemember

  datatype Phase =
    | Following(leader: ThreadId)
    | AtGate
    | Reading
    | Resolving(found: bool)
    | ResolvingShared(found: bool)
    | Preparing
    | Taking(keys: seq<WindowKey>, taken: nat)
    | Holding(attempt: AttemptId)
    | Uncertain(attempt: AttemptId)
    | Deciding(attempt: AttemptId, decision: Decision)
    | Leaving
    | LeavingFlight
    | Done

  /** One Process call. */
  datatype Thread = Thread(coordinator: CoordinatorId, delivery: DeliveryId, phase: Phase)

  datatype Status = Unsettled | Confirmed | Aborted

  /** A prepared attempt with its reservation; `committed` says that its transaction did. */
  datatype Attempt = Attempt(delivery: DeliveryId, locked: seq<WindowKey>, status: Status, committed: bool)

  datatype Holder = ByThread(thread: ThreadId) | ByAttempt(attempt: AttemptId)

  datatype Flight = Flight(coordinator: CoordinatorId, delivery: DeliveryId)

  datatype State = State(
    threads: map<ThreadId, Thread>,
    flights: map<Flight, ThreadId>,
    gates: map<DeliveryId, ThreadId>,
    guards: map<WindowKey, Holder>,
    attempts: map<AttemptId, Attempt>,
    /** Coordinator.pending */
    remembered: map<Flight, AttemptId>,
    /** Ledger.pending */
    deferred: map<DeliveryId, AttemptId>,
    /** The durable receipts, with the attempt that wrote each. */
    receipts: map<DeliveryId, AttemptId>)

  const INITIAL: State := State(map[], map[], map[], map[], map[], map[], map[], map[])

  /** What a receipt lookup may answer beyond the truth. */
  datatype Lookup = Answered | Unreadable | Mismatched

  datatype Action =
    | Start(coordinator: CoordinatorId, delivery: DeliveryId)
    | Retry
    | Cancel
    | EnterGate
    | ReadReceipt(lookup: Lookup)
    | ResolveRemembered
    | ResolveDeferred
    | BeginPrepare(keys: seq<WindowKey>)
    | PrepareFails
    | TakeGuard
    | PassAgain
    | Reserve(attempt: AttemptId)
    | WriteFails
    | Commit(happened: bool, known: bool)
    | ReadBack(lookup: Lookup)
    | Settle
    | ReleaseGate
    | ReleaseFlight

  function FlightOf(th: Thread): Flight {
    Flight(th.coordinator, th.delivery)
  }

  // ----- settling

  /** Guards that a holder gives back. */
  function Released(guards: map<WindowKey, Holder>, h: Holder): map<WindowKey, Holder> {
    map w | w in guards && guards[w] != h :: guards[w]
  }

  /** Confirm or Abort: the first one wins, later ones do nothing. */
  function Settled(s: State, a: AttemptId, confirm: bool): State {
    if a !in s.attempts || !s.attempts[a].status.Unsettled? then s
    else
      var d := s.attempts[a].delivery;
      s.(attempts := s.attempts[a := s.attempts[a].(status := if confirm then Confirmed else Aborted)],
         guards := Released(s.guards, ByAttempt(a)),
         deferred := if d in s.deferred && s.deferred[d] == a then s.deferred - {d} else s.deferred)
  }

  function Moved(s: State, t: ThreadId, phase: Phase): State
    requires t in s.threads
  {
    s.(threads := s.threads[t := s.threads[t].(phase := phase)])
  }

  /** rememberPending: registers with the ledger and the coordinator; an attempt it
      displaces is aborted. */
  function Remembered(s: State, f: Flight, a: AttemptId): State {
    var s1 := if f.delivery in s.deferred && s.deferred[f.delivery] != a then s
              else s.(deferred := s.deferred[f.delivery := a]);
    var s2 := s1.(remembered := s1.remembered[f := a]);
    if f in s.remembered then Settled(s2, s.remembered[f], false) else s2
  }

  // ----- steps: one that the call's phase does not allow changes nothing

  /** acquireFlight. */
  function Joined(s: State, t: ThreadId, c: CoordinatorId, d: DeliveryId): State {
    var f := Flight(c, d);
    s.(threads := s.threads[t := Thread(c, d, if f in s.flights then Following(s.flights[f]) else AtGate)],
       flights := if f in s.flights then s.flights else s.flights[f := t])
  }

  /** A follower whose leader is gone tries again. */
  function Rejoined(s: State, t: ThreadId): State
    requires t in s.threads
  {
    var th := s.threads[t];
    if !th.phase.Following? || (FlightOf(th) in s.flights && s.flights[FlightOf(th)] == th.phase.leader) then s
    else Joined(s, t, th.coordinator, th.delivery)
  }

  function Cancelled(s: State, t: ThreadId): State
    requires t in s.threads
  {
    match s.threads[t].phase
    case Following(_) => Moved(s, t, Done)
    case AtGate => Moved(s, t, LeavingFlight)
    case Taking(_, _) => Moved(s.(guards := Released(s.guards, ByThread(t))), t, Leaving)
    case _ => s
  }

  /** AcquireDelivery. */
  function Entered(s: State, t: ThreadId): State
    requires t in s.threads
  {
    var d := s.threads[t].delivery;
    if !s.threads[t].phase.AtGate? || d in s.gates then s else Moved(s.(gates := s.gates[d := t]), t, Reading)
  }

  /** findReceipt before the attempt. */
  function ReadFirst(s: State, t: ThreadId, lookup: Lookup): State
    requires t in s.threads
  {
    var d := s.threads[t].delivery;
    if !s.threads[t].phase.Reading? then s
    else if lookup.Unreadable? || (d in s.receipts && lookup.Mismatched?) then Moved(s, t, Leaving)
    else Moved(s, t, Resolving(d in s.receipts))
  }

  /** resolvePending, the coordinator's own register. */
  function ResolvedOwn(s: State, t: ThreadId): State
    requires t in s.threads
  {
    var f := FlightOf(s.threads[t]);
    if !s.threads[t].phase.Resolving? then s
    else
      var found := s.threads[t].phase.found;
      var s' := s.(remembered := s.remembered - {f});
      Moved(if f in s.remembered then Settled(s', s.remembered[f], found) else s', t, ResolvingShared(found))
  }

  /** resolvePending, the ledger's register. */
  function ResolvedShared(s: State, t: ThreadId): State
    requires t in s.threads
  {
    var d := s.threads[t].delivery;
    if !s.threads[t].phase.ResolvingShared? then s
    else
      var found := s.threads[t].phase.found;
      Moved(if d in s.deferred then Settled(s, s.deferred[d], found) else s, t, if found then Leaving else Preparing)
  }

  function PrepareBegun(s: State, t: ThreadId, keys: seq<WindowKey>): State
    requires t in s.threads
  {
    if s.threads[t].phase.Preparing? && Ordered(keys) then Moved(s, t, Taking(keys, 0)) else s
  }

  function PrepareFailed(s: State, t: ThreadId): State
    requires t in s.threads
  {
    if s.threads[t].phase.Preparing? then Moved(s, t, Leaving) else s
  }

  function GuardTaken(s: State, t: ThreadId): State
    requires t in s.threads
  {
    var p := s.threads[t].phase;
    if p.Taking? && p.taken < |p.keys| && p.keys[p.taken] !in s.guards
    then Moved(s.(guards := s.guards[p.keys[p.taken] := ByThread(t)]), t, Taking(p.keys, p.taken + 1))
    else s
  }

  /** evaluateRules aborts a reservation and prepares again. */
  function PassedAgain(s: State, t: ThreadId): State
    requires t in s.threads
  {
    if s.threads[t].phase.Taking? then Moved(s.(guards := Released(s.guards, ByThread(t))), t, Preparing) else s
  }

  function Reserved(s: State, t: ThreadId, a: AttemptId): State
    requires t in s.threads
  {
    var p := s.threads[t].phase;
    if !p.Taking? || p.taken < |p.keys| || a in s.attempts then s
    else
      Moved(s.(attempts := s.attempts[a := Attempt(s.threads[t].delivery, p.keys, Unsettled, false)],
               guards := HandedOver(s.guards, t, a)),
            t, Holding(a))
  }

  function HandedOver(guards: map<WindowKey, Holder>, t: ThreadId, a: AttemptId): map<WindowKey, Holder> {
    map w | w in guards :: if guards[w] == ByThread(t) then ByAttempt(a) else guards[w]
  }

  /** beginProcessing, write, finalizeDesiredState or writeReceipt fails and the
      transaction is rolled back. */
  function WriteFailed(s: State, t: ThreadId): State
    requires t in s.threads
  {
    var p := s.threads[t].phase;
    if p.Holding? then Moved(Settled(s, p.attempt, false), t, Leaving) else s
  }

  /** commit: it happens or not, and its answer may be lost. */
  function CommitReturned(s: State, t: ThreadId, happened: bool, known: bool): State
    requires t in s.threads
  {
    var p := s.threads[t].phase;
    if !p.Holding? || p.attempt !in s.attempts then s
    else
      var a := p.attempt;
      var s' := if !happened then s
                else s.(attempts := s.attempts[a := s.attempts[a].(committed := true)],
                        receipts := s.receipts[s.threads[t].delivery := a]);
      Moved(s', t, if !known then Uncertain(a) else Deciding(a, if happened then ToConfirm else ToAbort))
  }

  /** findReceipt after an unknown commit. */
  function ReadAfter(s: State, t: ThreadId, lookup: Lookup): State
    requires t in s.threads
  {
    var p, d := s.threads[t].phase, s.threads[t].delivery;
    if !p.Uncertain? then s
    else
      Moved(s, t, Deciding(p.attempt,
        if lookup.Unreadable? || (d in s.receipts && lookup.Mismatched?) then ToRemember
        else if d in s.receipts then ToConfirm else ToAbort))
  }

  function Concluded(s: State, t: ThreadId): State
    requires t in s.threads
  {
    var p := s.threads[t].phase;
    if !p.Deciding? then s
    else if p.decision.ToRemember? then Moved(Remembered(s, FlightOf(s.threads[t]), p.attempt), t, Leaving)
    else Moved(Settled(s, p.attempt, p.decision.ToConfirm?), t, Leaving)
  }

  function GateReleased(s: State, t: ThreadId): State
    requires t in s.threads
  {
    if s.threads[t].phase.Leaving? then Moved(s.(gates := s.gates - {s.threads[t].delivery}), t, LeavingFlight) else s
  }

  function FlightReleased(s: State, t: ThreadId): State
    requires t in s.threads
  {
    if s.threads[t].phase.LeavingFlight? then Moved(s.(flights := s.flights - {FlightOf(s.threads[t])}), t, Done) else s
  }

  function Step(s: State, t: ThreadId, action: Action): State {
    if t !in s.threads then if action.Start? then Joined(s, t, action.coordinator, action.delivery) else s
    else
      match action
      case Start(_, _) => s
      case Retry => Rejoined(s, t)
      case Cancel => Cancelled(s, t)
      case EnterGate => Entered(s, t)
      case ReadReceipt(lookup) => ReadFirst(s, t, lookup)
      case ResolveRemembered => ResolvedOwn(s, t)
      case ResolveDeferred => ResolvedShared(s, t)
      case BeginPrepare(keys) => PrepareBegun(s, t, keys)
      case PrepareFails => PrepareFailed(s, t)
      case TakeGuard => GuardTaken(s, t)
      case PassAgain => PassedAgain(s, t)
      case Reserve(a) => Reserved(s, t, a)
      case WriteFails => WriteFailed(s, t)
      case Commit(happened, known) => CommitReturned(s, t, happened, known)
      case ReadBack(lookup) => ReadAfter(s, t, lookup)
      case Settle => Concluded(s, t)
      case ReleaseGate => GateReleased(s, t)
      case ReleaseFlight => FlightReleased(s, t)
  }

  datatype Move = Move(thread: ThreadId, action: Action)

  /** A run from the empty system: any calls, in any interleaving. */
  function Run(moves: seq<Move>): State {
    if moves == [] then INITIAL
    else
      var n := |moves| - 1;
      Step(Run(moves[..n]), moves[n].thread, moves[n].action)
  }

  // ----- invariants

  predicate Leads(p: Phase) {
    !p.Following? && !p.Done?
  }

  predicate PastGate(p: Phase) {
    Leads(p) && !p.AtGate? && !p.LeavingFlight?
  }

  /** A call holds its flight while it leads and its gate while it is past it. */
  ghost predicate HoldsLocks(s: State, t: ThreadId, th: Thread) {
    && (Leads(th.phase) ==> FlightOf(th) in s.flights && s.flights[FlightOf(th)] == t)
    && (PastGate(th.phase) ==> th.delivery in s.gates && s.gates[th.delivery] == t)
  }

  ghost predicate FlightHeld(s: State, f: Flight) {
    f in s.flights ==>
      s.flights[f] in s.threads && FlightOf(s.threads[s.flights[f]]) == f && Leads(s.threads[s.flights[f]].phase)
  }

  ghost predicate GateHeld(s: State, d: DeliveryId) {
    d in s.gates ==>
      s.gates[d] in s.threads && s.threads[s.gates[d]].delivery == d && PastGate(s.threads[s.gates[d]].phase)
  }

  /** Flights and gates have exactly one holder each, which is where it should be. */
  ghost predicate LocksHeld(s: State) {
    && (forall t | t in s.threads :: HoldsLocks(s, t, s.threads[t]))
    && (forall f :: FlightHeld(s, f))
    && (forall d :: GateHeld(s, d))
  }

  /** A guard is held by a call that is taking it in order, or by an unsettled attempt. */
  ghost predicate GuardsHeld(s: State) {
    && (forall t | t in s.threads && s.threads[t].phase.Taking? ::
          var p := s.threads[t].phase;
          Ordered(p.keys) && p.taken <= |p.keys|)
    && (forall w | w in s.guards && s.guards[w].ByThread? ::
          var t := s.guards[w].thread;
          t in s.threads && s.threads[t].phase.Taking? && w in s.threads[t].phase.keys[..Taken(s.threads[t].phase)])
    && (forall w | w in s.guards && s.guards[w].ByAttempt? ::
          var a := s.guards[w].attempt;
          a in s.attempts && s.attempts[a].status.Unsettled? && w in s.attempts[a].locked)
  }

  function Taken(p: Phase): (n: nat)
    requires p.Taking?
    ensures n <= |p.keys|
  {
    if p.taken <= |p.keys| then p.taken else |p.keys|
  }

  /** The phase of the call that works on a delivery, if one does. */
  function Working(s: State, d: DeliveryId): Option<Thread> {
    if d in s.gates && s.gates[d] in s.threads then Some(s.threads[s.gates[d]]) else None
  }

  /** The attempt that a call still has to settle. */
  function Owned(p: Phase): Option<AttemptId> {
    match p
    case Holding(a) => Some(a)
    case Uncertain(a) => Some(a)
    case Deciding(a, _) => Some(a)
    case _ => None
  }

  /** What holds of the attempts of one delivery, whoever works on it. */
  ghost predicate AttemptsOk(s: State, d: DeliveryId) {
    && (d in s.deferred ==>
          s.deferred[d] in s.attempts && s.attempts[s.deferred[d]].delivery == d && s.attempts[s.deferred[d]].status.Unsettled?)
    && (d in s.receipts ==>
          s.receipts[d] in s.attempts && s.attempts[s.receipts[d]].delivery == d && s.attempts[s.receipts[d]].committed)
    && (forall a | a in s.attempts && s.attempts[a].delivery == d ::
          && (s.attempts[a].status.Confirmed? ==> s.attempts[a].committed)
          && (s.attempts[a].status.Aborted? ==> !s.attempts[a].committed)
          && (s.attempts[a].committed ==> d in s.receipts && s.receipts[d] == a))
    && (forall a, b | a in s.attempts && b in s.attempts && s.attempts[a].delivery == d && s.attempts[b].delivery == d &&
                      s.attempts[a].status.Unsettled? && s.attempts[b].committed :: a == b)
    && (forall f | f in s.remembered && f.delivery == d ::
          s.remembered[f] in s.attempts && s.attempts[s.remembered[f]].delivery == d)
  }

  /** An unsettled attempt is registered, or the call that works on the delivery owns it. */
  ghost predicate NoneLost(s: State, d: DeliveryId) {
    forall a | a in s.attempts && s.attempts[a].delivery == d && s.attempts[a].status.Unsettled? ::
      || (d in s.deferred && s.deferred[d] == a)
      || (Working(s, d).Some? && Owned(Working(s, d).value.phase) == Some(a))
  }

  /** What the working call knows. */
  ghost predicate Knows(s: State, d: DeliveryId) {
    Working(s, d).Some? ==>
      var th := Working(s, d).value;
      match th.phase
      case Resolving(found) => found <==> d in s.receipts
      case ResolvingShared(found) => (found <==> d in s.receipts) && FlightOf(th) !in s.remembered
      case Preparing => d !in s.receipts && d !in s.deferred && FlightOf(th) !in s.remembered
      case Taking(_, _) => d !in s.receipts && d !in s.deferred && FlightOf(th) !in s.remembered
      case Holding(a) => Owns(s, th, a) && d !in s.receipts
      case Uncertain(a) => Owns(s, th, a)
      case Deciding(a, decision) =>
        && Owns(s, th, a)
        && (decision.ToConfirm? ==> d in s.receipts)
        && (decision.ToAbort? ==> d !in s.receipts)
      case _ => true
  }

  ghost predicate Owns(s: State, th: Thread, a: AttemptId) {
    && a in s.attempts && s.attempts[a].delivery == th.delivery && s.attempts[a].status.Unsettled?
    && th.delivery !in s.deferred && FlightOf(th) !in s.remembered
  }

  ghost predicate DeliveryOk(s: State, d: DeliveryId) {
    AttemptsOk(s, d) && NoneLost(s, d) && Knows(s, d)
  }

  ghost predicate Inv(s: State) {
    LocksHeld(s) && GuardsHeld(s) && forall d :: DeliveryOk(s, d)
  }

  // ----- every step keeps them

  /** A step past the gate changes neither locks nor other deliveries: only the call's own
      phase, the attempts and registers of its delivery, and guards. */
  ghost predicate Inside(s: State, s': State, t: ThreadId) {
    && t in s.threads && PastGate(s.threads[t].phase)
    && t in s'.threads && PastGate(s'.threads[t].phase) && s'.threads == s.threads[t := s.threads[t].(phase := s'.threads[t].phase)]
    && s'.flights == s.flights && s'.gates == s.gates
    && SameElsewhere(s, s', s.threads[t].delivery)
  }

  ghost predicate SameElsewhere(s: State, s': State, d: DeliveryId) {
    && (forall a | a in s.attempts && s.attempts[a].delivery != d :: a in s'.attempts && s'.attempts[a] == s.attempts[a])
    && (forall a | a in s'.attempts && s'.attempts[a].delivery != d :: a in s.attempts && s.attempts[a] == s'.attempts[a])
    && (forall e | e != d :: (e in s.deferred <==> e in s'.deferred) && (e in s.deferred ==> s.deferred[e] == s'.deferred[e]))
    && (forall e | e != d :: (e in s.receipts <==> e in s'.receipts) && (e in s.receipts ==> s.receipts[e] == s'.receipts[e]))
    && (forall f: Flight | f.delivery != d ::
          (f in s.remembered <==> f in s'.remembered) && (f in s.remembered ==> s.remembered[f] == s'.remembered[f]))
  }

  lemma InsideKeepsLocks(s: State, s': State, t: ThreadId)
    requires LocksHeld(s) && Inside(s, s', t)
    ensures LocksHeld(s')
  {
    forall u | u in s'.threads
      ensures HoldsLocks(s', u, s'.threads[u])
    {
      assert HoldsLocks(s, u, s.threads[u]);
    }
    forall f
      ensures FlightHeld(s', f)
    {
      assert FlightHeld(s, f);
    }
    forall d
      ensures GateHeld(s', d)
    {
      assert GateHeld(s, d);
    }
  }

  lemma InsideKeepsOthers(s: State, s': State, t: ThreadId, d: DeliveryId)
    requires LocksHeld(s) && Inside(s, s', t) && d != s.threads[t].delivery && DeliveryOk(s, d)
    ensures DeliveryOk(s', d)
  {
    assert GateHeld(s, d) && HoldsLocks(s, t, s.threads[t]);
    assert Working(s', d) == Working(s, d);
    OtherAttempts(s, s', s.threads[t].delivery, d);
  }

  lemma OtherAttempts(s: State, s': State, d: DeliveryId, e: DeliveryId)
    requires SameElsewhere(s, s', d) && e != d && AttemptsOk(s, e)
    ensures AttemptsOk(s', e)
  {
  }

  lemma InsideStep(s: State, s': State, t: ThreadId)
    requires Inv(s) && Inside(s, s', t) && GuardsHeld(s') && DeliveryOk(s', s.threads[t].delivery)
    ensures Inv(s')
  {
    hide GuardsHeld;
    InsideKeepsLocks(s, s', t);
    forall d
      ensures DeliveryOk(s', d)
    {
      hide DeliveryOk, Inside;
      if d != s.threads[t].delivery {
        InsideKeepsOthers(s, s', t, d);
      }
    }
  }

  /** What is left of a state after settling one attempt. */
  ghost predicate Without(s: State, s': State, a: AttemptId, d: DeliveryId) {
    && SameElsewhere(s, s', d)
    && s'.threads == s.threads && s'.flights == s.flights && s'.gates == s.gates
    && s'.receipts == s.receipts && s'.remembered == s.remembered
    && (forall b | b in s'.attempts && s'.attempts[b].status.Unsettled? :: b in s.attempts && b != a && s.attempts[b] == s'.attempts[b])
    && (d in s'.deferred <==> d in s.deferred && s.deferred[d] != a)
    && (d in s'.deferred ==> s.deferred[d] == s'.deferred[d])
  }

  /** Settling an attempt as its transaction went keeps the delivery's attempts in order and
      gives back exactly its guards. */
  lemma SettledOk(s: State, a: AttemptId, confirm: bool, d: DeliveryId)
    requires AttemptsOk(s, d) && GuardsHeld(s) && a in s.attempts && s.attempts[a].delivery == d
    requires s.attempts[a].status.Unsettled? ==> (confirm <==> d in s.receipts)
    ensures var s' := Settled(s, a, confirm);
            AttemptsOk(s', d) && GuardsHeld(s') && Without(s, s', a, d)
  {
    SettledAttempts(s, a, confirm, d);
    SettledGuards(s, a, confirm);
    SettledWithout(s, a, confirm, d);
    hide AttemptsOk, GuardsHeld, Settled, Without;
  }

  lemma SettledWithout(s: State, a: AttemptId, confirm: bool, d: DeliveryId)
    requires AttemptsOk(s, d) && a in s.attempts && s.attempts[a].delivery == d
    ensures Without(s, Settled(s, a, confirm), a, d)
  {
    SettledElsewhere(s, a, confirm, d);
    hide SameElsewhere;
  }

  lemma SettledElsewhere(s: State, a: AttemptId, confirm: bool, d: DeliveryId)
    requires a in s.attempts && s.attempts[a].delivery == d
    ensures SameElsewhere(s, Settled(s, a, confirm), d) && Settled(s, a, confirm).threads == s.threads
  {
    SettledOthers(s, a, confirm);
    SettledDeferred(s, a, confirm, d);
    hide Settled;
  }

  lemma SettledOthers(s: State, a: AttemptId, confirm: bool)
    requires a in s.attempts
    ensures var s' := Settled(s, a, confirm);
            && s'.attempts.Keys == s.attempts.Keys && s'.attempts[a].delivery == s.attempts[a].delivery
            && (forall b | b in s.attempts && b != a :: s'.attempts[b] == s.attempts[b])
  {
  }

  lemma SettledDeferred(s: State, a: AttemptId, confirm: bool, d: DeliveryId)
    requires a in s.attempts && s.attempts[a].delivery == d
    ensures var s' := Settled(s, a, confirm);
            && s'.threads == s.threads && s'.receipts == s.receipts && s'.remembered == s.remembered
            && (forall e | e != d :: (e in s.deferred <==> e in s'.deferred) && (e in s.deferred ==> s.deferred[e] == s'.deferred[e]))
  {
  }

  lemma SettledAttempts(s: State, a: AttemptId, confirm: bool, d: DeliveryId)
    requires AttemptsOk(s, d) && a in s.attempts && s.attempts[a].delivery == d
    requires s.attempts[a].status.Unsettled? ==> (confirm <==> d in s.receipts)
    ensures AttemptsOk(Settled(s, a, confirm), d)
  {
    var s' := Settled(s, a, confirm);
    if s.attempts[a].status.Unsettled? {
      assert d in s.receipts ==> s.receipts[d] == a;
      forall b | b in s'.attempts
        ensures b in s.attempts && s'.attempts[b] == (if b == a then s'.attempts[a] else s.attempts[b])
      {
      }
    }
  }

  lemma SettledGuards(s: State, a: AttemptId, confirm: bool)
    requires GuardsHeld(s)
    ensures GuardsHeld(Settled(s, a, confirm))
  {
    var s' := Settled(s, a, confirm);
    forall w | w in s'.guards
      ensures w in s.guards && s'.guards[w] == s.guards[w]
    {
    }
  }

  /** Moving a call from a phase that takes no guards to another leaves the guards alone. */
  lemma MovedGuards(s: State, t: ThreadId, phase: Phase)
    requires GuardsHeld(s) && t in s.threads && !s.threads[t].phase.Taking? && !phase.Taking?
    ensures GuardsHeld(Moved(s, t, phase))
  {
  }

  /** A call that only looks keeps its delivery in order. */
  lemma LooksOk(s: State, t: ThreadId, phase: Phase)
    requires Inv(s) && t in s.threads && PastGate(s.threads[t].phase) && PastGate(phase)
    requires !s.threads[t].phase.Taking? && !phase.Taking? && Owned(phase) == Owned(s.threads[t].phase)
    requires Knows(Moved(s, t, phase), s.threads[t].delivery)
    ensures Inv(Moved(s, t, phase))
  {
    hide Inv, GuardsHeld, AttemptsOk, NoneLost, Knows, LocksHeld;
    WorkingHere(s, t);
    MovedGuards(s, t, phase);
    MovedAttempts(s, t, phase, s.threads[t].delivery);
    LooksNoneLost(s, t, phase);
    InsideStep(s, Moved(s, t, phase), t);
  }

  lemma LooksNoneLost(s: State, t: ThreadId, phase: Phase)
    requires t in s.threads && NoneLost(s, s.threads[t].delivery) && Working(s, s.threads[t].delivery) == Some(s.threads[t])
    requires Owned(phase) == Owned(s.threads[t].phase)
    requires s.threads[t].delivery in s.gates && s.gates[s.threads[t].delivery] == t
    ensures NoneLost(Moved(s, t, phase), s.threads[t].delivery)
  {
  }

  lemma ReadFirstOk(s: State, t: ThreadId, lookup: Lookup)
    requires Inv(s) && t in s.threads
    ensures Inv(ReadFirst(s, t, lookup))
  {
    var d := s.threads[t].delivery;
    if s.threads[t].phase.Reading? {
      LooksOk(s, t, if lookup.Unreadable? || (d in s.receipts && lookup.Mismatched?) then Leaving else Resolving(d in s.receipts));
    }
  }

  lemma PrepareFailedOk(s: State, t: ThreadId)
    requires Inv(s) && t in s.threads
    ensures Inv(PrepareFailed(s, t))
  {
    if s.threads[t].phase.Preparing? {
      LooksOk(s, t, Leaving);
    }
  }

  lemma ReadAfterOk(s: State, t: ThreadId, lookup: Lookup)
    requires Inv(s) && t in s.threads
    ensures Inv(ReadAfter(s, t, lookup))
  {
    var p, d := s.threads[t].phase, s.threads[t].delivery;
    if p.Uncertain? {
      WorkingHere(s, t);
      LooksOk(s, t, Deciding(p.attempt,
        if lookup.Unreadable? || (d in s.receipts && lookup.Mismatched?) then ToRemember
        else if d in s.receipts then ToConfirm else ToAbort));
    }
  }

  /** A call that settles one attempt of its delivery, rightly, and then knows what the next
      phase requires. */
  lemma SettlesOk(s: State, t: ThreadId, a: AttemptId, confirm: bool, phase: Phase)
    requires Inv(s) && t in s.threads && PastGate(s.threads[t].phase) && PastGate(phase)
    requires !s.threads[t].phase.Taking? && !phase.Taking? && Owned(phase).None?
    requires a in s.attempts && s.attempts[a].delivery == s.threads[t].delivery
    requires s.attempts[a].status.Unsettled? ==> (confirm <==> s.threads[t].delivery in s.receipts)
    requires Owned(s.threads[t].phase).Some? ==> Owned(s.threads[t].phase).value == a
    requires t in Settled(s, a, confirm).threads && Knows(Moved(Settled(s, a, confirm), t, phase), s.threads[t].delivery)
    ensures Inv(Moved(Settled(s, a, confirm), t, phase))
  {
    hide Inv, GuardsHeld, Settled, AttemptsOk, NoneLost, Knows, LocksHeld, Without;
    var d, s1 := s.threads[t].delivery, Settled(s, a, confirm);
    SettledElsewhere(s, a, confirm, d);
    var s' := Moved(s1, t, phase);
    WorkingHere(s, t);
    SettledOk(s, a, confirm, d);
    WithoutInside(s, s1, t, a, phase);
    MovedGuards(s1, t, phase);
    MovedAttempts(s1, t, phase, d);
    SettledNoneLost(s, s1, t, a, phase);
    InsideStep(s, s', t);
  }

  /** The call past the gate is the one that works on its delivery. */
  lemma WorkingHere(s: State, t: ThreadId)
    requires Inv(s) && t in s.threads && PastGate(s.threads[t].phase)
    ensures DeliveryOk(s, s.threads[t].delivery) && GuardsHeld(s)
    ensures Working(s, s.threads[t].delivery) == Some(s.threads[t])
    ensures s.threads[t].delivery in s.gates && s.gates[s.threads[t].delivery] == t
  {
    assert HoldsLocks(s, t, s.threads[t]);
  }

  lemma WithoutInside(s: State, s1: State, t: ThreadId, a: AttemptId, phase: Phase)
    requires t in s.threads && PastGate(s.threads[t].phase) && PastGate(phase) && Without(s, s1, a, s.threads[t].delivery)
    ensures Inside(s, Moved(s1, t, phase), t)
  {
  }

  lemma MovedAttempts(s: State, t: ThreadId, phase: Phase, d: DeliveryId)
    requires t in s.threads && AttemptsOk(s, d)
    ensures AttemptsOk(Moved(s, t, phase), d)
  {
  }

  lemma SettledNoneLost(s: State, s1: State, t: ThreadId, a: AttemptId, phase: Phase)
    requires t in s.threads && Without(s, s1, a, s.threads[t].delivery) && NoneLost(s, s.threads[t].delivery)
    requires Working(s, s.threads[t].delivery) == Some(s.threads[t])
    requires Owned(s.threads[t].phase).Some? ==> Owned(s.threads[t].phase).value == a
    ensures NoneLost(Moved(s1, t, phase), s.threads[t].delivery)
  {
  }

  lemma ResolvedOwnOk(s: State, t: ThreadId)
    requires Inv(s) && t in s.threads
    ensures Inv(ResolvedOwn(s, t))
  {
    hide Inv, GuardsHeld, Settled, NoneLost, LocksHeld;
    var th := s.threads[t];
    var d, f := th.delivery, FlightOf(th);
    if th.phase.Resolving? {
      var s1, found := s.(remembered := s.remembered - {f}), th.phase.found;
      WorkingHere(s, t);
      ForgottenOk(s, f);
      if f in s.remembered {
        var a := s.remembered[f];
        SettledWithout(s1, a, found, d);
        SettlesOk(s1, t, a, found, ResolvingShared(found));
      } else {
        LooksOk(s1, t, ResolvingShared(found));
      }
    }
  }

  lemma ForgottenOk(s: State, f: Flight)
    requires Inv(s)
    ensures Inv(s.(remembered := s.remembered - {f}))
  {
    var s' := s.(remembered := s.remembered - {f});
    SameLocks(s, s');
    assert GuardsHeld(s');
    hide LocksHeld, GuardsHeld;
    forall d
      ensures DeliveryOk(s', d)
    {
      assert DeliveryOk(s, d);
      ForgottenAt(s, f, d);
    }
  }

  lemma SameLocks(s: State, s': State)
    requires LocksHeld(s) && s'.threads == s.threads && s'.flights == s.flights && s'.gates == s.gates
    ensures LocksHeld(s')
  {
    forall t | t in s.threads
      ensures HoldsLocks(s', t, s.threads[t])
    {
      assert HoldsLocks(s, t, s.threads[t]);
    }
    forall f
      ensures FlightHeld(s', f)
    {
      assert FlightHeld(s, f);
    }
    forall d
      ensures GateHeld(s', d)
    {
      assert GateHeld(s, d);
    }
  }

  lemma ForgottenAt(s: State, f: Flight, d: DeliveryId)
    requires DeliveryOk(s, d)
    ensures DeliveryOk(s.(remembered := s.remembered - {f}), d)
  {
    assert AttemptsOk(s.(remembered := s.remembered - {f}), d);
    assert Working(s.(remembered := s.remembered - {f}), d) == Working(s, d);
  }

  lemma ResolvedSharedOk(s: State, t: ThreadId)
    requires Inv(s) && t in s.threads
    ensures Inv(ResolvedShared(s, t))
  {
    hide Inv, GuardsHeld, Settled, NoneLost, LocksHeld;
    var th := s.threads[t];
    var d := th.delivery;
    if th.phase.ResolvingShared? {
      WorkingHere(s, t);
      var next := if th.phase.found then Leaving else Preparing;
      if d in s.deferred {
        SettledWithout(s, s.deferred[d], th.phase.found, d);
        SettlesOk(s, t, s.deferred[d], th.phase.found, next);
      } else {
        LooksOk(s, t, next);
      }
    }
  }

  lemma WriteFailedOk(s: State, t: ThreadId)
    requires Inv(s) && t in s.threads
    ensures Inv(WriteFailed(s, t))
  {
    var th := s.threads[t];
    if th.phase.Holding? {
      WorkingHere(s, t);
      SettlesOk(s, t, th.phase.attempt, false, Leaving);
    }
  }

  /** A call that takes or gives back guards keeps its delivery in order. */
  lemma GuardsOk(s: State, s': State, t: ThreadId)
    requires Inv(s) && t in s.threads && t in s'.threads
    requires var p, p' := s.threads[t].phase, s'.threads[t].phase;
             && (p.Preparing? || p.Taking?) && (p'.Preparing? || p'.Taking? || p'.Leaving?)
             && s' == Moved(s.(guards := s'.guards), t, p')
    requires GuardsHeld(s')
    ensures Inv(s')
  {
    hide Inv, GuardsHeld, LocksHeld, AttemptsOk, NoneLost;
    WorkingHere(s, t);
    var d := s.threads[t].delivery;
    SameAttempts(s, s.(guards := s'.guards), d);
    MovedAttempts(s.(guards := s'.guards), t, s'.threads[t].phase, d);
    LooksNoneLost(s.(guards := s'.guards), t, s'.threads[t].phase);
    assert Working(s', d) == Some(s'.threads[t]);
    InsideStep(s, s', t);
  }

  lemma SameAttempts(s: State, s': State, d: DeliveryId)
    requires s' == s.(guards := s'.guards) && AttemptsOk(s, d) && NoneLost(s, d)
    ensures AttemptsOk(s', d) && NoneLost(s', d)
  {
    assert Working(s', d) == Working(s, d);
  }

  lemma PrepareBegunOk(s: State, t: ThreadId, keys: seq<WindowKey>)
    requires Inv(s) && t in s.threads
    ensures Inv(PrepareBegun(s, t, keys))
  {
    if s.threads[t].phase.Preparing? && Ordered(keys) {
      GuardsOk(s, Moved(s, t, Taking(keys, 0)), t);
    }
  }

  lemma GuardTakenOk(s: State, t: ThreadId)
    requires Inv(s) && t in s.threads
    ensures Inv(GuardTaken(s, t))
  {
    var p := s.threads[t].phase;
    if p.Taking? && p.taken < |p.keys| && p.keys[p.taken] !in s.guards {
      GuardTakenGuards(s, t);
      hide GuardsHeld, Inv;
      GuardsOk(s, GuardTaken(s, t), t);
    }
  }

  lemma GuardTakenGuards(s: State, t: ThreadId)
    requires GuardsHeld(s) && t in s.threads
    ensures GuardsHeld(GuardTaken(s, t))
  {
    var p, s' := s.threads[t].phase, GuardTaken(s, t);
    if p.Taking? && p.taken < |p.keys| && p.keys[p.taken] !in s.guards {
      assert p.keys[..p.taken + 1] == p.keys[..p.taken] + [p.keys[p.taken]];
      var w := p.keys[p.taken];
      assert w in p.keys[..p.taken + 1];
      forall v | v in s'.guards
        ensures v == w || (v in s.guards && s'.guards[v] == s.guards[v])
      {
      }
    }
  }

  lemma ReleasedGuards(s: State, t: ThreadId, phase: Phase)
    requires GuardsHeld(s) && t in s.threads && s.threads[t].phase.Taking? && !phase.Taking?
    ensures GuardsHeld(Moved(s.(guards := Released(s.guards, ByThread(t))), t, phase))
  {
  }

  lemma PassedAgainOk(s: State, t: ThreadId)
    requires Inv(s) && t in s.threads
    ensures Inv(PassedAgain(s, t))
  {
    if s.threads[t].phase.Taking? {
      ReleasedGuards(s, t, Preparing);
      GuardsOk(s, PassedAgain(s, t), t);
    }
  }

  lemma CancelledOk(s: State, t: ThreadId)
    requires Inv(s) && t in s.threads
    ensures Inv(Cancelled(s, t))
  {
    match s.threads[t].phase {
      case Following(_) => OutsideOk(s, t, Done);
      case AtGate => OutsideOk(s, t, LeavingFlight);
      case Taking(_, _) =>
        ReleasedGuards(s, t, Leaving);
        GuardsOk(s, Cancelled(s, t), t);
      case _ =>
    }
  }

  /** A call outside the gate moves without touching any delivery. */
  lemma OutsideOk(s: State, t: ThreadId, phase: Phase)
    requires Inv(s) && t in s.threads && !PastGate(s.threads[t].phase) && !PastGate(phase)
    requires Leads(s.threads[t].phase) == Leads(phase)
    ensures Inv(Moved(s, t, phase))
  {
    OutsideLocks(s, t, phase);
    hide GuardsHeld, DeliveryOk, LocksHeld, SameView;
    LocksOk(s, Moved(s, t, phase), t);
  }

  lemma OutsideLocks(s: State, t: ThreadId, phase: Phase)
    requires LocksHeld(s) && t in s.threads && !PastGate(s.threads[t].phase) && !PastGate(phase)
    requires Leads(s.threads[t].phase) == Leads(phase)
    ensures LocksHeld(Moved(s, t, phase)) && forall d :: SameView(s, Moved(s, t, phase), d)
  {
    var s' := Moved(s, t, phase);
    forall u | u in s'.threads
      ensures HoldsLocks(s', u, s'.threads[u])
    {
      assert HoldsLocks(s, u, s.threads[u]);
    }
    forall f
      ensures FlightHeld(s', f)
    {
      assert FlightHeld(s, f);
    }
    forall d
      ensures GateHeld(s', d) && SameView(s, s', d)
    {
      assert GateHeld(s, d);
    }
  }

  /** Deliveries do not see the calls outside their gate. */
  lemma OutsideAt(s: State, s': State, t: ThreadId, d: DeliveryId)
    requires DeliveryOk(s, d)
    requires s'.attempts == s.attempts && s'.deferred == s.deferred && s'.receipts == s.receipts && s'.remembered == s.remembered
    requires SameView(s, s', d)
    ensures DeliveryOk(s', d)
  {
    assert AttemptsOk(s', d);
  }

  lemma ReservedOk(s: State, t: ThreadId, a: AttemptId)
    requires Inv(s) && t in s.threads
    ensures Inv(Reserved(s, t, a))
  {
    var p := s.threads[t].phase;
    if p.Taking? && |p.keys| <= p.taken && a !in s.attempts {
      var s', d := Reserved(s, t, a), s.threads[t].delivery;
      WorkingHere(s, t);
      ReservedGuards(s, t, a);
      ReservedAttempts(s, t, a);
      ReservedInside(s, t, a);
      hide GuardsHeld, Inv, LocksHeld, AttemptsOk, NoneLost, Knows, Inside, Reserved;
      InsideStep(s, s', t);
    }
  }

  lemma ReservedInside(s: State, t: ThreadId, a: AttemptId)
    requires t in s.threads && s.threads[t].phase.Taking? && |s.threads[t].phase.keys| <= s.threads[t].phase.taken
    requires a !in s.attempts && DeliveryOk(s, s.threads[t].delivery) && Working(s, s.threads[t].delivery) == Some(s.threads[t])
    requires s.threads[t].delivery in s.gates && s.gates[s.threads[t].delivery] == t
    ensures var s' := Reserved(s, t, a);
            Inside(s, s', t) && NoneLost(s', s.threads[t].delivery) && Knows(s', s.threads[t].delivery)
  {
    hide AttemptsOk, HandedOver;
    var s' := Reserved(s, t, a);
    assert Working(s', s.threads[t].delivery) == Some(s'.threads[t]);
  }

  lemma ReservedAttempts(s: State, t: ThreadId, a: AttemptId)
    requires t in s.threads && s.threads[t].phase.Taking? && |s.threads[t].phase.keys| <= s.threads[t].phase.taken
    requires a !in s.attempts && AttemptsOk(s, s.threads[t].delivery) && s.threads[t].delivery !in s.receipts
    ensures AttemptsOk(Reserved(s, t, a), s.threads[t].delivery)
  {
  }

  lemma ReservedGuards(s: State, t: ThreadId, a: AttemptId)
    requires GuardsHeld(s) && t in s.threads && s.threads[t].phase.Taking? && a !in s.attempts
    requires |s.threads[t].phase.keys| <= s.threads[t].phase.taken
    ensures GuardsHeld(Reserved(s, t, a))
  {
    var s', p := Reserved(s, t, a), s.threads[t].phase;
    assert p.keys[..Taken(p)] == p.keys;
    forall w | w in s'.guards
      ensures w in s.guards && s'.guards[w] == (if s.guards[w] == ByThread(t) then ByAttempt(a) else s.guards[w])
    {
    }
  }

  lemma CommitReturnedOk(s: State, t: ThreadId, happened: bool, known: bool)
    requires Inv(s) && t in s.threads
    ensures Inv(CommitReturned(s, t, happened, known))
  {
    var p := s.threads[t].phase;
    if p.Holding? && p.attempt in s.attempts {
      var s', d := CommitReturned(s, t, happened, known), s.threads[t].delivery;
      WorkingHere(s, t);
      CommitAttempts(s, t, happened, known);
      CommitGuards(s, t, happened, known);
      CommitInside(s, t, happened, known);
      hide GuardsHeld, Inv, LocksHeld, AttemptsOk, NoneLost, Knows, Inside, CommitReturned;
      InsideStep(s, s', t);
    }
  }

  lemma CommitInside(s: State, t: ThreadId, happened: bool, known: bool)
    requires t in s.threads && s.threads[t].phase.Holding? && s.threads[t].phase.attempt in s.attempts
    requires DeliveryOk(s, s.threads[t].delivery) && Working(s, s.threads[t].delivery) == Some(s.threads[t])
    requires s.threads[t].delivery in s.gates && s.gates[s.threads[t].delivery] == t
    ensures var s' := CommitReturned(s, t, happened, known);
            Inside(s, s', t) && NoneLost(s', s.threads[t].delivery) && Knows(s', s.threads[t].delivery)
  {
    hide AttemptsOk;
    var s', d := CommitReturned(s, t, happened, known), s.threads[t].delivery;
    forall b | b in s'.attempts && b != s.threads[t].phase.attempt
      ensures b in s.attempts && s'.attempts[b] == s.attempts[b]
    {
    }
    assert SameElsewhere(s, s', d);
    hide SameElsewhere, Knows;
    CommitKnown(s, t, happened, known);
  }

  lemma CommitKnown(s: State, t: ThreadId, happened: bool, known: bool)
    requires t in s.threads && s.threads[t].phase.Holding? && s.threads[t].phase.attempt in s.attempts
    requires Knows(s, s.threads[t].delivery) && Working(s, s.threads[t].delivery) == Some(s.threads[t])
    requires s.threads[t].delivery in s.gates && s.gates[s.threads[t].delivery] == t
    ensures Knows(CommitReturned(s, t, happened, known), s.threads[t].delivery)
  {
    var s' := CommitReturned(s, t, happened, known);
    assert Working(s', s.threads[t].delivery) == Some(s'.threads[t]);
  }

  lemma CommitAttempts(s: State, t: ThreadId, happened: bool, known: bool)
    requires t in s.threads && s.threads[t].phase.Holding?
    requires AttemptsOk(s, s.threads[t].delivery) && NoneLost(s, s.threads[t].delivery)
    requires Owns(s, s.threads[t], s.threads[t].phase.attempt) && s.threads[t].delivery !in s.receipts
    requires Working(s, s.threads[t].delivery) == Some(s.threads[t])
    ensures AttemptsOk(CommitReturned(s, t, happened, known), s.threads[t].delivery)
  {
    var s', d, a := CommitReturned(s, t, happened, known), s.threads[t].delivery, s.threads[t].phase.attempt;
    forall b | b in s.attempts && s.attempts[b].delivery == d && s.attempts[b].status.Unsettled?
      ensures b == a
    {
    }
    forall b | b in s'.attempts && b != a
      ensures b in s.attempts && s'.attempts[b] == s.attempts[b]
    {
    }
  }

  lemma CommitGuards(s: State, t: ThreadId, happened: bool, known: bool)
    requires GuardsHeld(s) && t in s.threads
    ensures GuardsHeld(CommitReturned(s, t, happened, known))
  {
  }

  lemma ConcludedOk(s: State, t: ThreadId)
    requires Inv(s) && t in s.threads
    ensures Inv(Concluded(s, t))
  {
    var th := s.threads[t];
    if th.phase.Deciding? {
      WorkingHere(s, t);
      if th.phase.decision.ToRemember? {
        RememberedOk(s, t);
      } else {
        hide Inv, GuardsHeld, LocksHeld, Settled;
        SettledElsewhere(s, th.phase.attempt, th.phase.decision.ToConfirm?, th.delivery);
        SettlesOk(s, t, th.phase.attempt, th.phase.decision.ToConfirm?, Leaving);
      }
    }
  }

  /** rememberPending finds no earlier attempt in either register: it displaces nothing. */
  lemma RememberDisplacesNothing(s: State, t: ThreadId)
    requires Inv(s) && t in s.threads && s.threads[t].phase.Deciding?
    ensures FlightOf(s.threads[t]) !in s.remembered && s.threads[t].delivery !in s.deferred
    ensures var f, a := FlightOf(s.threads[t]), s.threads[t].phase.attempt;
            Remembered(s, f, a) == s.(deferred := s.deferred[f.delivery := a], remembered := s.remembered[f := a])
  {
    WorkingHere(s, t);
  }

  lemma RememberedOk(s: State, t: ThreadId)
    requires Inv(s) && t in s.threads && s.threads[t].phase.Deciding? && s.threads[t].phase.decision.ToRemember?
    ensures Inv(Moved(Remembered(s, FlightOf(s.threads[t]), s.threads[t].phase.attempt), t, Leaving))
  {
    var d, a, f := s.threads[t].delivery, s.threads[t].phase.attempt, FlightOf(s.threads[t]);
    RememberDisplacesNothing(s, t);
    WorkingHere(s, t);
    var s1 := s.(deferred := s.deferred[d := a], remembered := s.remembered[f := a]);
    RememberedInside(s, s1, t);
    MovedAttempts(s1, t, Leaving, d);
    assert GuardsHeld(s1);
    MovedGuards(s1, t, Leaving);
    hide GuardsHeld, Inv, LocksHeld, AttemptsOk, NoneLost, Knows, Inside, Remembered;
    InsideStep(s, Moved(s1, t, Leaving), t);
  }

  lemma RememberedInside(s: State, s1: State, t: ThreadId)
    requires t in s.threads && s.threads[t].phase.Deciding? && DeliveryOk(s, s.threads[t].delivery)
    requires Working(s, s.threads[t].delivery) == Some(s.threads[t])
    requires s.threads[t].delivery in s.gates && s.gates[s.threads[t].delivery] == t
    requires var d, a, f := s.threads[t].delivery, s.threads[t].phase.attempt, FlightOf(s.threads[t]);
             s1 == s.(deferred := s.deferred[d := a], remembered := s.remembered[f := a])
    ensures AttemptsOk(s1, s.threads[t].delivery)
    ensures var s' := Moved(s1, t, Leaving);
            Inside(s, s', t) && NoneLost(s', s.threads[t].delivery) && Knows(s', s.threads[t].delivery)
  {
    assert s.threads[t].phase.attempt in s.attempts;
  }

  /** A step that concerns only flights and gates keeps the rest. */
  lemma LocksOk(s: State, s': State, t: ThreadId)
    requires Inv(s) && LocksHeld(s')
    requires s' == s.(threads := s'.threads, flights := s'.flights, gates := s'.gates)
    requires t in s'.threads && s'.threads == s.threads[t := s'.threads[t]] && !s'.threads[t].phase.Taking?
    requires t in s.threads ==> !s.threads[t].phase.Taking? && s'.threads[t].delivery == s.threads[t].delivery
    requires forall d :: SameView(s, s', d)
    ensures Inv(s')
  {
    assert GuardsHeld(s');
    hide LocksHeld, GuardsHeld;
    forall d
      ensures DeliveryOk(s', d)
    {
      assert DeliveryOk(s, d) && SameView(s, s', d);
      hide DeliveryOk;
      OutsideAt(s, s', t, d);
    }
  }

  /** The same call works on the delivery, or one has just entered or is about to leave. */
  ghost predicate SameView(s: State, s': State, d: DeliveryId) {
    || Working(s', d) == Working(s, d)
    || (Working(s, d).None? && Working(s', d).Some? && Working(s', d).value.phase.Reading?)
    || (Working(s', d).None? && Working(s, d).Some? && Working(s, d).value.phase.Leaving?)
  }

  lemma JoinedOk(s: State, t: ThreadId, c: CoordinatorId, d: DeliveryId)
    requires Inv(s)
    requires t in s.threads ==> s.threads[t].phase.Following? && s.threads[t].coordinator == c && s.threads[t].delivery == d
    ensures Inv(Joined(s, t, c, d))
  {
    JoinedLocks(s, t, c, d);
    hide GuardsHeld, DeliveryOk, LocksHeld, SameView;
    LocksOk(s, Joined(s, t, c, d), t);
  }

  lemma JoinedLocks(s: State, t: ThreadId, c: CoordinatorId, d: DeliveryId)
    requires LocksHeld(s)
    requires t in s.threads ==> s.threads[t].phase.Following? && s.threads[t].coordinator == c && s.threads[t].delivery == d
    ensures LocksHeld(Joined(s, t, c, d)) && forall e :: SameView(s, Joined(s, t, c, d), e)
  {
    hide HoldsLocks, FlightHeld, GateHeld, SameView;
    var s' := Joined(s, t, c, d);
    forall u | u in s'.threads
      ensures HoldsLocks(s', u, s'.threads[u])
    {
      assert u in s.threads ==> HoldsLocks(s, u, s.threads[u]);
      JoinedThread(s, t, c, d, u);
    }
    forall f
      ensures FlightHeld(s', f)
    {
      assert FlightHeld(s, f);
      JoinedFlight(s, t, c, d, f);
    }
    forall e
      ensures GateHeld(s', e) && SameView(s, s', e)
    {
      assert GateHeld(s, e);
      JoinedGate(s, t, c, d, e);
    }
  }

  lemma JoinedThread(s: State, t: ThreadId, c: CoordinatorId, d: DeliveryId, u: ThreadId)
    requires u in Joined(s, t, c, d).threads && (u in s.threads ==> HoldsLocks(s, u, s.threads[u]))
    ensures HoldsLocks(Joined(s, t, c, d), u, Joined(s, t, c, d).threads[u])
  {
  }

  lemma JoinedFlight(s: State, t: ThreadId, c: CoordinatorId, d: DeliveryId, f: Flight)
    requires FlightHeld(s, f) && (t in s.threads ==> s.threads[t].phase.Following?)
    ensures FlightHeld(Joined(s, t, c, d), f)
  {
  }

  lemma JoinedGate(s: State, t: ThreadId, c: CoordinatorId, d: DeliveryId, e: DeliveryId)
    requires GateHeld(s, e) && (t in s.threads ==> s.threads[t].phase.Following?)
    ensures GateHeld(Joined(s, t, c, d), e) && SameView(s, Joined(s, t, c, d), e)
  {
  }

  lemma EnteredOk(s: State, t: ThreadId)
    requires Inv(s) && t in s.threads
    ensures Inv(Entered(s, t))
  {
    if s.threads[t].phase.AtGate? && s.threads[t].delivery !in s.gates {
      var s' := Entered(s, t);
      assert HoldsLocks(s, t, s.threads[t]);
      EnteredLocks(s, t);
      hide GuardsHeld, DeliveryOk, LocksHeld, SameView;
      LocksOk(s, s', t);
    }
  }

  lemma EnteredLocks(s: State, t: ThreadId)
    requires LocksHeld(s) && t in s.threads && s.threads[t].phase.AtGate? && s.threads[t].delivery !in s.gates
    ensures LocksHeld(Entered(s, t)) && forall d :: SameView(s, Entered(s, t), d)
  {
    var s' := Entered(s, t);
    forall u | u in s'.threads
      ensures HoldsLocks(s', u, s'.threads[u])
    {
      assert HoldsLocks(s, u, s.threads[u]);
    }
    forall f
      ensures FlightHeld(s', f)
    {
      assert FlightHeld(s, f);
    }
    forall d
      ensures GateHeld(s', d) && SameView(s, s', d)
    {
      assert GateHeld(s, d);
    }
  }

  lemma GateReleasedOk(s: State, t: ThreadId)
    requires Inv(s) && t in s.threads
    ensures Inv(GateReleased(s, t))
  {
    if s.threads[t].phase.Leaving? {
      GateReleasedLocks(s, t);
      hide GuardsHeld, DeliveryOk, LocksHeld, SameView;
      LocksOk(s, GateReleased(s, t), t);
    }
  }

  lemma GateReleasedLocks(s: State, t: ThreadId)
    requires LocksHeld(s) && t in s.threads && s.threads[t].phase.Leaving?
    ensures LocksHeld(GateReleased(s, t)) && forall d :: SameView(s, GateReleased(s, t), d)
  {
    var s' := GateReleased(s, t);
    assert HoldsLocks(s, t, s.threads[t]);
    forall u | u in s'.threads
      ensures HoldsLocks(s', u, s'.threads[u])
    {
      assert HoldsLocks(s, u, s.threads[u]);
    }
    forall f
      ensures FlightHeld(s', f)
    {
      assert FlightHeld(s, f);
    }
    forall d
      ensures GateHeld(s', d) && SameView(s, s', d)
    {
      assert GateHeld(s, d);
    }
  }

  lemma FlightReleasedOk(s: State, t: ThreadId)
    requires Inv(s) && t in s.threads
    ensures Inv(FlightReleased(s, t))
  {
    if s.threads[t].phase.LeavingFlight? {
      FlightReleasedLocks(s, t);
      hide GuardsHeld, DeliveryOk, LocksHeld, SameView;
      LocksOk(s, FlightReleased(s, t), t);
    }
  }

  lemma FlightReleasedLocks(s: State, t: ThreadId)
    requires LocksHeld(s) && t in s.threads && s.threads[t].phase.LeavingFlight?
    ensures LocksHeld(FlightReleased(s, t)) && forall d :: SameView(s, FlightReleased(s, t), d)
  {
    var s' := FlightReleased(s, t);
    assert HoldsLocks(s, t, s.threads[t]);
    forall u | u in s'.threads
      ensures HoldsLocks(s', u, s'.threads[u])
    {
      assert HoldsLocks(s, u, s.threads[u]);
    }
    forall f
      ensures FlightHeld(s', f)
    {
      assert FlightHeld(s, f);
    }
    forall d
      ensures GateHeld(s', d) && SameView(s, s', d)
    {
      assert GateHeld(s, d);
    }
  }

  /** Every step of every call keeps the invariant. */
  lemma StepOk(s: State, t: ThreadId, action: Action)
    requires Inv(s)
    ensures Inv(Step(s, t, action))
  {
    hide Inv, Joined, Rejoined, Cancelled, Entered, ReadFirst, ResolvedOwn, ResolvedShared, PrepareBegun, PrepareFailed,
         GuardTaken, PassedAgain, Reserved, WriteFailed, CommitReturned, ReadAfter, Concluded, GateReleased, FlightReleased;
    if t !in s.threads {
      if action.Start? {
        JoinedOk(s, t, action.coordinator, action.delivery);
      }
    } else {
      match action {
        case Start(_, _) =>
        case Retry => RejoinedOk(s, t);
        case Cancel => CancelledOk(s, t);
        case EnterGate => EnteredOk(s, t);
        case ReadReceipt(lookup) => ReadFirstOk(s, t, lookup);
        case ResolveRemembered => ResolvedOwnOk(s, t);
        case ResolveDeferred => ResolvedSharedOk(s, t);
        case BeginPrepare(keys) => PrepareBegunOk(s, t, keys);
        case PrepareFails => PrepareFailedOk(s, t);
        case TakeGuard => GuardTakenOk(s, t);
        case PassAgain => PassedAgainOk(s, t);
        case Reserve(a) => ReservedOk(s, t, a);
        case WriteFails => WriteFailedOk(s, t);
        case Commit(happened, known) => CommitReturnedOk(s, t, happened, known);
        case ReadBack(lookup) => ReadAfterOk(s, t, lookup);
        case Settle => ConcludedOk(s, t);
        case ReleaseGate => GateReleasedOk(s, t);
        case ReleaseFlight => FlightReleasedOk(s, t);
      }
    }
  }

  lemma RejoinedOk(s: State, t: ThreadId)
    requires Inv(s) && t in s.threads
    ensures Inv(Rejoined(s, t))
  {
    var th := s.threads[t];
    if th.phase.Following? && !(FlightOf(th) in s.flights && s.flights[FlightOf(th)] == th.phase.leader) {
      JoinedOk(s, t, th.coordinator, th.delivery);
    }
  }

  lemma {:induction false} RunOk(moves: seq<Move>)
    ensures Inv(Run(moves))
  {
    if moves != [] {
      var n := |moves| - 1;
      RunOk(moves[..n]);
      StepOk(Run(moves[..n]), moves[n].thread, moves[n].action);
    }
  }

  // ----- what every run promises

  /** At most one transaction commits per delivery. */
  lemma AtMostOneCommit(moves: seq<Move>, a: AttemptId, b: AttemptId)
    requires var s := Run(moves);
             && a in s.attempts && b in s.attempts && s.attempts[a].delivery == s.attempts[b].delivery
             && s.attempts[a].committed && s.attempts[b].committed
    ensures a == b
  {
    RunOk(moves);
    assert DeliveryOk(Run(moves), Run(moves).attempts[a].delivery);
  }

  /** A reservation is confirmed only if its transaction committed, and aborted only if it
      did not. */
  lemma SettledAsCommitted(moves: seq<Move>, a: AttemptId)
    requires a in Run(moves).attempts && !Run(moves).attempts[a].status.Unsettled?
    ensures Run(moves).attempts[a].status.Confirmed? <==> Run(moves).attempts[a].committed
  {
    RunOk(moves);
    assert DeliveryOk(Run(moves), Run(moves).attempts[a].delivery);
  }

  /** Whatever path a call returned by, its reservation is settled or registered: an
      unsettled one is deferred with the ledger or still owned by a call at work. */
  lemma NothingIsLost(moves: seq<Move>, a: AttemptId)
    requires a in Run(moves).attempts && Run(moves).attempts[a].status.Unsettled?
    ensures var s, d := Run(moves), Run(moves).attempts[a].delivery;
            || (d in s.deferred && s.deferred[d] == a)
            || (exists t :: t in s.threads && s.threads[t].delivery == d && Owned(s.threads[t].phase) == Some(a))
  {
    RunOk(moves);
    var s, d := Run(moves), Run(moves).attempts[a].delivery;
    assert DeliveryOk(s, d) && GateHeld(s, d);
    if !(d in s.deferred && s.deferred[d] == a) {
      assert s.gates[d] in s.threads;
    }
  }

  /** In no run does rememberPending displace an attempt. */
  lemma NeverDisplaces(moves: seq<Move>, t: ThreadId)
    requires t in Run(moves).threads && Run(moves).threads[t].phase.Deciding?
    ensures FlightOf(Run(moves).threads[t]) !in Run(moves).remembered && Run(moves).threads[t].delivery !in Run(moves).deferred
  {
    RunOk(moves);
    RememberDisplacesNothing(Run(moves), t);
  }

  // ----- waiting

  /** The call's next step is blocked. */
  predicate Waiting(s: State, t: ThreadId)
    requires t in s.threads
  {
    var th := s.threads[t];
    match th.phase
    case Following(leader) => FlightOf(th) in s.flights && s.flights[FlightOf(th)] == leader
    case AtGate => th.delivery in s.gates
    case Taking(keys, n) => n < |keys| && keys[n] in s.guards
    case _ => false
  }

  /** `t` waits for something that call `u` holds, itself or through its attempt. */
  ghost predicate WaitsFor(s: State, t: ThreadId, u: ThreadId)
    requires t in s.threads
  {
    Waiting(s, t) && u in s.threads &&
    var th := s.threads[t];
    match th.phase
    case Following(leader) => u == leader
    case AtGate => s.gates[th.delivery] == u
    case Taking(keys, n) =>
      s.guards[keys[n]] == ByThread(u) ||
      (s.guards[keys[n]].ByAttempt? && Owned(s.threads[u].phase) == Some(s.guards[keys[n]].attempt))
    case _ => false
  }

  /** `t` waits for the guard of an attempt that is deferred, and so waits for nobody. */
  ghost predicate WaitsForDeferred(s: State, t: ThreadId)
    requires t in s.threads
  {
    Waiting(s, t) && s.threads[t].phase.Taking? &&
    var h := s.guards[s.threads[t].phase.keys[s.threads[t].phase.taken]];
    h.ByAttempt? && h.attempt in s.attempts &&
    var d := s.attempts[h.attempt].delivery;
    d in s.deferred && s.deferred[d] == h.attempt
  }

  /** Followers come before gate waiters, those before guard waiters in the order of the
      guards, and those before calls that wait for nothing. */
  ghost predicate Earlier(p: Phase, q: Phase) {
    match p
    case Following(_) => !q.Following?
    case AtGate => !q.Following? && !q.AtGate?
    case Taking(keys, n) =>
      && !q.Following? && !q.AtGate?
      && (n < |keys| && q.Taking? && q.taken < |q.keys| ==> KeyBefore(keys[n], q.keys[q.taken]))
    case _ => false
  }

  /** Whoever is waited for comes later. */
  lemma WaitedForIsLater(s: State, t: ThreadId, u: ThreadId)
    requires Inv(s) && t in s.threads && WaitsFor(s, t, u)
    ensures Earlier(s.threads[t].phase, s.threads[u].phase)
  {
    var th := s.threads[t];
    match th.phase {
      case Following(_) => assert FlightHeld(s, FlightOf(th));
      case AtGate => assert GateHeld(s, th.delivery);
      case Taking(keys, n) =>
        if s.guards[keys[n]].ByThread? {
          var p := s.threads[u].phase;
          var i :| 0 <= i < p.taken && p.keys[i] == keys[n];
        }
      case _ =>
    }
  }

  lemma EarlierThrough(p: Phase, q: Phase, r: Phase)
    requires Earlier(p, q) && Earlier(q, r) && (q.Taking? ==> q.taken < |q.keys|)
    ensures Earlier(p, r)
  {
    if p.Taking? && q.Taking? && r.Taking? && p.taken < |p.keys| && r.taken < |r.keys| {
      KeyOrder(p.keys[p.taken], q.keys[q.taken], r.keys[r.taken]);
    }
  }

  /** A chain of calls, each waiting for the next. */
  ghost predicate WaitChain(s: State, chain: seq<ThreadId>) {
    && 2 <= |chain|
    && (forall i | 0 <= i < |chain| :: chain[i] in s.threads)
    && (forall i | 0 <= i < |chain| - 1 :: WaitsFor(s, chain[i], chain[i + 1]))
  }

  lemma {:induction false} ChainIsLater(s: State, chain: seq<ThreadId>)
    requires Inv(s) && WaitChain(s, chain)
    ensures Earlier(s.threads[chain[0]].phase, s.threads[chain[|chain| - 1]].phase)
  {
    var n := |chain| - 1;
    assert WaitsFor(s, chain[n - 1], chain[n]);
    WaitedForIsLater(s, chain[n - 1], chain[n]);
    if 2 < |chain| {
      var rest := chain[..n];
      forall i | 0 <= i < |rest| - 1
        ensures WaitsFor(s, rest[i], rest[i + 1])
      {
        assert WaitsFor(s, chain[i], chain[i + 1]);
      }
      ChainIsLater(s, rest);
      EarlierThrough(s.threads[chain[0]].phase, s.threads[chain[n - 1]].phase, s.threads[chain[n]].phase);
    }
  }

  /** In no run is there a cycle of calls waiting for each other. */
  lemma NoWaitCycle(moves: seq<Move>, chain: seq<ThreadId>)
    requires WaitChain(Run(moves), chain)
    ensures chain[0] != chain[|chain| - 1]
  {
    RunOk(moves);
    var s := Run(moves);
    ChainIsLater(s, chain);
    assert WaitsFor(s, chain[0], chain[1]);
    var p := s.threads[chain[0]].phase;
    if p.Taking? {
      KeyOrder(p.keys[p.taken], p.keys[p.taken], p.keys[p.taken]);
    }
  }

  /** A waiting call waits for a call that has not returned, or for a deferred attempt. */
  lemma WaitHasReason(s: State, t: ThreadId) returns (u: ThreadId)
    requires Inv(s) && t in s.threads && Waiting(s, t)
    ensures WaitsForDeferred(s, t) || (u in s.threads && WaitsFor(s, t, u) && !s.threads[u].phase.Done?)
  {
    var th := s.threads[t];
    u := t;
    match th.phase {
      case Following(leader) =>
        assert FlightHeld(s, FlightOf(th));
        u := leader;
      case AtGate =>
        assert GateHeld(s, th.delivery);
        u := s.gates[th.delivery];
      case Taking(keys, n) =>
        var h := s.guards[keys[n]];
        if h.ByThread? {
          u := h.thread;
        } else {
          var d := s.attempts[h.attempt].delivery;
          assert DeliveryOk(s, d) && GateHeld(s, d);
          if !(d in s.deferred && s.deferred[d] == h.attempt) {
            u := s.gates[d];
          }
        }
      case _ =>
    }
  }

  /** So following the waits of any call leads to one that can move, or to one that waits
      only for a deferred attempt: the system is never stuck on its own locks. */
  lemma {:induction false} WaitEnds(s: State, t: ThreadId, seen: set<ThreadId>) returns (u: ThreadId)
    requires Inv(s) && t in s.threads && !s.threads[t].phase.Done? && seen <= s.threads.Keys && t !in seen
    requires forall v | v in seen :: Waiting(s, v) && Earlier(s.threads[v].phase, s.threads[t].phase)
    ensures u in s.threads && !s.threads[u].phase.Done? && (!Waiting(s, u) || WaitsForDeferred(s, u))
    decreases s.threads.Keys - seen
  {
    if !Waiting(s, t) {
      return t;
    }
    var next := WaitHasReason(s, t);
    if WaitsForDeferred(s, t) {
      return t;
    }
    WaitedForIsLater(s, t, next);
    forall v | v in seen
      ensures Earlier(s.threads[v].phase, s.threads[next].phase)
    {
      EarlierThrough(s.threads[v].phase, s.threads[t].phase, s.threads[next].phase);
    }
    NeverEarlierThanItself(s, next, t);
    forall v | v in seen
      ensures v != next
    {
      NeverEarlierThanItself(s, next, v);
    }
    u := WaitEnds(s, next, seen + {t});
  }

  lemma NeverEarlierThanItself(s: State, next: ThreadId, v: ThreadId)
    requires v in s.threads && next in s.threads && Waiting(s, v) && Earlier(s.threads[v].phase, s.threads[next].phase)
    ensures v != next
  {
    var p := s.threads[v].phase;
    if p.Taking? && v == next {
      KeyOrder(p.keys[p.taken], p.keys[p.taken], p.keys[p.taken]);
    }
  }
}
