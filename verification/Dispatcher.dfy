/** The keyed wakeup queue of the reconcile dispatcher (internal/reconcile/dispatcher.go):
    any number of Wake calls against the single worker, as an interleaving of their steps.
    Cancellation and shutdown of a Wake call are one step, possible wherever it waits. */
module Dispatcher {
  import opened Basics
  import opened ReconcileStore

  type CallId = nat
  type ReservationId = nat

  /** ReconcileKey: one failure domain. */
  type Key = Slot

  datatype Outcome = Open | Succeeded | Failed

  /** wakeReservation; `sent` says that its key went into the channel. */
  datatype Reservation = Reservation(key: Key, sent: bool, outcome: Outcome)

  datatype Phase =
    | Looking
    | Waiting(reservation: ReservationId)
    | Sending(reservation: ReservationId)
    | Closing(reservation: ReservationId, failed: bool)
    | Returned(woken: bool)

  /** One Wake call; `began` is when it was made. */
  datatype Call = Call(key: Key, began: nat, phase: Phase)

  datatype Worker = Idle | Took(key: Key) | Marked(key: Key) | Popped(key: Key)

  datatype State = State(
    capacity: nat,
    now: nat,
    channel: seq<Key>,
    queued: map<Key, ReservationId>,
    reservations: map<ReservationId, Reservation>,
    calls: map<CallId, Call>,
    ready: seq<Key>,
    worker: Worker,
    /** When the current Plan of a key was last read. */
    lastRead: map<Key, nat>)

  function Initial(capacity: nat): State {
    State(capacity, 0, [], map[], map[], map[], [], Idle, map[])
  }

  datatype Action =
    | Wake(call: CallId, wakes: Key)
    | Look(call: CallId, reservation: ReservationId)
    | Notice(call: CallId)
    | Cancel(call: CallId)
    | Send(call: CallId)
    | Close(call: CallId)
    | WorkerReceives
    | WorkerMarks
    | WorkerEnqueues
    | WorkerAdds(adds: Key)
    | WorkerPops
    | WorkerReadsPlan(rerun: bool)

  function Moved(s: State, t: CallId, p: Phase): map<CallId, Call>
    requires t in s.calls
  {
    s.calls[t := s.calls[t].(phase := p)]
  }

  /** A call looks up the key: it waits for an existing reservation or makes one. */
  function Looked(s: State, t: CallId, r: ReservationId): State
    requires t in s.calls
  {
    var k := s.calls[t].key;
    if !s.calls[t].phase.Looking? || (k !in s.queued && r in s.reservations) then s
    else
      s.(calls := Moved(s, t, if k in s.queued then Waiting(s.queued[k]) else Sending(r)),
         queued := if k in s.queued then s.queued else s.queued[k := r],
         reservations := if k in s.queued then s.reservations else s.reservations[r := Reservation(k, false, Open)])
  }

  /** A waiter sees its reservation closed. */
  function Noticed(s: State, t: CallId): State
    requires t in s.calls
  {
    var p := s.calls[t].phase;
    if !p.Waiting? || p.reservation !in s.reservations || s.reservations[p.reservation].outcome.Open? then s
    else s.(calls := Moved(s, t, if s.reservations[p.reservation].outcome.Succeeded? then Returned(true) else Looking))
  }

  function Cancelled(s: State, t: CallId): State
    requires t in s.calls
  {
    var p := s.calls[t].phase;
    s.(calls := if p.Waiting? then Moved(s, t, Returned(false))
                else if p.Sending? then Moved(s, t, Closing(p.reservation, true)) else s.calls)
  }

  function Sent(s: State, t: CallId): State
    requires t in s.calls
  {
    var p := s.calls[t].phase;
    if !p.Sending? || p.reservation !in s.reservations || s.capacity <= |s.channel| then s
    else
      s.(calls := Moved(s, t, Closing(p.reservation, false)), channel := s.channel + [s.calls[t].key],
         reservations := s.reservations[p.reservation := s.reservations[p.reservation].(sent := true)])
  }

  /** The sender publishes its outcome; a failure withdraws the reservation. */
  function Closed(s: State, t: CallId): State
    requires t in s.calls
  {
    var p, k := s.calls[t].phase, s.calls[t].key;
    if !p.Closing? || p.reservation !in s.reservations then s
    else
      s.(calls := Moved(s, t, Returned(!p.failed)),
         queued := if p.failed && k in s.queued && s.queued[k] == p.reservation then s.queued - {k} else s.queued,
         reservations := s.reservations[p.reservation :=
           s.reservations[p.reservation].(outcome := if p.failed then Failed else Succeeded)])
  }

  function Step(s0: State, action: Action): State {
    var s := s0.(now := s0.now + 1);
    match action
    case Wake(t, k) => s.(calls := if t in s.calls then s.calls else s.calls[t := Call(k, s.now, Looking)])
    case Look(t, r) => if t in s.calls then Looked(s, t, r) else s
    case Notice(t) => if t in s.calls then Noticed(s, t) else s
    case Cancel(t) => if t in s.calls then Cancelled(s, t) else s
    case Send(t) => if t in s.calls then Sent(s, t) else s
    case Close(t) => if t in s.calls then Closed(s, t) else s
    case WorkerReceives =>
      if s.worker.Idle? && s.channel != [] then s.(worker := Took(s.channel[0]), channel := s.channel[1..]) else s
    case WorkerMarks =>
      if s.worker.Took? then s.(worker := Marked(s.worker.key), queued := s.queued - {s.worker.key}) else s
    case WorkerEnqueues =>
      if s.worker.Marked? then s.(worker := Idle, ready := s.ready + [s.worker.key]) else s
    case WorkerAdds(k) => if s.worker.Idle? then s.(ready := s.ready + [k]) else s
    case WorkerPops =>
      if s.worker.Idle? && s.ready != [] then s.(worker := Popped(s.ready[0]), ready := s.ready[1..]) else s
    case WorkerReadsPlan(rerun) =>
      if s.worker.Popped?
      then s.(worker := Idle, lastRead := s.lastRead[s.worker.key := s.now],
              ready := if rerun then s.ready + [s.worker.key] else s.ready)
      else s
  }

  function Run(capacity: nat, actions: seq<Action>): State {
    if actions == [] then Initial(capacity)
    else Step(Run(capacity, actions[..|actions| - 1]), actions[|actions| - 1])
  }

  // ----- invariants

  /** A wakeup of `k` made at `began` is not lost: the key is still on its way to the
      worker's dispatch, or its Plan was read since. */
  ghost predicate Honoured(s: State, k: Key, began: nat) {
    || k in s.channel
    || s.worker == Took(k) || s.worker == Marked(k) || s.worker == Popped(k)
    || k in s.ready
    || (k in s.lastRead && began <= s.lastRead[k])
  }

  /** The key of a reservation that is in the channel or in the worker's hand, unmarked. */
  ghost predicate OnItsWay(s: State, k: Key) {
    k in s.channel || s.worker == Took(k)
  }

  /** Each channel entry belongs to the one reservation registered for its key, which has
      been sent; no key is in the channel twice, or again in the worker's hand. */
  ghost predicate ChannelOk(s: State) {
    && (forall k | OnItsWay(s, k) :: k in s.queued && s.queued[k] in s.reservations && s.reservations[s.queued[k]].sent)
    && (forall i, j | 0 <= i < j < |s.channel| :: s.channel[i] != s.channel[j])
    && (s.worker.Took? ==> s.worker.key !in s.channel)
  }

  /** A registered reservation is unsent or on its way. */
  ghost predicate QueuedOk(s: State) {
    forall k | k in s.queued ::
      && s.queued[k] in s.reservations && s.reservations[s.queued[k]].key == k
      && (s.reservations[s.queued[k]].sent ==> OnItsWay(s, k))
      && !s.reservations[s.queued[k]].outcome.Failed?
  }

  /** Only what was sent succeeds. */
  ghost predicate ReservationsOk(s: State) {
    forall r | r in s.reservations :: s.reservations[r].outcome.Succeeded? ==> s.reservations[r].sent
  }

  ghost predicate CallOk(s: State, t: CallId, c: Call) {
    c.began <= s.now &&
    match c.phase
    case Looking => true
    case Waiting(r) =>
      && r in s.reservations && s.reservations[r].key == c.key
      && (s.reservations[r].sent ==> Honoured(s, c.key, c.began))
    case Sending(r) =>
      && r in s.reservations && s.reservations[r] == Reservation(c.key, false, Open) && c.key in s.queued && s.queued[c.key] == r
    case Closing(r, failed) =>
      && r in s.reservations && s.reservations[r].key == c.key && s.reservations[r].sent == !failed
      && s.reservations[r].outcome.Open?
      && (failed ==> c.key in s.queued && s.queued[c.key] == r)
      && (!failed ==> Honoured(s, c.key, c.began))
    case Returned(woken) => woken ==> Honoured(s, c.key, c.began)
  }

  /** A reservation has one owner. */
  ghost predicate Owners(s: State) {
    forall t, u | t in s.calls && u in s.calls && t != u && Owns(s.calls[t].phase) && Owns(s.calls[u].phase) ::
      s.calls[t].phase.reservation != s.calls[u].phase.reservation
  }

  predicate Owns(p: Phase) {
    p.Sending? || p.Closing?
  }

  ghost predicate CallsOk(s: State) {
    forall t | t in s.calls :: CallOk(s, t, s.calls[t])
  }

  ghost predicate Inv(s: State) {
    ChannelOk(s) && QueuedOk(s) && ReservationsOk(s) && Owners(s) && CallsOk(s)
  }

  // ----- every step keeps them

  /** What was honoured stays so. */
  lemma HonouredStays(s: State, action: Action, k: Key, began: nat)
    requires Honoured(s, k, began) && began <= s.now
    ensures Honoured(Step(s, action), k, began)
  {
  }

  lemma StepChannel(s: State, action: Action)
    requires Inv(s)
    ensures ChannelOk(Step(s, action)) && QueuedOk(Step(s, action)) && ReservationsOk(Step(s, action))
  {
    hide ChannelOk, QueuedOk, ReservationsOk, Owners, CallsOk;
    if action.Look? && action.call in s.calls {
      LookChannel(s, action.call, action.reservation);
    } else if action.Send? && action.call in s.calls {
      SendChannel(s, action.call);
    } else if action.Close? && action.call in s.calls {
      CloseChannel(s, action.call);
    } else if action.WorkerReceives? {
      ReceiveChannel(s);
    } else if action.WorkerMarks? {
      MarkChannel(s);
    } else {
      SameChannel(s, Step(s, action));
    }
  }

  lemma SameChannel(s: State, s': State)
    requires ChannelOk(s) && QueuedOk(s) && ReservationsOk(s)
    requires s'.channel == s.channel && s'.queued == s.queued && s'.reservations == s.reservations
    requires s.worker.Took? <==> s'.worker.Took?
    requires s.worker.Took? ==> s'.worker == s.worker
    ensures ChannelOk(s') && QueuedOk(s') && ReservationsOk(s')
  {
    assert forall k :: OnItsWay(s', k) <==> OnItsWay(s, k);
  }

  lemma MarkChannel(s: State)
    requires Inv(s)
    ensures var s' := Step(s, WorkerMarks); ChannelOk(s') && QueuedOk(s') && ReservationsOk(s')
  {
    var s' := Step(s, WorkerMarks);
    if s.worker.Took? {
      assert forall k :: OnItsWay(s', k) <==> OnItsWay(s, k) && k != s.worker.key;
    }
  }

  lemma LookChannel(s: State, t: CallId, r: ReservationId)
    requires Inv(s) && t in s.calls
    ensures var s' := Step(s, Look(t, r)); ChannelOk(s') && QueuedOk(s') && ReservationsOk(s')
  {
  }

  lemma SendChannel(s: State, t: CallId)
    requires Inv(s) && t in s.calls
    ensures var s' := Step(s, Send(t)); ChannelOk(s') && QueuedOk(s') && ReservationsOk(s')
  {
    assert CallOk(s, t, s.calls[t]);
  }

  lemma CloseChannel(s: State, t: CallId)
    requires Inv(s) && t in s.calls
    ensures var s' := Step(s, Close(t)); ChannelOk(s') && QueuedOk(s') && ReservationsOk(s')
  {
    assert CallOk(s, t, s.calls[t]);
  }

  lemma ReceiveChannel(s: State)
    requires Inv(s)
    ensures var s' := Step(s, WorkerReceives); ChannelOk(s') && QueuedOk(s') && ReservationsOk(s')
  {
    var s' := Step(s, WorkerReceives);
    if s.worker.Idle? && s.channel != [] {
      assert forall k :: OnItsWay(s', k) <==> OnItsWay(s, k);
    }
  }

  lemma StepOwners(s: State, action: Action)
    requires Inv(s)
    ensures Owners(Step(s, action))
  {
    if action.Look? && action.call in s.calls {
      forall u | u in s.calls && Owns(s.calls[u].phase)
        ensures s.calls[u].phase.reservation in s.reservations
      {
        assert CallOk(s, u, s.calls[u]);
      }
    }
  }

  /** A call that does not move keeps what it relies on: its reservation and, while it owns
      one unsent, the registration. */
  lemma KeptCall(s: State, s': State, u: CallId, c: Call)
    requires CallOk(s, u, c) && s.now <= s'.now && (Honoured(s, c.key, c.began) ==> Honoured(s', c.key, c.began))
    requires c.phase.Waiting? && c.phase.reservation in s.reservations ==>
               var r := c.phase.reservation;
               && r in s'.reservations && s'.reservations[r].key == s.reservations[r].key
               && (s'.reservations[r].sent ==> s.reservations[r].sent || c.key in s'.channel)
    requires Owns(c.phase) && c.phase.reservation in s.reservations ==>
               c.phase.reservation in s'.reservations && s'.reservations[c.phase.reservation] == s.reservations[c.phase.reservation]
    requires c.phase.Sending? || (c.phase.Closing? && c.phase.failed) ==>
               c.key in s'.queued && c.key in s.queued && s'.queued[c.key] == s.queued[c.key]
    ensures CallOk(s', u, c)
  {
  }

  lemma OtherCall(s: State, action: Action, u: CallId)
    requires Inv(s) && u in s.calls && u in Step(s, action).calls && Step(s, action).calls[u] == s.calls[u]
    ensures CallOk(Step(s, action), u, s.calls[u])
  {
    var c, s' := s.calls[u], Step(s, action);
    assert CallOk(s, u, c);
    hide Inv, CallOk, Honoured, ChannelOk, QueuedOk, ReservationsOk, Owners, CallsOk;
    StillHonoured(s, action, u);
    if action.Send? && action.call in s.calls {
      SendOther(s, action.call, u);
    } else if action.Close? && action.call in s.calls {
      CloseOther(s, action.call, u);
    } else if action.Look? && action.call in s.calls {
      LookOther(s, action.call, action.reservation, u);
    } else if action.WorkerMarks? {
      MarkOther(s, u);
    } else {
      SameOther(s, s', u, c);
    }
  }

  lemma StillHonoured(s: State, action: Action, u: CallId)
    requires u in s.calls && CallOk(s, u, s.calls[u])
    ensures Honoured(s, s.calls[u].key, s.calls[u].began) ==> Honoured(Step(s, action), s.calls[u].key, s.calls[u].began)
  {
    if Honoured(s, s.calls[u].key, s.calls[u].began) {
      HonouredStays(s, action, s.calls[u].key, s.calls[u].began);
    }
  }

  lemma SameOther(s: State, s': State, u: CallId, c: Call)
    requires CallOk(s, u, c) && s.now <= s'.now && (Honoured(s, c.key, c.began) ==> Honoured(s', c.key, c.began))
    requires s'.queued == s.queued && s'.reservations == s.reservations
    ensures CallOk(s', u, c)
  {
    hide Honoured;
    KeptCall(s, s', u, c);
  }

  lemma MarkOther(s: State, u: CallId)
    requires Inv(s) && u in s.calls && CallOk(s, u, s.calls[u])
    requires Honoured(s, s.calls[u].key, s.calls[u].began) ==> Honoured(Step(s, WorkerMarks), s.calls[u].key, s.calls[u].began)
    ensures CallOk(Step(s, WorkerMarks), u, s.calls[u])
  {
    assert s.worker.Took? ==> OnItsWay(s, s.worker.key);
    hide Honoured, QueuedOk, ReservationsOk, Owners, CallsOk;
    KeptCall(s, Step(s, WorkerMarks), u, s.calls[u]);
  }

  lemma LookOther(s: State, t: CallId, r: ReservationId, u: CallId)
    requires Inv(s) && t in s.calls && u in s.calls && CallOk(s, u, s.calls[u])
    requires Step(s, Look(t, r)).calls[u] == s.calls[u]
    requires Honoured(s, s.calls[u].key, s.calls[u].began) ==> Honoured(Step(s, Look(t, r)), s.calls[u].key, s.calls[u].began)
    ensures CallOk(Step(s, Look(t, r)), u, s.calls[u])
  {
    hide Honoured, ChannelOk, QueuedOk, ReservationsOk, Owners, CallsOk;
    KeptCall(s, Step(s, Look(t, r)), u, s.calls[u]);
  }

  lemma SendOther(s: State, t: CallId, u: CallId)
    requires Inv(s) && t in s.calls && u in s.calls && CallOk(s, u, s.calls[u])
    requires Step(s, Send(t)).calls[u] == s.calls[u]
    requires Honoured(s, s.calls[u].key, s.calls[u].began) ==> Honoured(Step(s, Send(t)), s.calls[u].key, s.calls[u].began)
    ensures CallOk(Step(s, Send(t)), u, s.calls[u])
  {
    assert CallOk(s, t, s.calls[t]);
    hide Honoured, ChannelOk, QueuedOk, ReservationsOk, CallsOk;
    KeptCall(s, Step(s, Send(t)), u, s.calls[u]);
  }

  lemma CloseOther(s: State, t: CallId, u: CallId)
    requires Inv(s) && t in s.calls && u in s.calls && CallOk(s, u, s.calls[u])
    requires Step(s, Close(t)).calls[u] == s.calls[u]
    requires Honoured(s, s.calls[u].key, s.calls[u].began) ==> Honoured(Step(s, Close(t)), s.calls[u].key, s.calls[u].began)
    ensures CallOk(Step(s, Close(t)), u, s.calls[u])
  {
    assert CallOk(s, t, s.calls[t]);
    hide Honoured, ChannelOk, QueuedOk, ReservationsOk, CallsOk;
    KeptCall(s, Step(s, Close(t)), u, s.calls[u]);
  }

  /** The call that moves is in order afterwards. */
  lemma MovingCall(s: State, action: Action, t: CallId)
    requires Inv(s) && t in Step(s, action).calls && (t !in s.calls || Step(s, action).calls[t] != s.calls[t])
    ensures CallOk(Step(s, action), t, Step(s, action).calls[t])
  {
    var s' := Step(s, action);
    if t in s.calls {
      var c := s.calls[t];
      assert CallOk(s, t, c);
      if Honoured(s, c.key, c.began) {
        HonouredStays(s, action, c.key, c.began);
      }
      if c.phase.Looking? && c.key in s.queued && s.reservations[s.queued[c.key]].sent {
        assert OnItsWay(s, c.key);
      }
      hide Owners, CallsOk, ChannelOk;
    }
  }

  lemma StepOk(s: State, action: Action)
    requires Inv(s)
    ensures Inv(Step(s, action))
  {
    StepChannel(s, action);
    StepOwners(s, action);
    forall t | t in Step(s, action).calls
      ensures CallOk(Step(s, action), t, Step(s, action).calls[t])
    {
      hide *;
      if t in s.calls && Step(s, action).calls[t] == s.calls[t] {
        OtherCall(s, action, t);
      } else {
        MovingCall(s, action, t);
      }
    }
    hide Step;
  }

  lemma {:induction false} RunOk(capacity: nat, actions: seq<Action>)
    ensures Inv(Run(capacity, actions))
  {
    if actions != [] {
      RunOk(capacity, actions[..|actions| - 1]);
      StepOk(Run(capacity, actions[..|actions| - 1]), actions[|actions| - 1]);
    }
  }

  // ----- what every run promises

  /** The channel never holds a key twice. */
  lemma ChannelHoldsOnce(capacity: nat, actions: seq<Action>, i: nat, j: nat)
    requires i < j < |Run(capacity, actions).channel|
    ensures Run(capacity, actions).channel[i] != Run(capacity, actions).channel[j]
  {
    RunOk(capacity, actions);
  }

  /** If Wake returned nil, its key is still queued or ready, or its Plan was read after the
      call began. */
  lemma WakeIsHonoured(capacity: nat, actions: seq<Action>, t: CallId)
    requires t in Run(capacity, actions).calls && Run(capacity, actions).calls[t].phase == Returned(true)
    ensures var s := Run(capacity, actions); Honoured(s, s.calls[t].key, s.calls[t].began)
  {
    RunOk(capacity, actions);
    assert CallOk(Run(capacity, actions), t, Run(capacity, actions).calls[t]);
  }
}
