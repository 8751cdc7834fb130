/**
 Request ownership in the server dispatcher of src/McpDispatcher.ts. Handlers,
 notification sinks, cancellations and terminal writes run concurrently over
 reusable request ids; the atomic steps are the `Ref` updates, gate acquisitions
 and the start and end of each send. A run is any sequence of steps.
 */
module ServerOwnership {
  import opened Common

  type RequestId(==, !new)

  /** Owners are compared by reference: a fresh number per accepted request. */
  type Owner = nat

  datatype Phase = Running | TerminalWriting | CancellationPending | Cancelling

  datatype Entry = Entry(owner: Owner, phase: Phase)

  type Active = map<RequestId, Entry>

  // ----- the updates of the `active` Ref -----

  function Register(active: Active, id: RequestId, owner: Owner): (bool, Active) {
    if id in active then (false, active) else (true, active[id := Entry(owner, Running)])
  }

  function BeginTerminal(active: Active, id: RequestId, owner: Owner): (bool, Active) {
    if id !in active || active[id].owner != owner || active[id].phase != Running then (false, active)
    else (true, active[id := Entry(owner, TerminalWriting)])
  }

  function Release(active: Active, id: RequestId, owner: Owner): Active {
    if id in active && active[id].owner == owner then active - {id} else active
  }

  function ClaimCancellation(active: Active, id: RequestId): (Option<Owner>, Active) {
    if id !in active || active[id].phase != Running then (None, active)
    else (Some(active[id].owner), active[id := Entry(active[id].owner, CancellationPending)])
  }

  function MarkCancelling(active: Active, id: RequestId, owner: Owner): Active {
    if id in active && active[id] == Entry(owner, CancellationPending) then active[id := Entry(owner, Cancelling)]
    else active
  }

  predicate AcceptsNotification(active: Active, id: RequestId, owner: Owner) {
    id in active && active[id] == Entry(owner, Running)
  }

  /** The `active` Ref of `makeServerDispatcher` and its atomic updates. */
  class Dispatcher {
    var active: Active

    constructor ()
      ensures active == map[]
    {
      active := map[];
    }

    method TryRegister(id: RequestId, owner: Owner) returns (registered: bool)
      modifies this
      ensures (registered, active) == Register(old(active), id, owner)
      ensures registered <==> id !in old(active)
      ensures active == if registered then old(active)[id := Entry(owner, Running)] else old(active)
    {
      if id in active {
        return false;
      }
      active := active[id := Entry(owner, Running)];
      return true;
    }

    method TryBeginTerminal(id: RequestId, owner: Owner) returns (owned: bool)
      modifies this
      ensures (owned, active) == BeginTerminal(old(active), id, owner)
      ensures owned <==> id in old(active) && old(active)[id] == Entry(owner, Running)
      ensures active == if owned then old(active)[id := Entry(owner, TerminalWriting)] else old(active)
    {
      if id !in active {
        return false;
      }
      var entry := active[id];
      if entry.owner != owner || entry.phase != Running {
        return false;
      }
      active := active[id := Entry(owner, TerminalWriting)];
      return true;
    }

    method ReleaseOwner(id: RequestId, owner: Owner)
      modifies this
      ensures active == Release(old(active), id, owner)
      ensures active == if exists phase :: id in old(active) && old(active)[id] == Entry(owner, phase) then old(active) - {id} else old(active)
    {
      if id in active && active[id].owner == owner {
        active := active - {id};
      }
    }

    method TryClaimCancellation(id: RequestId) returns (owner: Option<Owner>)
      modifies this
      ensures (owner, active) == ClaimCancellation(old(active), id)
      ensures forall o: Owner :: owner == Some(o) <==> id in old(active) && old(active)[id] == Entry(o, Running)
      ensures active == if owner.Some? then old(active)[id := Entry(owner.value, CancellationPending)] else old(active)
    {
      if id !in active || active[id].phase != Running {
        return None;
      }
      owner := Some(active[id].owner);
      active := active[id := Entry(active[id].owner, CancellationPending)];
    }

    method MarkOwnerCancelling(id: RequestId, owner: Owner)
      modifies this
      ensures active == MarkCancelling(old(active), id, owner)
      ensures active == if id in old(active) && old(active)[id] == Entry(owner, CancellationPending) then old(active)[id := Entry(owner, Cancelling)] else old(active)
    {
      if id in active {
        var entry := active[id];
        if entry.owner == owner && entry.phase == CancellationPending {
          active := active[id := Entry(owner, Cancelling)];
        }
      }
    }
  }

  // ----- the protocol -----

  /** Who holds an owner's gate, and how far it has come. */
  datatype Gate =
    | Free
    | NotifyHeld | NotifyCleared | NotifySending
    | TerminalHeld | TerminalOwned | TerminalSending | TerminalSent | TerminalReporting
    | CancelHeld | CancelMarked

  /** The request's fibre: registered, forked, waiting in `complete`, inside it, about to run its finalizer. */
  datatype Fiber = Unforked | Handling | Completing | InComplete | Finishing | Done

  datatype Record = Record(id: RequestId, gate: Gate, fiber: Fiber, ready: bool, claimed: bool, interrupted: bool)

  datatype Kind = Registered | NotifyStart | NotifyEnd | TerminalStart | TerminalEnd | Claimed | Cancelled

  datatype Event = Event(kind: Kind, owner: Owner)

  /** `owners[o]` is the record of owner `o`; `trace` lists what each owner did, sends included, in order. */
  datatype State = State(active: Active, owners: seq<Record>, trace: seq<Event>)

  datatype Action =
    | Accept(id: RequestId)
    | Fork(o: Owner)
    | AnnounceFiber(o: Owner)
    | HandlerReturns(o: Owner)
    | FiberStops(o: Owner)
    | NotifyAcquire(o: Owner)
    | NotifyCheck(o: Owner)
    | NotifySend(o: Owner)
    | NotifySent(o: Owner)
    | TerminalAcquire(o: Owner)
    | TerminalCheck(o: Owner)
    | TerminalSend(o: Owner)
    | TerminalSendEnds(o: Owner)
    | TerminalRelease(o: Owner)
    | TerminalReported(o: Owner)
    | FiberRelease(o: Owner)
    | ClaimCancel(id: RequestId)
    | CancelAcquire(o: Owner)
    | CancelMark(o: Owner)
    | CancelInterrupt(o: Owner)

  const Initial: State := State(map[], [], [])

  function Put(s: State, o: Owner, r: Record): State
    requires o < |s.owners|
  {
    s.(owners := s.owners[o := r])
  }

  function Emit(s: State, kind: Kind, o: Owner): State {
    s.(trace := s.trace + [Event(kind, o)])
  }

  /** The effect of an action that owner `o` (or a caller on its gate) takes; disabled actions change nothing. */
  function OwnerStep(s: State, a: Action, o: Owner): State
    requires o < |s.owners|
  {
    var r := s.owners[o];
    match a
    case Fork(_) => if r.fiber == Unforked then Put(s, o, r.(fiber := Handling)) else s
    case AnnounceFiber(_) => if r.fiber != Unforked then Put(s, o, r.(ready := true)) else s
    case HandlerReturns(_) => if r.fiber == Handling then Put(s, o, r.(fiber := Completing)) else s
    case FiberStops(_) =>
      if r.fiber == Handling || (r.fiber == Completing && r.interrupted) then Put(s, o, r.(fiber := Finishing)) else s
    case NotifyAcquire(_) => if r.gate == Free then Put(s, o, r.(gate := NotifyHeld)) else s
    case NotifyCheck(_) =>
      if r.gate != NotifyHeld then s
      else Put(s, o, r.(gate := if AcceptsNotification(s.active, r.id, o) then NotifyCleared else Free))
    case NotifySend(_) =>
      if r.gate == NotifyCleared then Emit(Put(s, o, r.(gate := NotifySending)), NotifyStart, o) else s
    case NotifySent(_) => if r.gate == NotifySending then Emit(Put(s, o, r.(gate := Free)), NotifyEnd, o) else s
    case TerminalAcquire(_) =>
      if r.gate == Free && r.fiber == Completing then Put(s, o, r.(gate := TerminalHeld, fiber := InComplete)) else s
    case TerminalCheck(_) =>
      if r.gate != TerminalHeld then s
      else
        var (owned, active) := BeginTerminal(s.active, r.id, o);
        if owned then Put(s, o, r.(gate := TerminalOwned)).(active := active)
        else Put(s, o, r.(gate := Free, fiber := Finishing))
    case TerminalSend(_) =>
      if r.gate == TerminalOwned then Emit(Put(s, o, r.(gate := TerminalSending)), TerminalStart, o) else s
    case TerminalSendEnds(_) =>
      if r.gate == TerminalSending then Emit(Put(s, o, r.(gate := TerminalSent)), TerminalEnd, o) else s
    case TerminalRelease(_) =>
      if r.gate == TerminalSent then Put(s, o, r.(gate := TerminalReporting)).(active := Release(s.active, r.id, o)) else s
    case TerminalReported(_) =>
      if r.gate == TerminalReporting then Put(s, o, r.(gate := Free, fiber := Finishing)) else s
    case FiberRelease(_) =>
      if r.fiber == Finishing then Put(s, o, r.(fiber := Done)).(active := Release(s.active, r.id, o)) else s
    case CancelAcquire(_) =>
      if r.gate == Free && r.claimed then Put(s, o, r.(gate := CancelHeld, claimed := false)) else s
    case CancelMark(_) =>
      if r.gate != CancelHeld then s
      else
        var marked := Put(s, o, r.(gate := CancelMarked)).(active := MarkCancelling(s.active, r.id, o));
        if marked.active == s.active then marked else Emit(marked, Cancelled, o)
    case CancelInterrupt(_) =>
      if r.gate == CancelMarked && r.ready then Put(s, o, r.(gate := Free, interrupted := true)) else s
    case _ => s
  }

  function Step(s: State, a: Action): State {
    match a
    case Accept(id) =>
      var o := |s.owners|;
      var (registered, active) := Register(s.active, id, o);
      if !registered then s
      else Emit(State(active, s.owners + [Record(id, Free, Unforked, false, false, false)], s.trace), Registered, o)
    case ClaimCancel(id) =>
      var (owner, active) := ClaimCancellation(s.active, id);
      if owner.None? || owner.value >= |s.owners| then s
      else
        var o := owner.value;
        Emit(Put(s, o, s.owners[o].(claimed := true)).(active := active), Claimed, o)
    case _ => if a.o < |s.owners| then OwnerStep(s, a, a.o) else s
  }

  /** The state after the first `n` actions of a run. */
  function Run(actions: seq<Action>, n: nat): State
    requires n <= |actions|
  {
    if n == 0 then Initial else Step(Run(actions, n - 1), actions[n - 1])
  }

  // ----- what one owner may do, as an automaton over its events -----

  /**
   Unclaimed requests send any number of notifications, one at a time, then at
   most one terminal. Once a cancellation is claimed at most one more notification
   starts, no terminal does, and after the cancellation takes effect nothing does.
   */
  datatype Mode =
    | Fresh | Idle | Notifying | Terminating | Finished
    | ClaimedIdle | ClaimedNotifying | ClaimedQuiet | Stopped
    | Illegal

  function Advance(m: Mode, k: Kind): Mode {
    match (m, k)
    case (Fresh, Registered) => Idle
    case (Idle, NotifyStart) => Notifying
    case (Notifying, NotifyEnd) => Idle
    case (Idle, TerminalStart) => Terminating
    case (Terminating, TerminalEnd) => Finished
    case (Idle, Claimed) => ClaimedIdle
    case (Notifying, Claimed) => ClaimedNotifying
    case (ClaimedIdle, NotifyStart) => ClaimedNotifying
    case (ClaimedNotifying, NotifyEnd) => ClaimedQuiet
    case (ClaimedIdle, Cancelled) => Stopped
    case (ClaimedQuiet, Cancelled) => Stopped
    case _ => Illegal
  }

  /** The mode an owner is in after a trace; other owners' events do not count. */
  function Follow(trace: seq<Event>, o: Owner): Mode {
    if trace == [] then Fresh
    else
      var before, last := Follow(trace[..|trace| - 1], o), trace[|trace| - 1];
      if last.owner == o then Advance(before, last.kind) else before
  }

  // ----- the invariant -----

  /** The phase under which an owner holds its id, if it still does. */
  function Holding(s: State, o: Owner): Option<Phase>
    requires o < |s.owners|
  {
    var id := s.owners[o].id;
    if id in s.active && s.active[id].owner == o then Some(s.active[id].phase) else None
  }

  predicate TerminalGate(g: Gate) {
    g == TerminalOwned || g == TerminalSending || g == TerminalSent
  }

  /** How record, held phase and trace mode of one owner fit together. */
  predicate Fits(r: Record, held: Option<Phase>, m: Mode) {
    && m != Illegal && m != Fresh
    // the gate's holder and the trace
    && (r.gate == NotifyCleared ==> m == Idle || m == ClaimedIdle)
    && (r.gate == NotifySending <==> m == Notifying || m == ClaimedNotifying)
    && (r.gate == TerminalOwned ==> m == Idle)
    && (r.gate == TerminalSending <==> m == Terminating)
    && (r.gate == TerminalSent || r.gate == TerminalReporting ==> m == Finished)
    // the gate's holder and the fibre
    && (TerminalGate(r.gate) || r.gate == TerminalHeld || r.gate == TerminalReporting <==> r.fiber == InComplete)
    // the phase under which the id is held
    && (TerminalGate(r.gate) <==> held == Some(TerminalWriting))
    && (held == Some(Running) ==> m == Idle || m == Notifying)
    && (held == Some(CancellationPending) ==> m == ClaimedIdle || m == ClaimedNotifying || m == ClaimedQuiet)
    && (held == Some(Cancelling) <==> m == Stopped && held.Some?)
    && (r.fiber == Done ==> held.None?)
    // nothing is given up before it is answered or claimed
    && (held.None? ==> r.fiber == Done || m == Finished)
    && (m == Terminating || m == Finished ==> r.fiber == InComplete || r.fiber == Finishing || r.fiber == Done)
    && (r.claimed || r.gate == CancelHeld || r.gate == CancelMarked ==> ClaimedMode(m))
    && (held == Some(CancellationPending) ==> (r.claimed || r.gate == CancelHeld) && r.gate != CancelMarked)
  }

  predicate ClaimedMode(m: Mode) {
    m == ClaimedIdle || m == ClaimedNotifying || m == ClaimedQuiet || m == Stopped
  }

  /** Every entry is held by the last owner registered under its id. */
  predicate Latest(s: State) {
    forall id :: id in s.active ==>
      && s.active[id].owner < |s.owners|
      && s.owners[s.active[id].owner].id == id
      && forall o :: s.active[id].owner < o < |s.owners| ==> s.owners[o].id != id
  }

  /** Once an id has a newer owner, no terminal of an older owner starts or ends. */
  predicate NoLateTerminal(s: State) {
    forall i, j {:trigger LateTerminal(s, s.trace[i], s.trace[j])} :: 0 <= i < j < |s.trace| ==> !LateTerminal(s, s.trace[i], s.trace[j])
  }

  predicate LateTerminal(s: State, earlier: Event, later: Event) {
    && earlier.kind == Registered && (later.kind == TerminalStart || later.kind == TerminalEnd)
    && later.owner < earlier.owner < |s.owners|
    && s.owners[later.owner].id == s.owners[earlier.owner].id
  }

  predicate Inv(s: State) {
    && Latest(s)
    && (forall e :: e in s.trace ==> e.owner < |s.owners|)
    && (forall o :: 0 <= o < |s.owners| ==> Fits(s.owners[o], Holding(s, o), Follow(s.trace, o)))
    && NoLateTerminal(s)
  }

  lemma FollowEmit(trace: seq<Event>, e: Event, o: Owner)
    ensures Follow(trace + [e], o) == if e.owner == o then Advance(Follow(trace, o), e.kind) else Follow(trace, o)
  {
    assert (trace + [e])[..|trace|] == trace;
  }

  lemma {:induction false} FollowFresh(trace: seq<Event>, o: Owner)
    requires forall e :: e in trace ==> e.owner != o
    ensures Follow(trace, o) == Fresh
  {
    if trace != [] {
      assert trace[|trace| - 1] in trace;
      FollowFresh(trace[..|trace| - 1], o);
    }
  }

  // ----- every step keeps the invariant -----

  /** What a step of owner `o` may touch: its record, its hold on its id, one event of its own. */
  predicate StepShape(s: State, t: State, o: Owner)
    requires o < |s.owners|
  {
    && |t.owners| == |s.owners| && t.owners[o].id == s.owners[o].id
    && t.owners == s.owners[o := t.owners[o]]
    && (t.active == s.active
        || (Holding(s, o).Some? && t.active == s.active - {s.owners[o].id})
        || (Holding(s, o).Some? && exists p :: t.active == s.active[s.owners[o].id := Entry(o, p)]))
    && (t.trace == s.trace || (t.trace != [] && t.trace == s.trace + [t.trace[|t.trace| - 1]]))
    && (t.trace != s.trace ==>
          var e := t.trace[|t.trace| - 1];
          e.owner == o && e.kind != Registered
          && (e.kind == TerminalStart ==> s.owners[o].gate == TerminalOwned)
          && (e.kind == TerminalEnd ==> s.owners[o].gate == TerminalSending))
  }

  lemma OwnerStepShape(s: State, a: Action, o: Owner)
    requires o < |s.owners|
    ensures StepShape(s, OwnerStep(s, a, o), o)
  {
  }

  lemma ShapeFrame(s: State, t: State, o: Owner, p: Owner)
    requires o < |s.owners| && p < |s.owners| && p != o && StepShape(s, t, o)
    ensures t.owners[p] == s.owners[p] && Holding(t, p) == Holding(s, p) && Follow(t.trace, p) == Follow(s.trace, p)
  {
    if t.trace != s.trace {
      FollowEmit(s.trace, t.trace[|t.trace| - 1], p);
    }
  }

  lemma ShapeLatest(s: State, t: State, o: Owner)
    requires o < |s.owners| && StepShape(s, t, o) && Latest(s)
    ensures Latest(t)
  {
    assert forall p :: 0 <= p < |s.owners| ==> t.owners[p].id == s.owners[p].id;
  }

  /** Only the last owner of an id starts or ends a terminal. */
  lemma ShapeNoLateTerminal(s: State, t: State, o: Owner)
    requires o < |s.owners| && StepShape(s, t, o) && Inv(s)
    ensures NoLateTerminal(t)
  {
    assert forall p :: 0 <= p < |s.owners| ==> t.owners[p].id == s.owners[p].id;
    assert Fits(s.owners[o], Holding(s, o), Follow(s.trace, o));
    forall i, j | 0 <= i < j < |t.trace| ensures !LateTerminal(t, t.trace[i], t.trace[j]) {
      if j < |s.trace| {
        assert !LateTerminal(s, s.trace[i], s.trace[j]);
      }
    }
  }

  lemma EmittedFollow(s: State, kind: Kind, o: Owner)
    ensures Follow(Emit(s, kind, o).trace, o) == Advance(Follow(s.trace, o), kind)
  {
    FollowEmit(s.trace, Event(kind, o), o);
  }

  lemma NotifyStepFits(s: State, a: Action, o: Owner)
    requires o < |s.owners| && Fits(s.owners[o], Holding(s, o), Follow(s.trace, o))
    requires a.NotifyAcquire? || a.NotifyCheck? || a.NotifySend? || a.NotifySent?
    ensures var t := OwnerStep(s, a, o);
            |t.owners| == |s.owners| && Fits(t.owners[o], Holding(t, o), Follow(t.trace, o))
  {
    hide Follow;
    var r := s.owners[o];
    if a.NotifySend? {
      EmittedFollow(Put(s, o, r.(gate := NotifySending)), NotifyStart, o);
    } else if a.NotifySent? {
      EmittedFollow(Put(s, o, r.(gate := Free)), NotifyEnd, o);
    }
  }

  lemma TerminalStepFits(s: State, a: Action, o: Owner)
    requires o < |s.owners| && Fits(s.owners[o], Holding(s, o), Follow(s.trace, o))
    requires a.TerminalAcquire? || a.TerminalCheck? || a.TerminalSend? || a.TerminalSendEnds? || a.TerminalRelease? || a.TerminalReported?
    ensures var t := OwnerStep(s, a, o);
            |t.owners| == |s.owners| && Fits(t.owners[o], Holding(t, o), Follow(t.trace, o))
  {
    hide Follow;
    var r := s.owners[o];
    if a.TerminalSend? {
      EmittedFollow(Put(s, o, r.(gate := TerminalSending)), TerminalStart, o);
    } else if a.TerminalSendEnds? {
      EmittedFollow(Put(s, o, r.(gate := TerminalSent)), TerminalEnd, o);
    }
  }

  lemma CancelStepFits(s: State, a: Action, o: Owner)
    requires o < |s.owners| && Fits(s.owners[o], Holding(s, o), Follow(s.trace, o))
    requires a.CancelAcquire? || a.CancelMark? || a.CancelInterrupt?
    ensures var t := OwnerStep(s, a, o);
            |t.owners| == |s.owners| && Fits(t.owners[o], Holding(t, o), Follow(t.trace, o))
  {
    hide Follow;
    var r := s.owners[o];
    if a.CancelMark? {
      EmittedFollow(Put(s, o, r.(gate := CancelMarked)).(active := MarkCancelling(s.active, r.id, o)), Cancelled, o);
    }
  }

  lemma FiberStepFits(s: State, a: Action, o: Owner)
    requires o < |s.owners| && Fits(s.owners[o], Holding(s, o), Follow(s.trace, o))
    requires a.Fork? || a.AnnounceFiber? || a.HandlerReturns? || a.FiberStops? || a.FiberRelease? || a.Accept? || a.ClaimCancel?
    ensures var t := OwnerStep(s, a, o);
            |t.owners| == |s.owners| && Fits(t.owners[o], Holding(t, o), Follow(t.trace, o))
  {
    hide Follow;
  }

  lemma OwnerStepFits(s: State, a: Action, o: Owner)
    requires o < |s.owners| && Fits(s.owners[o], Holding(s, o), Follow(s.trace, o))
    ensures var t := OwnerStep(s, a, o);
            |t.owners| == |s.owners| && Fits(t.owners[o], Holding(t, o), Follow(t.trace, o))
  {
    hide OwnerStep;
    hide Fits;
    if a.NotifyAcquire? || a.NotifyCheck? || a.NotifySend? || a.NotifySent? {
      NotifyStepFits(s, a, o);
    } else if a.CancelAcquire? || a.CancelMark? || a.CancelInterrupt? {
      CancelStepFits(s, a, o);
    } else if a.Fork? || a.AnnounceFiber? || a.HandlerReturns? || a.FiberStops? || a.FiberRelease? || a.Accept? || a.ClaimCancel? {
      FiberStepFits(s, a, o);
    } else {
      TerminalStepFits(s, a, o);
    }
  }

  lemma OwnerStepInv(s: State, a: Action, o: Owner)
    requires Inv(s) && o < |s.owners|
    ensures Inv(OwnerStep(s, a, o))
  {
    var t := OwnerStep(s, a, o);
    OwnerStepShape(s, a, o);
    OwnerStepFits(s, a, o);
    ShapeInv(s, t, o);
  }

  lemma ShapeInv(s: State, t: State, o: Owner)
    requires Inv(s) && o < |s.owners| && StepShape(s, t, o)
    requires Fits(t.owners[o], Holding(t, o), Follow(t.trace, o))
    ensures Inv(t)
  {
    ShapeLatest(s, t, o);
    ShapeNoLateTerminal(s, t, o);
    forall p | 0 <= p < |t.owners| ensures Fits(t.owners[p], Holding(t, p), Follow(t.trace, p)) {
      if p != o { ShapeFrame(s, t, o, p); }
    }
  }

  lemma AcceptFits(s: State, id: RequestId, p: Owner)
    requires Inv(s) && id !in s.active && p <= |s.owners|
    ensures var t := Step(s, Accept(id));
            Fits(t.owners[p], Holding(t, p), Follow(t.trace, p))
  {
    var o := |s.owners|;
    FollowEmit(s.trace, Event(Registered, o), p);
    if p == o {
      FollowFresh(s.trace, o);
    } else {
      assert Fits(s.owners[p], Holding(s, p), Follow(s.trace, p));
    }
    hide Follow;
  }

  lemma AcceptNoLateTerminal(s: State, id: RequestId)
    requires Inv(s) && id !in s.active
    ensures NoLateTerminal(Step(s, Accept(id)))
  {
    hide Fits;
    hide Follow;
    hide Latest;
    var t := Step(s, Accept(id));
    forall i, j | 0 <= i < j < |t.trace| ensures !LateTerminal(t, t.trace[i], t.trace[j]) {
      if j < |s.trace| {
        assert !LateTerminal(s, s.trace[i], s.trace[j]);
        assert s.trace[i] in s.trace;
      }
    }
  }

  lemma AcceptInv(s: State, id: RequestId)
    requires Inv(s)
    ensures Inv(Step(s, Accept(id)))
  {
    hide Fits;
    hide Follow;
    if id !in s.active {
      var t := Step(s, Accept(id));
      AcceptNoLateTerminal(s, id);
      hide NoLateTerminal;
      forall p | 0 <= p < |t.owners| ensures Fits(t.owners[p], Holding(t, p), Follow(t.trace, p)) {
        AcceptFits(s, id, p);
      }
    }
  }

  lemma ClaimShape(s: State, id: RequestId)
    requires Inv(s) && id in s.active && s.active[id].phase == Running
    ensures var o, t := s.active[id].owner, Step(s, ClaimCancel(id));
            && o < |s.owners| && StepShape(s, t, o)
            && Fits(t.owners[o], Holding(t, o), Follow(t.trace, o))
  {
    var o, t := s.active[id].owner, Step(s, ClaimCancel(id));
    FollowEmit(s.trace, Event(Claimed, o), o);
    hide Follow;
    hide NoLateTerminal;
    assert Fits(s.owners[o], Holding(s, o), Follow(s.trace, o));
    assert t.active == s.active[id := Entry(o, CancellationPending)];
  }

  lemma ClaimInv(s: State, id: RequestId)
    requires Inv(s)
    ensures Inv(Step(s, ClaimCancel(id)))
  {
    if id in s.active && s.active[id].phase == Running {
      ClaimShape(s, id);
      hide Inv;
      hide StepShape;
      hide Fits;
      ShapeInv(s, Step(s, ClaimCancel(id)), s.active[id].owner);
    }
  }

  lemma StepInv(s: State, a: Action)
    requires Inv(s)
    ensures Inv(Step(s, a))
  {
    hide Inv;
    hide OwnerStep;
    match a {
      case Accept(id) => AcceptInv(s, id);
      case ClaimCancel(id) => ClaimInv(s, id);
      case _ => if a.o < |s.owners| { OwnerStepInv(s, a, a.o); }
    }
  }

  lemma InitialInv()
    ensures Inv(Initial)
  {
  }

  /** The invariant holds after every run. */
  lemma {:induction false} RunInv(actions: seq<Action>, n: nat)
    requires n <= |actions|
    ensures Inv(Run(actions, n))
  {
    hide Inv;
    hide Step;
    InitialInv();
    if n > 0 {
      RunInv(actions, n - 1);
      StepInv(Run(actions, n - 1), actions[n - 1]);
    }
  }

  // ----- what the invariant says about the trace -----

  /** The modes after which an event of kind `k` is no longer legal, however the run goes on. */
  predicate Bars(m: Mode, k: Kind) {
    match k
    case Registered => m != Fresh
    case NotifyStart => m in {Terminating, Finished, ClaimedNotifying, ClaimedQuiet, Stopped}
    case NotifyEnd => m in {Terminating, Finished, ClaimedQuiet, Stopped}
    case TerminalStart => m in {Terminating, Finished, ClaimedIdle, ClaimedNotifying, ClaimedQuiet, Stopped}
    case TerminalEnd => m in {Finished, ClaimedIdle, ClaimedNotifying, ClaimedQuiet, Stopped}
    case Claimed => m !in {Fresh, Idle, Notifying}
    case Cancelled => m in {Terminating, Finished, Stopped}
  }

  lemma BarsIsClosed(m: Mode, k: Kind, next: Kind)
    requires m != Illegal && Bars(m, k)
    ensures Advance(m, k) == Illegal
    ensures Advance(m, next) != Illegal ==> Bars(Advance(m, next), k)
  {
  }

  /** A legal trace never contains a barred event after the point where it is barred. */
  lemma {:induction false} BarredNeverFollows(trace: seq<Event>, o: Owner, i: nat, j: nat)
    requires i <= j < |trace| && trace[j].owner == o
    requires Follow(trace, o) != Illegal
    ensures Follow(trace[..i], o) != Illegal && !Bars(Follow(trace[..i], o), trace[j].kind)
  {
    LegalPrefix(trace, o, j + 1);
    LegalPrefix(trace, o, j);
    LegalPrefix(trace, o, i);
    assert trace[..j + 1][..j] == trace[..j];
    BarredStays(trace, o, i, j, trace[j].kind);
    if Bars(Follow(trace[..j], o), trace[j].kind) {
      BarsIsClosed(Follow(trace[..j], o), trace[j].kind, trace[j].kind);
    }
  }

  lemma {:induction false} LegalPrefix(trace: seq<Event>, o: Owner, i: nat)
    requires i <= |trace| && Follow(trace, o) != Illegal
    ensures Follow(trace[..i], o) != Illegal
    decreases |trace|
  {
    if i == |trace| {
      assert trace[..i] == trace;
    } else {
      var init := trace[..|trace| - 1];
      assert Follow(init, o) != Illegal;
      LegalPrefix(init, o, i);
      assert init[..i] == trace[..i];
    }
  }

  lemma {:induction false} BarredStays(trace: seq<Event>, o: Owner, i: nat, j: nat, k: Kind)
    requires i <= j <= |trace| && Follow(trace, o) != Illegal
    ensures Bars(Follow(trace[..i], o), k) ==> Bars(Follow(trace[..j], o), k)
    decreases j
  {
    if i < j {
      BarredStays(trace, o, i, j - 1, k);
      LegalPrefix(trace, o, j);
      LegalPrefix(trace, o, j - 1);
      assert trace[..j][..j - 1] == trace[..j - 1];
      if Bars(Follow(trace[..j - 1], o), k) {
        BarsIsClosed(Follow(trace[..j - 1], o), k, trace[j - 1].kind);
      }
    }
  }

  lemma ModeAfter(trace: seq<Event>, o: Owner, i: nat)
    requires i < |trace| && trace[i].owner == o
    ensures Follow(trace[..i + 1], o) == Advance(Follow(trace[..i], o), trace[i].kind)
  {
    assert trace[..i + 1][..i] == trace[..i];
  }

  /** What may follow an event of each kind in a legal trace of one owner. */
  lemma LegalOrder(trace: seq<Event>, o: Owner, i: nat, j: nat)
    requires i < j < |trace| && trace[i].owner == trace[j].owner == o && Follow(trace, o) != Illegal
    ensures !Bars(Advance(Follow(trace[..i], o), trace[i].kind), trace[j].kind)
    ensures Follow(trace[..i], o) != Illegal && Advance(Follow(trace[..i], o), trace[i].kind) != Illegal
  {
    hide Bars;
    hide Advance;
    hide Follow;
    ModeAfter(trace, o, i);
    LegalPrefix(trace, o, i);
    LegalPrefix(trace, o, i + 1);
    BarredNeverFollows(trace, o, i + 1, j);
  }

  /** After every run, each owner's events form a legal trace. */
  lemma RunLegal(actions: seq<Action>, n: nat, i: nat)
    requires n <= |actions| && i < |Run(actions, n).trace|
    ensures Follow(Run(actions, n).trace, Run(actions, n).trace[i].owner) != Illegal
  {
    hide Run;
    var s := Run(actions, n);
    RunInv(actions, n);
    assert s.trace[i] in s.trace;
    assert Fits(s.owners[s.trace[i].owner], Holding(s, s.trace[i].owner), Follow(s.trace, s.trace[i].owner));
  }

  /**
   In every interleaving, for each accepted request: after its terminal starts only
   the end of that send follows; after a cancellation is claimed no terminal starts;
   after the cancellation takes effect nothing is sent at all.
   */
  lemma TraceOrder(actions: seq<Action>, n: nat, i: nat, j: nat)
    requires n <= |actions| && i < j < |Run(actions, n).trace|
    requires Run(actions, n).trace[i].owner == Run(actions, n).trace[j].owner
    ensures var earlier, later := Run(actions, n).trace[i].kind, Run(actions, n).trace[j].kind;
            && later != Registered
            && (earlier == TerminalStart ==> later == TerminalEnd)
            && (earlier == Claimed ==> later != TerminalStart && later != TerminalEnd && later != Claimed)
            && earlier != Cancelled && earlier != TerminalEnd
  {
    hide Run;
    hide Follow;
    var trace := Run(actions, n).trace;
    RunLegal(actions, n, i);
    LegalOrder(trace, trace[i].owner, i, j);
  }

  /** A claimed request starts at most one more notification. */
  lemma TraceTriple(actions: seq<Action>, n: nat, i: nat, j: nat, k: nat)
    requires n <= |actions| && i < j < k < |Run(actions, n).trace|
    requires var t := Run(actions, n).trace;
             t[i].owner == t[j].owner == t[k].owner && t[i].kind == Claimed && t[j].kind == NotifyStart
    ensures Run(actions, n).trace[k].kind != NotifyStart
  {
    hide Run;
    hide Follow;
    var trace := Run(actions, n).trace;
    var o := trace[i].owner;
    RunLegal(actions, n, i);
    LegalOrder(trace, o, i, j);
    LegalOrder(trace, o, j, k);
    ModeAfter(trace, o, i);
    LegalPrefix(trace, o, j);
    BarredStays(trace, o, i + 1, j, TerminalStart);
  }

  /** While a terminal is being sent its own owner holds the id; an id is never held past the end of its fibre. */
  lemma TerminalOwnsItsId(actions: seq<Action>, n: nat, o: Owner)
    requires n <= |actions| && o < |Run(actions, n).owners|
    ensures var s := Run(actions, n);
            var r := s.owners[o];
            && (r.gate == TerminalSending ==> r.id in s.active && s.active[r.id] == Entry(o, TerminalWriting))
            && (r.fiber == Done ==> r.id !in s.active || s.active[r.id].owner != o)
  {
    RunInv(actions, n);
    var s := Run(actions, n);
    assert Fits(s.owners[o], Holding(s, o), Follow(s.trace, o));
  }

  /** Reusing an id never mixes responses: once a newer owner is registered, no older terminal starts or ends. */
  lemma ReuseNeverMixesTerminals(actions: seq<Action>, n: nat, i: nat, j: nat)
    requires n <= |actions| && i < j < |Run(actions, n).trace|
    requires var s := Run(actions, n);
             var newer, later := s.trace[i], s.trace[j];
             && newer.kind == Registered && later.owner < newer.owner < |s.owners|
             && s.owners[later.owner].id == s.owners[newer.owner].id
    ensures Run(actions, n).trace[j].kind != TerminalStart && Run(actions, n).trace[j].kind != TerminalEnd
  {
    RunInv(actions, n);
    var s := Run(actions, n);
    assert !LateTerminal(s, s.trace[i], s.trace[j]);
  }

  // ----- notifications after the id is lost -----

  /** How many notifications an owner has started. */
  function Starts(trace: seq<Event>, o: Owner): nat {
    if trace == [] then 0
    else Starts(trace[..|trace| - 1], o) + (if trace[|trace| - 1] == Event(NotifyStart, o) then 1 else 0)
  }

  lemma StartsEmit(trace: seq<Event>, e: Event, o: Owner)
    ensures Starts(trace + [e], o) == Starts(trace, o) + (if e == Event(NotifyStart, o) then 1 else 0)
  {
    assert (trace + [e])[..|trace|] == trace;
  }

  lemma {:induction false} StartsConcat(a: seq<Event>, b: seq<Event>, o: Owner)
    ensures Starts(a + b, o) == Starts(a, o) + Starts(b, o)
  {
    if b == [] {
      assert a + b == a;
    } else {
      assert (a + b)[..|a + b| - 1] == a + b[..|b| - 1];
      StartsConcat(a, b[..|b| - 1], o);
    }
  }

  predicate Cleared(s: State, o: Owner)
    requires o < |s.owners|
  {
    s.owners[o].gate == NotifyCleared
  }

  /** An owner without its id: nothing clears it again, and only the start of a cleared notification uses the clearance up. */
  predicate Spends(s: State, t: State, o: Owner)
    requires o < |s.owners| && o < |t.owners|
  {
    && Holding(t, o).None?
    && (Cleared(t, o) ==> Cleared(s, o))
    && Starts(t.trace, o) == Starts(s.trace, o) + (if Cleared(s, o) && !Cleared(t, o) then 1 else 0)
  }

  lemma OwnStepSpends(s: State, a: Action, o: Owner)
    requires o < |s.owners| && Holding(s, o).None?
    ensures o < |OwnerStep(s, a, o).owners| && Spends(s, OwnerStep(s, a, o), o)
  {
    hide Starts;
    StartsEmit(s.trace, Event(NotifyStart, o), o);
    StartsEmit(s.trace, Event(NotifyEnd, o), o);
    StartsEmit(s.trace, Event(TerminalStart, o), o);
    StartsEmit(s.trace, Event(TerminalEnd, o), o);
    StartsEmit(s.trace, Event(Cancelled, o), o);
  }

  lemma OtherStepSpends(s: State, t: State, o: Owner, p: Owner)
    requires p < |s.owners| && o < |s.owners| && p != o && StepShape(s, t, p) && Holding(s, o).None?
    ensures o < |t.owners| && Spends(s, t, o)
  {
    hide Starts;
    if t.trace != s.trace { StartsEmit(s.trace, t.trace[|t.trace| - 1], o); }
  }

  lemma AcceptSpends(s: State, id: RequestId, o: Owner)
    requires o < |s.owners| && Holding(s, o).None?
    ensures o < |Step(s, Accept(id)).owners| && Spends(s, Step(s, Accept(id)), o)
  {
    hide Starts;
    StartsEmit(s.trace, Event(Registered, |s.owners|), o);
  }

  lemma ClaimSpends(s: State, id: RequestId, o: Owner)
    requires Inv(s) && o < |s.owners| && Holding(s, o).None?
    ensures o < |Step(s, ClaimCancel(id)).owners| && Spends(s, Step(s, ClaimCancel(id)), o)
  {
    hide Starts;
    if id in s.active && s.active[id].phase == Running {
      ClaimShape(s, id);
      hide Step;
      hide Inv;
      OtherStepSpends(s, Step(s, ClaimCancel(id)), o, s.active[id].owner);
    }
  }

  lemma StepSpends(s: State, a: Action, o: Owner)
    requires Inv(s) && o < |s.owners| && Holding(s, o).None?
    ensures o < |Step(s, a).owners| && Spends(s, Step(s, a), o)
  {
    hide Inv;
    hide OwnerStep;
    hide StepShape;
    match a {
      case Accept(id) => AcceptSpends(s, id, o);
      case ClaimCancel(id) => ClaimSpends(s, id, o);
      case _ =>
        if a.o == o {
          OwnStepSpends(s, a, o);
        } else if a.o < |s.owners| {
          OwnerStepShape(s, a, a.o);
          OtherStepSpends(s, OwnerStep(s, a, a.o), o, a.o);
        }
    }
  }

  /** From any moment at which an owner does not hold its id, it starts exactly the notification that was cleared then and is no longer cleared now. */
  lemma {:induction false} ReleasedOwnerNotifies(actions: seq<Action>, m: nat, n: nat, o: Owner)
    requires m <= n <= |actions| && o < |Run(actions, m).owners| && Holding(Run(actions, m), o).None?
    ensures o < |Run(actions, n).owners| && Spends(Run(actions, m), Run(actions, n), o)
  {
    hide Inv;
    hide Step;
    hide Starts;
    hide Holding;
    hide Cleared;
    if m < n {
      ReleasedOwnerNotifies(actions, m, n - 1, o);
      RunInv(actions, n - 1);
      StepSpends(Run(actions, n - 1), actions[n - 1], o);
    }
  }

  /** The continuation starts another notification of the owner. */
  predicate StartsMore(actions: seq<Action>, more: seq<Action>, o: Owner) {
    Starts(Run(actions + more, |actions + more|).trace, o) > Starts(Run(actions, |actions|).trace, o)
  }

  /** An owner without its id can still start a notification if and only if one is cleared: some continuation starts one exactly then. */
  lemma LateNotificationPossible(actions: seq<Action>, o: Owner)
    requires o < |Run(actions, |actions|).owners| && Holding(Run(actions, |actions|), o).None?
    ensures Cleared(Run(actions, |actions|), o) <==> exists more: seq<Action> :: StartsMore(actions, more, o)
  {
    var m := |actions|;
    var s := Run(actions, m);
    if Cleared(s, o) {
      var more := [NotifySend(o)];
      SamePrefix(actions, more, m);
      StartsEmit(s.trace, Event(NotifyStart, o), o);
      hide Starts;
      assert Run(actions + more, |actions + more|) == Step(s, NotifySend(o));
      assert StartsMore(actions, more, o);
    }
    if more: seq<Action> :| StartsMore(actions, more, o) {
      SamePrefix(actions, more, m);
      hide Starts;
      hide Run;
      ReleasedOwnerNotifies(actions + more, m, |actions + more|, o);
    }
  }

  lemma {:induction false} SamePrefix(actions: seq<Action>, more: seq<Action>, n: nat)
    requires n <= |actions|
    ensures Run(actions + more, n) == Run(actions, n)
  {
    hide Step;
    if n > 0 {
      SamePrefix(actions, more, n - 1);
      assert (actions + more)[n - 1] == actions[n - 1];
    }
  }

  /** Every step adds at most one event. */
  lemma StepTrace(s: State, a: Action)
    requires Inv(s)
    ensures var t := Step(s, a);
            t.trace == s.trace || (|t.trace| == |s.trace| + 1 && t.trace[..|s.trace|] == s.trace)
  {
    hide Inv;
    hide OwnerStep;
    match a {
      case Accept(id) =>
      case ClaimCancel(id) =>
      case _ => if a.o < |s.owners| { OwnerStepShape(s, a, a.o); }
    }
  }

  /** The step at which an event entered the trace. */
  lemma {:induction false} EventStep(actions: seq<Action>, n: nat, i: nat) returns (m: nat)
    requires n <= |actions| && i < |Run(actions, n).trace|
    ensures m < n && |Run(actions, m).trace| == i && Run(actions, m + 1).trace == Run(actions, n).trace[..i + 1]
  {
    hide Inv;
    hide Step;
    var last, before := Run(actions, n).trace, Run(actions, n - 1).trace;
    RunInv(actions, n - 1);
    StepTrace(Run(actions, n - 1), actions[n - 1]);
    if i < |before| {
      m := EventStep(actions, n - 1, i);
      assert before[..i + 1] == last[..i + 1];
    } else {
      m := n - 1;
      assert last == last[..i + 1];
    }
  }

  /** Only an acceptance registers an owner: the newest one, under an id nobody else holds then. */
  lemma RegisteredByAccept(s: State, a: Action)
    requires Inv(s) && |Step(s, a).trace| == |s.trace| + 1 && Step(s, a).trace[|s.trace|].kind == Registered
    ensures var t := Step(s, a);
            a.Accept? && t.trace[|s.trace|].owner == |s.owners| == |t.owners| - 1
            && t.owners[|s.owners|].id == a.id && t.active == s.active[a.id := Entry(|s.owners|, Running)]
            && forall o: Owner :: o < |s.owners| ==> t.owners[o] == s.owners[o]
  {
    hide Inv;
    hide OwnerStep;
    match a {
      case Accept(id) =>
      case ClaimCancel(id) =>
      case _ => if a.o < |s.owners| { OwnerStepShape(s, a, a.o); }
    }
  }

  lemma {:induction false} IdsStay(actions: seq<Action>, m: nat, n: nat, o: Owner)
    requires m <= n <= |actions| && o < |Run(actions, m).owners|
    ensures o < |Run(actions, n).owners| && Run(actions, n).owners[o].id == Run(actions, m).owners[o].id
  {
    hide OwnerStep;
    if m < n {
      IdsStay(actions, m, n - 1, o);
      var s, a := Run(actions, n - 1), actions[n - 1];
      if !a.Accept? && !a.ClaimCancel? && a.o < |s.owners| { OwnerStepShape(s, a, a.o); }
    }
  }

  lemma RunStep(actions: seq<Action>, n: nat)
    requires n < |actions|
    ensures Run(actions, n + 1) == Step(Run(actions, n), actions[n])
  {
  }

  lemma HeldElsewhere(s: State, o: Owner, newer: Owner)
    requires o < |s.owners| && newer < |s.owners| && o != newer && s.owners[o].id == s.owners[newer].id
    requires s.owners[newer].id in s.active && s.active[s.owners[newer].id] == Entry(newer, Running)
    ensures Holding(s, o).None?
  {
  }

  lemma NewerHolds(actions: seq<Action>, n: nat, i: nat, o: Owner, m: nat)
    requires n <= |actions| && i < |Run(actions, n).trace| && Run(actions, n).trace[i].kind == Registered
    requires var s := Run(actions, n);
             o < s.trace[i].owner < |s.owners| && s.owners[o].id == s.owners[s.trace[i].owner].id
    requires m < n && |Run(actions, m).trace| == i && Run(actions, m + 1).trace == Run(actions, n).trace[..i + 1]
    ensures o < |Run(actions, m + 1).owners| && Holding(Run(actions, m + 1), o).None?
  {
    hide *;
    var s, t, a := Run(actions, m), Run(actions, m + 1), actions[m];
    RunInv(actions, m);
    RunStep(actions, m);
    assert t.trace[i] == Run(actions, n).trace[i];
    RegisteredByAccept(s, a);
    IdsStay(actions, m + 1, n, o);
    IdsStay(actions, m + 1, n, |s.owners|);
    HeldElsewhere(t, o, |s.owners|);
  }

  lemma {:induction false} NoStarts(trace: seq<Event>, o: Owner)
    requires Event(NotifyStart, o) !in trace
    ensures Starts(trace, o) == 0
  {
    if trace != [] {
      NoStarts(trace[..|trace| - 1], o);
    }
  }

  /** An owner that started its terminal starts no notification after its id was reused. */
  lemma AnsweredStaysSilent(actions: seq<Action>, n: nat, i: nat, o: Owner)
    requires n <= |actions| && i < |Run(actions, n).trace| && Run(actions, n).trace[i].kind == Registered
    requires var s := Run(actions, n);
             o < s.trace[i].owner < |s.owners| && s.owners[o].id == s.owners[s.trace[i].owner].id
             && Event(TerminalStart, o) in s.trace
    ensures Starts(Run(actions, n).trace[i + 1..], o) == 0
  {
    var trace := Run(actions, n).trace;
    hide Starts;
    hide Run;
    var k :| 0 <= k < |trace| && trace[k] == Event(TerminalStart, o);
    var tail := trace[i + 1..];
    forall j | 0 <= j < |tail| ensures tail[j] != Event(NotifyStart, o) {
      assert tail[j] == trace[i + 1 + j];
      if trace[i + 1 + j] == Event(NotifyStart, o) {
        if k < i + 1 + j {
          TraceOrder(actions, n, k, i + 1 + j);
        } else {
          ReuseNeverMixesTerminals(actions, n, i, k);
        }
      }
    }
    NoStarts(trace[i + 1..], o);
  }

  /** What an owner without its id spends is what the rest of the trace starts. */
  lemma SpentAfter(s: State, t: State, o: Owner, k: nat)
    requires o < |s.owners| && o < |t.owners| && Spends(s, t, o) && k <= |t.trace| && s.trace == t.trace[..k]
    ensures Starts(t.trace[k..], o) == if Cleared(s, o) && !Cleared(t, o) then 1 else 0
  {
    hide Starts;
    StartsConcat(t.trace[..k], t.trace[k..], o);
    assert t.trace[..k] + t.trace[k..] == t.trace;
  }

  /**
   After an id is registered again, an older owner of it starts exactly the notification
   that was already cleared under its gate at that step and is cleared no more: one at
   most, and none for an owner whose terminal was started.
   */
  lemma LateNotificationsExactly(actions: seq<Action>, n: nat, i: nat, o: Owner) returns (m: nat)
    requires n <= |actions| && i < |Run(actions, n).trace| && Run(actions, n).trace[i].kind == Registered
    requires var s := Run(actions, n);
             o < s.trace[i].owner < |s.owners| && s.owners[o].id == s.owners[s.trace[i].owner].id
    ensures m < n && Run(actions, m + 1).trace == Run(actions, n).trace[..i + 1]
    ensures o < |Run(actions, m + 1).owners|
    ensures Starts(Run(actions, n).trace[i + 1..], o) ==
            if Cleared(Run(actions, m + 1), o) && !Cleared(Run(actions, n), o) then 1 else 0
    ensures Event(TerminalStart, o) in Run(actions, n).trace ==> Starts(Run(actions, n).trace[i + 1..], o) == 0
  {
    hide *;
    m := EventStep(actions, n, i);
    NewerHolds(actions, n, i, o, m);
    ReleasedOwnerNotifies(actions, m + 1, n, o);
    SpentAfter(Run(actions, m + 1), Run(actions, n), o, i + 1);
    if Event(TerminalStart, o) in Run(actions, n).trace {
      AnsweredStaysSilent(actions, n, i, o);
    }
  }

  /** The run of the next lemma. */
  ghost function LateNotification(id: RequestId): seq<Action> {
    [Accept(id), Fork(0), NotifyAcquire(0), NotifyCheck(0), FiberStops(0), FiberRelease(0), Accept(id), NotifySend(0)]
  }

  /** A notification that passed its check before its own fibre stopped may start after the id has a newer owner. */
  lemma NotificationMayOutliveItsId(id: RequestId)
    ensures var s := Run(LateNotification(id), 8);
            && |s.owners| == 2 && s.owners[0].id == s.owners[1].id == id
            && s.trace == [Event(Registered, 0), Event(Registered, 1), Event(NotifyStart, 0)]
  {
    var actions := LateNotification(id);
    var r := Record(id, Free, Unforked, false, false, false);
    var stopped := r.(fiber := Done, gate := NotifyCleared);
    var s1 := State(map[id := Entry(0, Running)], [r], [Event(Registered, 0)]);
    var s7 := State(map[id := Entry(1, Running)], [stopped, r], [Event(Registered, 0), Event(Registered, 1)]);
    assert Run(actions, 0) == Initial;
    hide Run;
    RunStep(actions, 0);
    assert Step(Initial, actions[0]) == s1;
    RunStep(actions, 1);
    assert Step(s1, actions[1]) == s1.(owners := [r.(fiber := Handling)]);
    RunStep(actions, 2);
    assert Run(actions, 3) == s1.(owners := [r.(fiber := Handling, gate := NotifyHeld)]);
    RunStep(actions, 3);
    assert Run(actions, 4) == s1.(owners := [r.(fiber := Handling, gate := NotifyCleared)]);
    RunStep(actions, 4);
    assert Run(actions, 5) == s1.(owners := [r.(fiber := Finishing, gate := NotifyCleared)]);
    RunStep(actions, 5);
    assert Run(actions, 6) == State(map[], [stopped], [Event(Registered, 0)]);
    RunStep(actions, 6);
    assert Run(actions, 7) == s7;
    RunStep(actions, 7);
    assert Run(actions, 8) == State(s7.active, [stopped.(gate := NotifySending), r], s7.trace + [Event(NotifyStart, 0)]);
  }

  // ----- what every request gets -----

  /** What a mode says about the trace. */
  lemma {:induction false} ModeTells(trace: seq<Event>, o: Owner)
    ensures Follow(trace, o) == Finished ==> Event(TerminalEnd, o) in trace
    ensures ClaimedMode(Follow(trace, o)) ==> Event(Claimed, o) in trace
  {
    if trace != [] {
      var init, last := trace[..|trace| - 1], trace[|trace| - 1];
      ModeTells(init, o);
      assert last in trace && forall e :: e in init ==> e in trace;
    }
  }

  lemma FitsAt(actions: seq<Action>, n: nat, o: Owner)
    requires n <= |actions| && o < |Run(actions, n).owners|
    ensures Fits(Run(actions, n).owners[o], Holding(Run(actions, n), o), Follow(Run(actions, n).trace, o))
  {
    RunInv(actions, n);
    hide Run;
    hide Fits;
    hide Follow;
  }

  /** The owner's response was sent whole, or its cancellation was claimed. */
  predicate Settled(trace: seq<Event>, o: Owner) {
    Event(TerminalEnd, o) in trace || Event(Claimed, o) in trace
  }

  /** A fibre leaves `complete` only with its response sent or its cancellation claimed. */
  lemma LeavesSettled(s: State, a: Action, o: Owner)
    requires o < |s.owners| && s.owners[o].fiber == InComplete
    requires Fits(s.owners[o], Holding(s, o), Follow(s.trace, o))
    requires o < |Step(s, a).owners| && Step(s, a).owners[o].fiber != InComplete
    ensures Follow(s.trace, o) == Finished || ClaimedMode(Follow(s.trace, o))
  {
    hide Follow;
    if !a.Accept? && !a.ClaimCancel? && a.o < |s.owners| {
      OwnerStepShape(s, a, a.o);
      if a.o == o { CompleteStep(s, a, o); }
    }
    hide OwnerStep;
    hide Fits;
  }

  lemma CompleteStep(s: State, a: Action, o: Owner)
    requires o < |s.owners| && s.owners[o].fiber == InComplete
    requires Fits(s.owners[o], Holding(s, o), Follow(s.trace, o))
    requires o < |OwnerStep(s, a, o).owners| && OwnerStep(s, a, o).owners[o].fiber != InComplete
    ensures Follow(s.trace, o) == Finished || ClaimedMode(Follow(s.trace, o))
  {
    hide Follow;
  }

  /** The trace only grows. */
  lemma TraceGrows(s: State, a: Action)
    requires Inv(s)
    ensures forall e :: e in s.trace ==> e in Step(s, a).trace
  {
    StepTrace(s, a);
    hide *;
    var t := Step(s, a);
    forall e | e in s.trace ensures e in t.trace {
      var i :| 0 <= i < |s.trace| && s.trace[i] == e;
      if t.trace != s.trace { assert t.trace[..|s.trace|][i] == t.trace[i]; }
    }
  }

  lemma OwnersStay(s: State, a: Action)
    ensures |s.owners| <= |Step(s, a).owners|
  {
    hide OwnerStep;
    if !a.Accept? && !a.ClaimCancel? && a.o < |s.owners| { OwnerStepShape(s, a, a.o); }
  }

  /**
   Every completion is answered: once a fibre went into `complete`, it is still there, or
   its response was sent whole, or its cancellation was claimed; and never both.
   */
  lemma {:induction false} CompletedIsSettled(actions: seq<Action>, m: nat, n: nat, o: Owner)
    requires m <= n <= |actions| && o < |Run(actions, m).owners| && Run(actions, m).owners[o].fiber == InComplete
    ensures o < |Run(actions, n).owners|
    ensures Run(actions, n).owners[o].fiber == InComplete || Settled(Run(actions, n).trace, o)
    ensures !(Event(TerminalEnd, o) in Run(actions, n).trace && Event(Claimed, o) in Run(actions, n).trace)
    decreases n
  {
    hide Step;
    hide Fits;
    hide Inv;
    hide Follow;
    NeverBoth(actions, n, o);
    if m < n {
      CompletedIsSettled(actions, m, n - 1, o);
      var s, a := Run(actions, n - 1), actions[n - 1];
      RunInv(actions, n - 1);
      OwnersStay(s, a);
      TraceGrows(s, a);
      if s.owners[o].fiber == InComplete && Step(s, a).owners[o].fiber != InComplete {
        FitsAt(actions, n - 1, o);
        LeavesSettled(s, a, o);
        ModeTells(s.trace, o);
      }
    }
  }

  lemma NeverBoth(actions: seq<Action>, n: nat, o: Owner)
    requires n <= |actions|
    ensures !(Event(TerminalEnd, o) in Run(actions, n).trace && Event(Claimed, o) in Run(actions, n).trace)
  {
    var trace := Run(actions, n).trace;
    hide *;
    if Event(TerminalEnd, o) in trace && Event(Claimed, o) in trace {
      var i :| 0 <= i < |trace| && trace[i] == Event(TerminalEnd, o);
      var j :| 0 <= j < |trace| && trace[j] == Event(Claimed, o);
      if i < j { TraceOrder(actions, n, i, j); } else { TraceOrder(actions, n, j, i); }
    }
  }

  // ----- what can still happen -----

  /** More actions from a state. */
  function Continue(s: State, more: seq<Action>): State
    decreases |more|
  {
    if more == [] then s else Continue(Step(s, more[0]), more[1..])
  }

  lemma {:induction false} RunContinues(actions: seq<Action>, more: seq<Action>)
    ensures Run(actions + more, |actions + more|) == Continue(Run(actions, |actions|), more)
    decreases |more|
  {
    hide Step;
    if more == [] {
      assert actions + more == actions;
    } else {
      var first := actions + [more[0]];
      assert actions + more == first + more[1..] && first[|actions|] == more[0];
      RunContinues(first, more[1..]);
      SamePrefix(actions, [more[0]], |actions|);
      assert Run(first, |first|) == Step(Run(first, |actions|), more[0]);
    }
  }

  /** The owner holds its id in a phase, its gate and fibre are these, and its record is otherwise what it was. */
  predicate Stands(s: State, o: Owner, id: RequestId, phase: Phase, gate: Gate, fiber: Fiber) {
    o < |s.owners| && s.owners[o].id == id && s.owners[o].gate == gate && s.owners[o].fiber == fiber
    && id in s.active && s.active[id] == Entry(o, phase)
  }

  /** The notification in progress, if any, ends and leaves the gate. */
  function EndNotification(o: Owner): seq<Action> {
    [NotifyCheck(o), NotifySend(o), NotifySent(o)]
  }

  function Unnotified(gate: Gate): Gate {
    if gate in {NotifyHeld, NotifyCleared, NotifySending} then Free else gate
  }

  lemma ContinueThree(s: State, a: Action, b: Action, c: Action)
    ensures Continue(s, [a, b, c]) == Step(Step(Step(s, a), b), c)
  {
    hide Step;
    assert [a, b, c][1..] == [b, c] && [b, c][1..] == [c] && [c][1..] == [];
    assert Continue(s, [a, b, c]) == Continue(Step(s, a), [b, c]);
    assert Continue(Step(s, a), [b, c]) == Continue(Step(Step(s, a), b), [c]);
  }

  lemma ContinueFour(s: State, a: Action, b: Action, c: Action, d: Action)
    ensures Continue(s, [a, b, c, d]) == Step(Step(Step(Step(s, a), b), c), d)
  {
    hide Step;
    assert [a, b, c, d][1..] == [b, c, d];
    ContinueThree(Step(s, a), b, c, d);
  }

  lemma NotificationEnds(s: State, o: Owner, id: RequestId, phase: Phase, gate: Gate, fiber: Fiber)
    requires Stands(s, o, id, phase, gate, fiber)
    ensures var t := Continue(s, EndNotification(o));
            Stands(t, o, id, phase, Unnotified(gate), fiber) && t.owners[o].claimed == s.owners[o].claimed
  {
    ContinueThree(s, NotifyCheck(o), NotifySend(o), NotifySent(o));
    hide Continue;
    var s1 := Step(s, NotifyCheck(o));
    var gate1 := if gate == NotifyHeld then if phase == Running then NotifyCleared else Free else gate;
    assert Stands(s1, o, id, phase, gate1, fiber) && s1.owners[o].claimed == s.owners[o].claimed;
    var s2 := Step(s1, NotifySend(o));
    assert Stands(s2, o, id, phase, if gate1 == NotifyCleared then NotifySending else gate1, fiber) && s2.owners[o].claimed == s.owners[o].claimed;
  }

  /** `complete` from its acquisition of the gate to the end of the send. */
  function SendTerminal(o: Owner): seq<Action> {
    [TerminalAcquire(o), TerminalCheck(o), TerminalSend(o), TerminalSendEnds(o)]
  }

  lemma TerminalIsOwned(s: State, o: Owner, id: RequestId)
    requires Stands(s, o, id, Running, Free, Completing)
    ensures Stands(Step(Step(s, TerminalAcquire(o)), TerminalCheck(o)), o, id, TerminalWriting, TerminalOwned, InComplete)
  {
    assert Stands(Step(s, TerminalAcquire(o)), o, id, Running, TerminalHeld, InComplete);
  }

  lemma TerminalIsSent(s: State, o: Owner, id: RequestId)
    requires Stands(s, o, id, TerminalWriting, TerminalOwned, InComplete)
    ensures Event(TerminalEnd, o) in Step(Step(s, TerminalSend(o)), TerminalSendEnds(o)).trace
  {
    var t := Step(s, TerminalSend(o));
    assert o < |t.owners| && t.owners[o].gate == TerminalSending;
    var e := Step(t, TerminalSendEnds(o));
    assert e.trace[|e.trace| - 1] == Event(TerminalEnd, o);
  }

  lemma TerminalGoesOut(s: State, o: Owner, id: RequestId)
    requires Stands(s, o, id, Running, Free, Completing)
    ensures Event(TerminalEnd, o) in Continue(s, SendTerminal(o)).trace
  {
    hide Step;
    hide Stands;
    TerminalIsOwned(s, o, id);
    TerminalIsSent(Step(Step(s, TerminalAcquire(o)), TerminalCheck(o)), o, id);
    ContinueFour(s, TerminalAcquire(o), TerminalCheck(o), TerminalSend(o), TerminalSendEnds(o));
  }

  lemma {:induction false} ContinueConcat(s: State, a: seq<Action>, b: seq<Action>)
    ensures Continue(s, a + b) == Continue(Continue(s, a), b)
    decreases |a|
  {
    hide Step;
    if a == [] {
      assert a + b == b;
    } else {
      assert (a + b)[0] == a[0] && (a + b)[1..] == a[1..] + b;
      ContinueConcat(Step(s, a[0]), a[1..], b);
    }
  }

  /** The run with these further actions has sent the owner's response. */
  predicate Answers(actions: seq<Action>, more: seq<Action>, o: Owner) {
    Event(TerminalEnd, o) in Run(actions + more, |actions + more|).trace
  }

  lemma RunningIsAnswered(actions: seq<Action>, o: Owner) returns (more: seq<Action>)
    requires o < |Run(actions, |actions|).owners| && Run(actions, |actions|).owners[o].fiber == Completing
    requires Holding(Run(actions, |actions|), o) == Some(Running)
    ensures Answers(actions, more, o)
  {
    var s := Run(actions, |actions|);
    FitsAt(actions, |actions|, o);
    var id := s.owners[o].id;
    WaitingFits(s.owners[o], Holding(s, o), Follow(s.trace, o));
    hide Run;
    hide Follow;
    hide Fits;
    hide Continue;
    NotificationEnds(s, o, id, Running, s.owners[o].gate, Completing);
    TerminalGoesOut(Continue(s, EndNotification(o)), o, id);
    more := EndNotification(o) + SendTerminal(o);
    ContinueConcat(s, EndNotification(o), SendTerminal(o));
    RunContinues(actions, more);
  }

  /** A fibre that waits to complete holds its id, and has a quiet or notifying gate, or it was claimed. */
  lemma WaitingFits(r: Record, held: Option<Phase>, m: Mode)
    requires Fits(r, held, m) && r.fiber == Completing
    ensures held == Some(Running) ==> Unnotified(r.gate) == Free
    ensures held != Some(Running) ==> ClaimedMode(m)
  {
    assert held.Some? ==> held.value.Running? || held.value.TerminalWriting? || held.value.CancellationPending? || held.value.Cancelling?;
  }

  lemma ClaimedIsNever(actions: seq<Action>, o: Owner, more: seq<Action>)
    requires o < |Run(actions, |actions|).owners| && Run(actions, |actions|).owners[o].fiber == Completing
    requires Holding(Run(actions, |actions|), o) != Some(Running)
    ensures !Answers(actions, more, o)
  {
    hide *;
    var s := Run(actions, |actions|);
    FitsAt(actions, |actions|, o);
    WaitingFits(s.owners[o], Holding(s, o), Follow(s.trace, o));
    ModeTells(s.trace, o);
    ClaimedForGood(actions, more, o);
    NeverBoth(actions + more, |actions + more|, o);
    NotAnswered(actions, more, o);
  }

  lemma NotAnswered(actions: seq<Action>, more: seq<Action>, o: Owner)
    requires Event(TerminalEnd, o) !in Run(actions + more, |actions + more|).trace
    ensures !Answers(actions, more, o)
  {
  }

  /** A fibre that waits to complete can still be answered, in some continuation, if and only if it holds its id in Running. */
  lemma TerminalPossible(actions: seq<Action>, o: Owner)
    requires o < |Run(actions, |actions|).owners| && Run(actions, |actions|).owners[o].fiber == Completing
    ensures Holding(Run(actions, |actions|), o) == Some(Running) <==> exists more: seq<Action> :: Answers(actions, more, o)
  {
    hide *;
    if Holding(Run(actions, |actions|), o) == Some(Running) {
      var more := RunningIsAnswered(actions, o);
    } else {
      forall more: seq<Action> ensures !Answers(actions, more, o) {
        ClaimedIsNever(actions, o, more);
      }
    }
  }

  lemma {:induction false} ClaimedForGood(actions: seq<Action>, more: seq<Action>, o: Owner)
    requires Event(Claimed, o) in Run(actions, |actions|).trace
    ensures Event(Claimed, o) in Run(actions + more, |actions + more|).trace
    decreases |more|
  {
    hide Step;
    if more == [] {
      assert actions + more == actions;
    } else {
      var most := actions + more[..|more| - 1];
      assert actions + more == most + [more[|more| - 1]];
      ClaimedForGood(actions, more[..|more| - 1], o);
      SamePrefix(most, [more[|more| - 1]], |most|);
      RunInv(most, |most|);
      RunStep(actions + more, |most|);
      assert (actions + more)[|most|] == more[|more| - 1];
      TraceGrows(Run(most, |most|), more[|more| - 1]);
    }
  }

  /** The run with these further actions has marked the owner's cancellation and interrupted its fibre. */
  predicate Interrupts(actions: seq<Action>, more: seq<Action>, o: Owner) {
    Interrupted(Run(actions + more, |actions + more|), o)
  }

  predicate Interrupted(s: State, o: Owner) {
    Event(Cancelled, o) in s.trace && o < |s.owners| && s.owners[o].interrupted
  }

  /** The cancellation from its acquisition of the gate; a `complete` that waits for its check gives the gate up first. */
  function MarkClaim(o: Owner): seq<Action> {
    [TerminalCheck(o), CancelAcquire(o), CancelMark(o)]
  }

  function InterruptFiber(o: Owner): seq<Action> {
    [Fork(o), AnnounceFiber(o), CancelInterrupt(o)]
  }

  lemma ClaimIsMarked(s: State, o: Owner, id: RequestId, gate: Gate, fiber: Fiber)
    requires Stands(s, o, id, CancellationPending, gate, fiber) && gate in {Free, TerminalHeld, CancelHeld}
    requires s.owners[o].claimed || gate == CancelHeld
    ensures var t := Continue(s, MarkClaim(o));
            o < |t.owners| && t.owners[o].gate == CancelMarked && Event(Cancelled, o) in t.trace
  {
    ContinueThree(s, TerminalCheck(o), CancelAcquire(o), CancelMark(o));
    hide Continue;
    var s1 := Step(s, TerminalCheck(o));
    var gate1 := if gate == TerminalHeld then Free else gate;
    assert Stands(s1, o, id, CancellationPending, gate1, if gate == TerminalHeld then Finishing else fiber) && (s1.owners[o].claimed || gate1 == CancelHeld);
    var s2 := Step(s1, CancelAcquire(o));
    assert Stands(s2, o, id, CancellationPending, CancelHeld, s1.owners[o].fiber);
    var t := Step(s2, CancelMark(o));
    assert t.active[id] == Entry(o, Cancelling);
    assert t.trace[|t.trace| - 1] == Event(Cancelled, o);
  }

  lemma MarkedIsInterrupted(s: State, o: Owner)
    requires o < |s.owners| && s.owners[o].gate == CancelMarked && Event(Cancelled, o) in s.trace
    ensures Interrupted(Continue(s, InterruptFiber(o)), o)
  {
    ContinueThree(s, Fork(o), AnnounceFiber(o), CancelInterrupt(o));
    hide Continue;
    var s1 := Step(s, Fork(o));
    assert s1.trace == s.trace && o < |s1.owners| && s1.owners[o].gate == CancelMarked && s1.owners[o].fiber != Unforked;
    var s2 := Step(s1, AnnounceFiber(o));
    assert s2.trace == s.trace && o < |s2.owners| && s2.owners[o].gate == CancelMarked && s2.owners[o].ready;
  }

  lemma PendingGate(actions: seq<Action>, o: Owner)
    requires o < |Run(actions, |actions|).owners| && Holding(Run(actions, |actions|), o) == Some(CancellationPending)
    ensures var r := Run(actions, |actions|).owners[o];
            && Unnotified(r.gate) in {Free, TerminalHeld, CancelHeld} && (r.claimed || r.gate == CancelHeld)
            && Stands(Run(actions, |actions|), o, r.id, CancellationPending, r.gate, r.fiber)
  {
    FitsAt(actions, |actions|, o);
    var s := Run(actions, |actions|);
    PendingFits(s.owners[o], Follow(s.trace, o));
    hide Run;
    hide Follow;
    hide Fits;
  }

  lemma PendingFits(r: Record, m: Mode)
    requires Fits(r, Some(CancellationPending), m)
    ensures Unnotified(r.gate) in {Free, TerminalHeld, CancelHeld} && (r.claimed || r.gate == CancelHeld)
  {
  }

  /** No claim is lost: after any run, while it is pending, some continuation marks the cancellation and interrupts the fibre. */
  lemma ClaimCanTakeEffect(actions: seq<Action>, o: Owner) returns (more: seq<Action>)
    requires o < |Run(actions, |actions|).owners| && Holding(Run(actions, |actions|), o) == Some(CancellationPending)
    ensures Interrupts(actions, more, o)
  {
    var s := Run(actions, |actions|);
    PendingGate(actions, o);
    var record := s.owners[o];
    NotificationEnds(s, o, record.id, CancellationPending, record.gate, record.fiber);
    var quiet := Continue(s, EndNotification(o));
    ClaimIsMarked(quiet, o, record.id, Unnotified(record.gate), record.fiber);
    MarkedIsInterrupted(Continue(quiet, MarkClaim(o)), o);
    ContinueConcat(s, EndNotification(o), MarkClaim(o));
    ContinueConcat(s, EndNotification(o) + MarkClaim(o), InterruptFiber(o));
    more := EndNotification(o) + MarkClaim(o) + InterruptFiber(o);
    RunContinues(actions, more);
    hide Run;
    hide Continue;
    hide Step;
    hide Interrupted;
    hide Stands;
  }

  /** A cancellation claims the owner that holds its id in Running, and nobody otherwise. */
  lemma ClaimExactly(s: State, id: RequestId)
    requires Inv(s)
    ensures Step(s, ClaimCancel(id)).trace ==
            if id in s.active && s.active[id].phase == Running then s.trace + [Event(Claimed, s.active[id].owner)] else s.trace
  {
    hide Fits;
  }

  // ----- whether a notification can still go out -----

  /** A notification is cleared, or one would pass its check: the owner runs and its response is not waiting for its own. */
  predicate CanNotify(s: State, o: Owner)
    requires o < |s.owners|
  {
    Cleared(s, o) || (Holding(s, o) == Some(Running) && s.owners[o].gate != TerminalHeld)
  }

  /** It cannot notify and has started nothing. */
  predicate Silent(s: State, t: State, o: Owner) {
    o < |t.owners| && !CanNotify(t, o) && Starts(t.trace, o) == Starts(s.trace, o)
  }

  lemma OwnStepSilent(s: State, a: Action, o: Owner)
    requires o < |s.owners| && !CanNotify(s, o)
    ensures Silent(s, OwnerStep(s, a, o), o)
  {
    hide Starts;
    StartsEmit(s.trace, Event(NotifyEnd, o), o);
    StartsEmit(s.trace, Event(TerminalStart, o), o);
    StartsEmit(s.trace, Event(TerminalEnd, o), o);
    StartsEmit(s.trace, Event(Cancelled, o), o);
  }

  lemma OtherStepSilent(s: State, t: State, o: Owner, p: Owner)
    requires p < |s.owners| && o < |s.owners| && p != o && StepShape(s, t, p) && !CanNotify(s, o)
    ensures Silent(s, t, o)
  {
    hide Starts;
    ShapeFrame(s, t, p, o);
    if t.trace != s.trace { StartsEmit(s.trace, t.trace[|t.trace| - 1], o); }
  }

  lemma AcceptSilent(s: State, id: RequestId, o: Owner)
    requires o < |s.owners| && !CanNotify(s, o)
    ensures Silent(s, Step(s, Accept(id)), o)
  {
    hide Starts;
    StartsEmit(s.trace, Event(Registered, |s.owners|), o);
  }

  lemma ClaimSilent(s: State, id: RequestId, o: Owner)
    requires o < |s.owners| && !CanNotify(s, o)
    ensures Silent(s, Step(s, ClaimCancel(id)), o)
  {
    hide Starts;
    if id in s.active { StartsEmit(s.trace, Event(Claimed, s.active[id].owner), o); }
  }

  lemma StepSilent(s: State, a: Action, o: Owner)
    requires o < |s.owners| && !CanNotify(s, o)
    ensures Silent(s, Step(s, a), o)
  {
    hide OwnerStep;
    hide StepShape;
    match a {
      case Accept(id) => AcceptSilent(s, id, o);
      case ClaimCancel(id) => ClaimSilent(s, id, o);
      case _ =>
        if a.o == o {
          OwnStepSilent(s, a, o);
        } else if a.o < |s.owners| {
          OwnerStepShape(s, a, a.o);
          OtherStepSilent(s, OwnerStep(s, a, a.o), o, a.o);
        }
    }
  }

  lemma {:induction false} SilentForGood(s: State, more: seq<Action>, o: Owner)
    requires o < |s.owners| && !CanNotify(s, o)
    ensures Silent(s, Continue(s, more), o)
    decreases |more|
  {
    hide Step;
    hide CanNotify;
    if more != [] {
      StepSilent(s, more[0], o);
      SilentForGood(Step(s, more[0]), more[1..], o);
    }
  }

  lemma RunningGate(r: Record, m: Mode)
    requires Fits(r, Some(Running), m) && r.gate != TerminalHeld
    ensures Unnotified(r.gate) == Free
  {
  }

  /** A notification in progress ends, and the next one is cleared. */
  lemma NotificationIsCleared(s: State, o: Owner)
    requires o < |s.owners| && CanNotify(s, o) && Unnotified(s.owners[o].gate) == Free
    ensures var t := Step(Step(Step(s, NotifySent(o)), NotifyAcquire(o)), NotifyCheck(o));
            o < |t.owners| && Cleared(t, o) && Starts(t.trace, o) == Starts(s.trace, o)
  {
    hide Starts;
    StartsEmit(s.trace, Event(NotifyEnd, o), o);
    var s1 := Step(s, NotifySent(o));
    assert o < |s1.owners| && CanNotify(s1, o) && s1.owners[o].gate in {Free, NotifyHeld, NotifyCleared} && Starts(s1.trace, o) == Starts(s.trace, o);
    var s2 := Step(s1, NotifyAcquire(o));
    assert o < |s2.owners| && CanNotify(s2, o) && s2.owners[o].gate in {NotifyHeld, NotifyCleared} && s2.trace == s1.trace;
  }

  lemma ClearedStarts(s: State, o: Owner)
    requires o < |s.owners| && Cleared(s, o)
    ensures Starts(Step(s, NotifySend(o)).trace, o) == Starts(s.trace, o) + 1
  {
    StartsEmit(s.trace, Event(NotifyStart, o), o);
    hide Starts;
  }

  lemma AbleNotifies(actions: seq<Action>, o: Owner)
    requires o < |Run(actions, |actions|).owners| && CanNotify(Run(actions, |actions|), o)
    ensures StartsMore(actions, [NotifySent(o), NotifyAcquire(o), NotifyCheck(o), NotifySend(o)], o)
  {
    var s := Run(actions, |actions|);
    FitsAt(actions, |actions|, o);
    if !Cleared(s, o) { RunningGate(s.owners[o], Follow(s.trace, o)); }
    hide *;
    NotificationIsCleared(s, o);
    var t := Step(Step(Step(s, NotifySent(o)), NotifyAcquire(o)), NotifyCheck(o));
    ClearedStarts(t, o);
    ContinueFour(s, NotifySent(o), NotifyAcquire(o), NotifyCheck(o), NotifySend(o));
    StartsAfter(actions, [NotifySent(o), NotifyAcquire(o), NotifyCheck(o), NotifySend(o)], o);
  }

  lemma StartsAfter(actions: seq<Action>, more: seq<Action>, o: Owner)
    ensures StartsMore(actions, more, o) <==> Starts(Continue(Run(actions, |actions|), more).trace, o) > Starts(Run(actions, |actions|).trace, o)
  {
    RunContinues(actions, more);
    hide Run;
    hide Continue;
    hide Starts;
  }

  lemma UnableIsSilent(actions: seq<Action>, more: seq<Action>, o: Owner)
    requires o < |Run(actions, |actions|).owners| && !CanNotify(Run(actions, |actions|), o)
    ensures !StartsMore(actions, more, o)
  {
    SilentForGood(Run(actions, |actions|), more, o);
    StartsAfter(actions, more, o);
    hide Run;
    hide Continue;
    hide Starts;
    hide StartsMore;
  }

  /** After any run, an owner can start another notification in some continuation if and only if one is cleared, or it runs and its response does not hold the gate. */
  lemma NotificationPossible(actions: seq<Action>, o: Owner)
    requires o < |Run(actions, |actions|).owners|
    ensures CanNotify(Run(actions, |actions|), o) <==> exists more: seq<Action> :: StartsMore(actions, more, o)
  {
    hide *;
    if CanNotify(Run(actions, |actions|), o) {
      AbleNotifies(actions, o);
    } else {
      forall more: seq<Action> ensures !StartsMore(actions, more, o) {
        UnableIsSilent(actions, more, o);
      }
    }
  }
}
