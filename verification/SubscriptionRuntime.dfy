/**
 The client's subscription runtime (src/McpClient.ts): one fibre reads frames, a gate
 guards the state and the bounded output, the caller may close at any moment and the
 consumer takes at its own pace. One step per gate section, state read or queue take.
 */
module SubscriptionRuntime {
  import opened Common
  import opened SubscriptionFilters

  datatype Failure =
    | BadAcknowledgement | BadFrame | BadTerminal
    | Overflow | Dispatch | Transport | UnexpectedEnd

  datatype Closure = CallerClosed | Graceful(result: nat) | Broken(failure: Failure)

  /** What the consumer takes: a notification, the end of the stream, or its failure. */
  datatype Take = Item(change: Change) | End | Fail(failure: Failure)

  datatype State = Opening | Open(filter: Filter) | TerminalPending(result: nat) | Closed(closure: Closure)

  /** How the `opening` promise was settled. */
  datatype Outcome = Acknowledged(filter: Filter) | Refused

  const BUFFER := 16
  const OUTPUT := 17

  /** What the gate guards. `offered` lists every take ever queued; `lost` says an offer found the queue full. */
  datatype Shared = Shared(
    state: State, output: seq<Take>, promised: seq<Outcome>, closures: seq<Closure>, offered: seq<Take>, lost: bool)

  function ClosingTake(c: Closure): Take {
    match c
    case CallerClosed => End
    case Graceful(_) => End
    case Broken(failure) => Fail(failure)
  }

  /** `Queue.offerUnsafe`. */
  function Offer(s: Shared, t: Take): Shared {
    if |s.output| < OUTPUT then s.(output := s.output + [t], offered := s.offered + [t]) else s.(lost := true)
  }

  /** `settleUnlocked`. */
  function Settle(s: Shared, closure: Closure): Shared {
    if s.state.Closed? then s
    else
      Offer(s, ClosingTake(closure)).(
        state := Closed(closure), closures := s.closures + [closure],
        promised := if s.state.Opening? then s.promised + [Refused] else s.promised)
  }

  /** `acknowledge`. */
  function Acknowledge(s: Shared, filter: Filter): Shared {
    if s.state.Opening? then s.(state := Open(filter), promised := s.promised + [Acknowledged(filter)]) else s
  }

  /** `setTerminal`. */
  function SetTerminal(s: Shared, result: nat): Shared {
    if s.state.Open? then s.(state := TerminalPending(result)) else s
  }

  /** `offerNotification`: the failure it raises, if any. */
  function OfferNotification(s: Shared, change: Change): (Option<Failure>, Shared) {
    if !s.state.Open? then (Some(BadFrame), Settle(s, Broken(BadFrame)))
    else if |s.output| >= BUFFER then (Some(Overflow), Settle(s, Broken(Overflow)))
    else (None, Offer(s, Item(change)))
  }

  /** `callerClose` up to the interruption of the reader. */
  function CallerClose(s: Shared): Shared {
    Settle(s, if s.state.TerminalPending? then Graceful(s.state.result) else CallerClosed)
  }

  /** The runtime as the source holds it. */
  class Runtime {
    var state: State
    var output: seq<Take>
    var promised: seq<Outcome>
    var closures: seq<Closure>
    ghost var offered: seq<Take>
    ghost var lost: bool

    ghost function View(): Shared
      reads this
    {
      Shared(state, output, promised, closures, offered, lost)
    }

    constructor ()
      ensures View() == Shared(Opening, [], [], [], [], false)
    {
      state, output, promised, closures := Opening, [], [], [];
      offered, lost := [], false;
    }

    method OfferUnsafe(take: Take) returns (accepted: bool)
      modifies this
      ensures View() == Offer(old(View()), take) && accepted == (old(|output|) < OUTPUT)
    {
      accepted := |output| < OUTPUT;
      if accepted {
        output := output + [take];
        offered := offered + [take];
      } else {
        lost := true;
      }
    }

    method SettleUnlocked(closure: Closure) returns (settled: bool)
      modifies this
      ensures View() == Settle(old(View()), closure) && settled == !old(state.Closed?)
    {
      if state.Closed? {
        return false;
      }
      var wasOpening := state.Opening?;
      state := Closed(closure);
      var accepted := OfferUnsafe(ClosingTake(closure));
      closures := closures + [closure];
      if wasOpening {
        promised := promised + [Refused];
      }
      return true;
    }

    method AcknowledgeOpening(filter: Filter) returns (done: bool)
      modifies this
      ensures View() == Acknowledge(old(View()), filter) && done == old(state.Opening?)
    {
      if !state.Opening? {
        return false;
      }
      state := Open(filter);
      promised := promised + [Acknowledged(filter)];
      return true;
    }

    method SetTerminalResult(result: nat) returns (done: bool)
      modifies this
      ensures View() == SetTerminal(old(View()), result) && done == old(state.Open?)
    {
      if !state.Open? {
        return false;
      }
      state := TerminalPending(result);
      return true;
    }

    method OfferChange(change: Change) returns (failure: Option<Failure>)
      modifies this
      ensures (failure, View()) == OfferNotification(old(View()), change)
    {
      if !state.Open? {
        var settled := SettleUnlocked(Broken(BadFrame));
        return Some(BadFrame);
      }
      if |output| >= BUFFER {
        var settled := SettleUnlocked(Broken(Overflow));
        return Some(Overflow);
      }
      var accepted := OfferUnsafe(Item(change));
      return None;
    }

    method Close()
      modifies this
      ensures View() == CallerClose(old(View()))
    {
      if state.Closed? {
        return;
      }
      var settled := SettleUnlocked(if state.TerminalPending? then Graceful(state.result) else CallerClosed);
    }
  }

  // ----- the reader, the caller and the consumer -----

  /** A frame as decoding sees it; `sound` stands for its decoder and the owner test. */
  datatype Frame =
    | AckFrame(filter: Filter, sound: bool)
    | ChangeFrame(change: Change, sound: bool)
    | ResponseFrame(result: nat, sound: bool)
    | ErrorFrame

  /** Why the reading loop ended: the stream was exhausted, a frame failed, or the transport did. */
  datatype Ending = Exhausted | Owned(failure: Failure) | StreamFailed(protocol: bool)

  /** Where the reading fibre stands between two of its steps. */
  datatype Reader =
    | Reading
    | Acking(filter: Filter)
    | Offering(change: Change)
    | Setting(result: nat)
    | Claiming(failure: Failure)
    | Finishing(ending: Ending)
    | Deciding(closure: Closure)
    | Gone

  /** `leaving` says a close has left the gate and is about to interrupt the reader. */
  datatype System = System(
    shared: Shared, reader: Reader, leaving: bool, requested: Filter, frames: seq<Frame>, taken: seq<Take>)

  datatype Action = Receive(frame: Frame) | Gate | DispatchFails | StreamEnds(ending: Ending) | CloseNow | Interrupt | TakeOne

  /** `processFrame` up to its gate section: the state is read once, without the gate. */
  function Process(state: State, requested: Filter, frame: Frame): Reader {
    match state
    case Closed(_) => Reading
    case TerminalPending(_) => Claiming(BadFrame)
    case Opening =>
      if frame.AckFrame? && frame.sound && Subset(frame.filter, requested) then Acking(frame.filter) else Claiming(BadAcknowledgement)
    case Open(filter) =>
      match frame
      case AckFrame(_, _) => Claiming(BadAcknowledgement)
      case ChangeFrame(change, sound) => if sound && Selects(filter, change) then Offering(change) else Claiming(BadFrame)
      case ResponseFrame(result, sound) => if sound then Setting(result) else Claiming(BadTerminal)
      case ErrorFrame => Claiming(BadTerminal)
  }

  /** `finishFailure` and `finishSuccess` up to the gate. */
  function Decide(state: State, ending: Ending): Reader {
    match state
    case Closed(_) => Gone
    case TerminalPending(result) => Deciding(if ending.Owned? then Broken(ending.failure) else Graceful(result))
    case Opening => Deciding(Broken(EndFailure(ending, BadAcknowledgement, BadAcknowledgement)))
    case Open(_) => Deciding(Broken(EndFailure(ending, UnexpectedEnd, BadFrame)))
  }

  /** The failure an ending stands for, given those of an exhausted and of a malformed stream. */
  function EndFailure(ending: Ending, exhausted: Failure, malformed: Failure): Failure {
    match ending
    case Exhausted => exhausted
    case Owned(failure) => failure
    case StreamFailed(protocol) => if protocol then malformed else Transport
  }

  /** The next gate section, or state read, of the reader. */
  function GateStep(s: System): System {
    match s.reader
    case Acking(filter) => s.(shared := Acknowledge(s.shared, filter), reader := Reading)
    case Setting(result) => s.(shared := SetTerminal(s.shared, result), reader := Reading)
    case Offering(change) =>
      var (failure, shared) := OfferNotification(s.shared, change);
      s.(shared := shared, reader := if failure.Some? then Claiming(failure.value) else Reading)
    case Claiming(failure) => s.(shared := Settle(s.shared, Broken(failure)), reader := Finishing(Owned(failure)))
    case Finishing(ending) => s.(reader := Decide(s.shared.state, ending))
    case Deciding(closure) => s.(shared := Settle(s.shared, closure), reader := Gone)
    case _ => s
  }

  /** One step; a step that is not enabled changes nothing. */
  function Step(s: System, a: Action): System {
    match a
    case Receive(frame) =>
      if s.reader.Reading? then s.(reader := Process(s.shared.state, s.requested, frame), frames := s.frames + [frame]) else s
    case Gate => GateStep(s)
    case DispatchFails => if s.reader.Offering? then s.(reader := Claiming(Dispatch)) else s
    case StreamEnds(ending) => if s.reader.Reading? && !ending.Owned? then s.(reader := Finishing(ending)) else s
    case CloseNow => s.(shared := CallerClose(s.shared), leaving := true)
    case Interrupt => if s.leaving then s.(reader := Gone) else s
    case TakeOne =>
      if s.shared.output == [] then s
      else s.(shared := s.shared.(output := s.shared.output[1..]), taken := s.taken + [s.shared.output[0]])
  }

  function Initial(requested: Filter): System {
    System(Shared(Opening, [], [], [], [], false), Reading, false, requested, [], [])
  }

  function Run(requested: Filter, actions: seq<Action>, n: nat): System
    requires n <= |actions|
  {
    if n == 0 then Initial(requested) else Step(Run(requested, actions, n - 1), actions[n - 1])
  }

  // ----- the invariant -----

  predicate AllItems(takes: seq<Take>) {
    forall i :: 0 <= i < |takes| ==> takes[i].Item?
  }

  /** The notifications before the closing take. */
  function Body(s: Shared): seq<Take> {
    if s.state.Closed? && s.offered != [] then s.offered[..|s.offered| - 1] else s.offered
  }

  /** Exactly one closing take, offered last, exactly when closed; it always found room. */
  predicate OutputFits(s: Shared) {
    && !s.lost
    && AllItems(Body(s))
    && |s.output| <= (if s.state.Closed? then OUTPUT else BUFFER)
    && (s.state.Closed? ==> s.closures == [s.state.closure] && s.offered == Body(s) + [ClosingTake(s.state.closure)])
    && (!s.state.Closed? ==> s.closures == [])
  }

  /** The opening promise is settled once, before anything is offered. */
  predicate OpeningFits(s: Shared, requested: Filter) {
    && (s.state.Opening? ==> s.promised == [] && s.offered == [])
    && (!s.state.Opening? ==> |s.promised| == 1)
    && (s.state.Open? ==> s.promised == [Acknowledged(s.state.filter)])
    && (s.state.TerminalPending? ==> s.promised[0].Acknowledged?)
    && (s.promised != [] && s.promised[0].Acknowledged? ==> Subset(s.promised[0].filter, requested))
    && (s.promised != [] && s.promised[0].Refused? ==> Body(s) == [])
  }

  predicate Chosen(takes: seq<Take>, filter: Filter) {
    forall i :: 0 <= i < |takes| ==> takes[i].Item? && Selects(filter, takes[i].change)
  }

  /** Everything offered was selected by the acknowledged filter. */
  predicate SelectionFits(s: Shared) {
    s.promised != [] && s.promised[0].Acknowledged? ==> Chosen(Body(s), s.promised[0].filter)
  }

  /** What the reader knows between its state read and its gate section: only a close can have come in between. */
  predicate ReaderFits(s: Shared, r: Reader, requested: Filter) {
    match r
    case Acking(filter) => Subset(filter, requested) && (s.state.Opening? || s.state.Closed?)
    case Offering(change) => (s.state.Open? && Selects(s.state.filter, change)) || s.state.Closed?
    case Setting(result) => s.state.Open? || s.state.Closed?
    case Finishing(ending) => ending.Owned? ==> s.state.Closed?
    case Deciding(closure) => closure.Graceful? ==> s.state == TerminalPending(closure.result) || s.state.Closed?
    case Gone => s.state.Closed?
    case _ => true
  }

  /** The changes a server sent, in order. */
  function Changes(frames: seq<Frame>): seq<Take> {
    if frames == [] then []
    else Changes(frames[..|frames| - 1]) + (if frames[|frames| - 1].ChangeFrame? then [Item(frames[|frames| - 1].change)] else [])
  }

  /** Nothing is lost, repeated or reordered between the frames and the queue. */
  predicate PipelineFits(s: System) {
    && Body(s.shared) <= Changes(s.frames)
    && (!s.shared.state.Closed? && (s.reader.Reading? || s.reader.Acking? || s.reader.Setting?) ==> Body(s.shared) == Changes(s.frames))
    && (!s.shared.state.Closed? && s.reader.Offering? ==> Body(s.shared) + [Item(s.reader.change)] == Changes(s.frames))
  }

  /** A graceful close repeats the result of a terminal response the server sent. */
  predicate TerminalFits(s: System) {
    && (s.shared.state.TerminalPending? ==> ResponseFrame(s.shared.state.result, true) in s.frames)
    && (s.reader.Setting? ==> ResponseFrame(s.reader.result, true) in s.frames)
    && (s.shared.state.Closed? && s.shared.state.closure.Graceful? ==> ResponseFrame(s.shared.state.closure.result, true) in s.frames)
  }

  /** What the gate guards, together with what the consumer took. */
  predicate SharedFits(s: Shared, taken: seq<Take>, requested: Filter) {
    && OutputFits(s) && OpeningFits(s, requested) && SelectionFits(s)
    && s.offered == taken + s.output
  }

  predicate Inv(s: System) {
    && SharedFits(s.shared, s.taken, s.requested)
    && ReaderFits(s.shared, s.reader, s.requested) && PipelineFits(s) && TerminalFits(s)
    && (s.leaving ==> s.shared.state.Closed?)
  }

  // ----- the gate sections keep it -----

  lemma SettleFits(s: Shared, closure: Closure, taken: seq<Take>, requested: Filter)
    requires SharedFits(s, taken, requested)
    ensures SharedFits(Settle(s, closure), taken, requested)
    ensures Settle(s, closure).state.Closed? && Body(Settle(s, closure)) == Body(s)
    ensures Settle(s, closure).state == if s.state.Closed? then s.state else Closed(closure)
  {
    hide Chosen;
    hide Subset;
    hide AllItems;
    if !s.state.Closed? {
      var t, c := Settle(s, closure), ClosingTake(closure);
      hide ClosingTake;
      assert |s.output| < OUTPUT;
      assert t.offered == s.offered + [c] && t.output == s.output + [c];
      assert Body(t) == s.offered by { assert t.offered[..|t.offered| - 1] == s.offered; }
      Assoc(taken, s.output, [c]);
      hide Settle;
    }
  }

  lemma AcknowledgeFits(s: Shared, filter: Filter, taken: seq<Take>, requested: Filter)
    requires SharedFits(s, taken, requested) && Subset(filter, requested)
    ensures SharedFits(Acknowledge(s, filter), taken, requested) && Body(Acknowledge(s, filter)) == Body(s)
  {
    hide Subset;
    hide AllItems;
  }

  lemma SetTerminalFits(s: Shared, result: nat, taken: seq<Take>, requested: Filter)
    requires SharedFits(s, taken, requested)
    ensures SharedFits(SetTerminal(s, result), taken, requested) && Body(SetTerminal(s, result)) == Body(s)
  {
    hide Subset;
    hide AllItems;
    hide Chosen;
  }

  lemma ItemFits(s: Shared, change: Change, taken: seq<Take>, requested: Filter)
    requires SharedFits(s, taken, requested) && s.state.Open? && Selects(s.state.filter, change) && |s.output| < BUFFER
    ensures SharedFits(Offer(s, Item(change)), taken, requested) && Body(Offer(s, Item(change))) == Body(s) + [Item(change)]
  {
    Assoc(taken, s.output, [Item(change)]);
    hide Subset;
    hide Selects;
  }

  lemma TakeFits(s: Shared, taken: seq<Take>, requested: Filter)
    requires SharedFits(s, taken, requested) && s.output != []
    ensures var t := s.(output := s.output[1..]);
            SharedFits(t, taken + [s.output[0]], requested) && Body(t) == Body(s)
  {
    Head(s.output);
    Assoc(taken, [s.output[0]], s.output[1..]);
    hide Subset;
    hide AllItems;
    hide Chosen;
  }

  // ----- every step keeps the invariant -----

  lemma ChangesSnoc(frames: seq<Frame>, frame: Frame)
    ensures Changes(frames + [frame]) == Changes(frames) + (if frame.ChangeFrame? then [Item(frame.change)] else [])
    ensures Changes(frames) <= Changes(frames + [frame])
  {
    assert (frames + [frame])[..|frames|] == frames;
  }

  lemma OpenIsSound(s: Shared, taken: seq<Take>, requested: Filter)
    requires SharedFits(s, taken, requested)
    ensures s.state.Open? ==> Subset(s.state.filter, requested)
  {
  }

  lemma ReceiveKeeps(s: System, frame: Frame)
    requires Inv(s) && s.reader.Reading?
    ensures Inv(Step(s, Receive(frame)))
  {
    ChangesSnoc(s.frames, frame);
    OpenIsSound(s.shared, s.taken, s.requested);
    hide SharedFits;
    hide Subset;
    hide Selects;
    hide Body;
    hide Changes;
    assert frame in s.frames + [frame];
    assert forall f :: f in s.frames ==> f in s.frames + [frame];
  }

  lemma GateKeeps(s: System)
    requires Inv(s)
    ensures Inv(GateStep(s))
  {
    hide Subset;
    hide Selects;
    hide SharedFits;
    hide Settle;
    hide Offer;
    hide Body;
    hide Changes;
    match s.reader
    case Acking(filter) => AcknowledgeFits(s.shared, filter, s.taken, s.requested);
    case Setting(result) => SetTerminalFits(s.shared, result, s.taken, s.requested);
    case Offering(change) => OfferKeeps(s);
    case Claiming(failure) => SettleFits(s.shared, Broken(failure), s.taken, s.requested);
    case Deciding(closure) => SettleFits(s.shared, closure, s.taken, s.requested);
    case _ =>
  }

  lemma OfferKeeps(s: System)
    requires Inv(s) && s.reader.Offering?
    ensures Inv(GateStep(s))
  {
    hide Subset;
    hide SharedFits;
    hide Settle;
    hide Offer;
    hide Body;
    hide Changes;
    var change := s.reader.change;
    SettleFits(s.shared, Broken(BadFrame), s.taken, s.requested);
    SettleFits(s.shared, Broken(Overflow), s.taken, s.requested);
    if s.shared.state.Open? && |s.shared.output| < BUFFER {
      ItemFits(s.shared, change, s.taken, s.requested);
      OfferKeepsState(s.shared, Item(change));
    }
    hide Selects;
  }

  lemma OfferKeepsState(s: Shared, t: Take)
    ensures Offer(s, t).state == s.state
  {
  }

  lemma StepKeeps(s: System, a: Action)
    requires Inv(s)
    ensures Inv(Step(s, a))
  {
    match a
    case Receive(frame) => if s.reader.Reading? { ReceiveKeeps(s, frame); }
    case Gate => GateKeeps(s);
    case DispatchFails => InvParts(s, a);
    case StreamEnds(_) => InvParts(s, a);
    case CloseNow => CloseKeeps(s);
    case Interrupt => InvParts(s, a);
    case TakeOne => if s.shared.output != [] { TakeKeeps(s); }
  }

  /** Steps that only move the reader. */
  lemma InvParts(s: System, a: Action)
    requires Inv(s) && (a.DispatchFails? || a.StreamEnds? || a.Interrupt?)
    ensures Inv(Step(s, a))
  {
    hide SharedFits;
    hide Body;
    hide Changes;
    hide Subset;
    hide Selects;
  }

  lemma CloseKeeps(s: System)
    requires Inv(s)
    ensures Inv(Step(s, CloseNow))
  {
    hide SharedFits;
    hide Settle;
    hide Body;
    hide Changes;
    SettleFits(s.shared, if s.shared.state.TerminalPending? then Graceful(s.shared.state.result) else CallerClosed, s.taken, s.requested);
  }

  lemma TakeKeeps(s: System)
    requires Inv(s) && s.shared.output != []
    ensures Inv(Step(s, TakeOne))
  {
    hide SharedFits;
    hide Body;
    hide Changes;
    hide Subset;
    hide Selects;
    TakeFits(s.shared, s.taken, s.requested);
  }

  lemma {:induction false} RunInv(requested: Filter, actions: seq<Action>, n: nat)
    requires n <= |actions|
    ensures Inv(Run(requested, actions, n)) && Run(requested, actions, n).requested == requested
  {
    hide Inv;
    hide GateStep;
    if n == 0 {
      InitialFits(requested);
    } else {
      RunInv(requested, actions, n - 1);
      StepKeeps(Run(requested, actions, n - 1), actions[n - 1]);
      RequestStays(Run(requested, actions, n - 1), actions[n - 1]);
      hide Step;
    }
  }

  lemma InitialFits(requested: Filter)
    ensures Inv(Initial(requested))
  {
  }

  lemma RequestStays(s: System, a: Action)
    ensures Step(s, a).requested == s.requested
  {
    hide Acknowledge;
    hide Settle;
    hide OfferNotification;
    hide SetTerminal;
  }

  // ----- what it gives -----

  /** At most 16 notifications wait, the closing take always finds room, and nothing is ever dropped. */
  lemma ClosingAlwaysFits(requested: Filter, actions: seq<Action>, n: nat)
    requires n <= |actions|
    ensures var s := Run(requested, actions, n).shared;
            !s.lost && |s.output| <= (if s.state.Closed? then OUTPUT else BUFFER)
  {
    RunInv(requested, actions, n);
    hide Run;
  }

  /** One closure at most, and it is what the consumer reads last; the opening promise is settled with it or before it. */
  lemma OneClosure(requested: Filter, actions: seq<Action>, n: nat)
    requires n <= |actions|
    ensures var s := Run(requested, actions, n);
            && |s.shared.closures| == (if s.shared.state.Closed? then 1 else 0)
            && |s.shared.promised| == (if s.shared.state.Opening? then 0 else 1)
            && (forall i :: 0 <= i < |s.taken| && !s.taken[i].Item? ==>
                  s.shared.state.Closed? && i == |s.taken| - 1 && s.shared.output == [] && s.taken[i] == ClosingTake(s.shared.closures[0]))
            && (s.shared.state.Closed? && s.shared.output == [] ==> s.taken != [] && s.taken[|s.taken| - 1] == ClosingTake(s.shared.closures[0]))
            && (s.shared.state.Closed? && s.shared.closures[0].Graceful? ==> ResponseFrame(s.shared.closures[0].result, true) in s.frames)
  {
    RunInv(requested, actions, n);
    var s := Run(requested, actions, n);
    hide Run;
    hide PipelineFits;
    hide ReaderFits;
    hide SelectionFits;
    assert forall k :: 0 <= k < |Body(s.shared)| ==> Body(s.shared)[k].Item? && s.shared.offered[k] == Body(s.shared)[k];
    forall i | 0 <= i < |s.taken| && !s.taken[i].Item?
      ensures s.shared.state.Closed? && i == |s.taken| - 1 && s.shared.output == [] && s.taken[i] == ClosingTake(s.shared.closures[0])
    {
      assert s.shared.offered[i] == s.taken[i];
    }
    if s.shared.state.Closed? && s.shared.output == [] {
      assert s.shared.offered == s.taken;
    }
  }

  /** The consumer reads the server's changes in order from the first, each selected by the acknowledged and so by the requested filter. */
  lemma DeliveredIsSelected(requested: Filter, actions: seq<Action>, n: nat)
    requires n <= |actions|
    ensures var s := Run(requested, actions, n);
            && (forall i :: 0 <= i < |s.taken| && s.taken[i].Item? ==>
                  && i < |Changes(s.frames)| && s.taken[i] == Changes(s.frames)[i]
                  && s.shared.promised != [] && s.shared.promised[0].Acknowledged?
                  && Selects(s.shared.promised[0].filter, s.taken[i].change) && Selects(requested, s.taken[i].change))
  {
    RunInv(requested, actions, n);
    var s := Run(requested, actions, n);
    hide Run;
    hide ReaderFits;
    hide TerminalFits;
    forall i | 0 <= i < |s.taken| && s.taken[i].Item?
      ensures i < |Changes(s.frames)| && s.taken[i] == Changes(s.frames)[i]
      ensures s.shared.promised != [] && s.shared.promised[0].Acknowledged?
      ensures Selects(s.shared.promised[0].filter, s.taken[i].change) && Selects(requested, s.taken[i].change)
    {
      TakenItem(s, i);
      hide SharedFits;
      SubsetIsSelection(s.shared.promised[0].filter, requested);
    }
  }

  lemma TakenItem(s: System, i: nat)
    requires Inv(s) && i < |s.taken| && s.taken[i].Item?
    ensures i < |Changes(s.frames)| && s.taken[i] == Changes(s.frames)[i]
    ensures |s.shared.promised| == 1 && s.shared.promised[0].Acknowledged? && Subset(s.shared.promised[0].filter, s.requested)
    ensures Selects(s.shared.promised[0].filter, s.taken[i].change)
  {
    hide ReaderFits;
    hide TerminalFits;
    hide Subset;
    hide Selects;
    hide Changes;
    assert s.shared.offered[i] == s.taken[i];
    assert i < |Body(s.shared)| && Body(s.shared)[i] == s.taken[i];
  }

  // ----- what a frame leads to -----

  /** The reader reads a frame and passes the gate. */
  function Read(s: System, frame: Frame): System {
    GateStep(Step(s, Receive(frame)))
  }

  /** The end of the reading loop: the state is read, and the closure is settled. */
  function EndWith(s: System, ending: Ending): System {
    GateStep(GateStep(Step(s, StreamEnds(ending))))
  }

  /** A sound acknowledgement within the request opens the subscription with its filter. */
  lemma AcknowledgementOpens(s: System, filter: Filter)
    requires s.reader.Reading? && s.shared.state.Opening? && Subset(filter, s.requested)
    ensures var t := Read(s, AckFrame(filter, true));
            t.reader.Reading? && t.shared.state == Open(filter) && t.shared.output == s.shared.output && t.shared.promised == s.shared.promised + [Acknowledged(filter)]
  {
    hide Subset;
  }

  /** A sound change that the acknowledged filter selects is queued while fewer than 16 wait, and overflow closes the subscription otherwise. */
  lemma ChangeIsOffered(s: System, change: Change)
    requires s.reader.Reading? && s.shared.state.Open? && Selects(s.shared.state.filter, change)
    ensures var t := Read(s, ChangeFrame(change, true));
            if |s.shared.output| < 16 then t == s.(shared := t.shared, frames := t.frames) && t.shared.output == s.shared.output + [Item(change)] && t.shared.state == s.shared.state
            else t.shared.state == Closed(Broken(Overflow))
  {
    hide Selects;
  }

  /** A sound terminal response, then the end of the stream, closes gracefully with its result. */
  lemma TerminalCloses(s: System, result: nat, ending: Ending)
    requires s.reader.Reading? && s.shared.state.Open? && !ending.Owned?
    ensures var t := Read(s, ResponseFrame(result, true));
            && t.reader.Reading? && t.shared.state == TerminalPending(result)
            && EndWith(t, ending).shared.state == Closed(Graceful(result)) && EndWith(t, ending).reader.Gone?
  {
  }

  /** Which frames the protocol admits where. */
  predicate Admitted(state: State, requested: Filter, frame: Frame) {
    match state
    case Opening => frame.AckFrame? && frame.sound && Subset(frame.filter, requested)
    case Open(filter) => (frame.ChangeFrame? && frame.sound && Selects(filter, frame.change)) || (frame.ResponseFrame? && frame.sound)
    case TerminalPending(_) => false
    case Closed(_) => true
  }

  /** Any other frame closes the subscription as broken, with the failure of where it came. */
  lemma OtherFramesBreak(s: System, frame: Frame)
    requires s.reader.Reading? && !Admitted(s.shared.state, s.requested, frame)
    ensures Read(s, frame).shared.state == Closed(Broken(
              if s.shared.state.Opening? || (s.shared.state.Open? && frame.AckFrame?) then BadAcknowledgement
              else if s.shared.state.Open? && !frame.ChangeFrame? then BadTerminal
              else BadFrame))
  {
    hide Subset;
    hide Selects;
  }

  /** After the close frames change nothing. */
  lemma ClosedIgnoresFrames(s: System, frame: Frame)
    requires s.reader.Reading? && s.shared.state.Closed?
    ensures Read(s, frame).shared == s.shared && Read(s, frame).reader.Reading?
  {
  }

  /** A stream that ends before its terminal closes the subscription as broken: exhausted, malformed, or by its transport. */
  lemma EarlyEndBreaks(s: System, ending: Ending)
    requires s.reader.Reading? && !ending.Owned? && (s.shared.state.Opening? || s.shared.state.Open?)
    ensures EndWith(s, ending).shared.state == Closed(Broken(
              if ending == StreamFailed(false) then Transport
              else if s.shared.state.Opening? then BadAcknowledgement
              else if ending.Exhausted? then UnexpectedEnd
              else BadFrame))
  {
  }

  /** The caller's close ends the subscription at once, gracefully when a terminal is pending, and does nothing twice. */
  lemma CallerCloses(s: System)
    ensures var t := Step(s, CloseNow).shared;
            t.state == match s.shared.state {
              case Closed(_) => s.shared.state
              case TerminalPending(result) => Closed(Graceful(result))
              case _ => Closed(CallerClosed)
            }
  {
  }

  /** A change that cannot be passed on closes the subscription as broken. */
  lemma DispatchFailureBreaks(s: System)
    requires s.reader.Offering? && s.shared.state.Open?
    ensures var t := Step(Step(s, DispatchFails), Gate);
            t.shared.state == Closed(Broken(Dispatch)) && t.shared.closures == s.shared.closures + [Broken(Dispatch)]
  {
  }

  /** The consumer takes what was offered first, and nothing else changes. */
  lemma ConsumerTakesFirst(s: System)
    requires s.shared.output != []
    ensures Step(s, TakeOne) == s.(shared := s.shared.(output := s.shared.output[1..]), taken := s.taken + [s.shared.output[0]])
  {
  }
}
