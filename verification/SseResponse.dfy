/**
 The event-stream response of src/transport/StreamableHttpServerTransport.ts: senders
 share a lock and a pool of frame slots, the response body drains the queue, and a
 delivery acknowledgement is completed when its frame reaches the socket.
 */
module SseResponse {
  import opened Common

  datatype Message = Acknowledgement | Notification(n: nat) | Terminal(t: nat)

  /** A frame carries the delivery acknowledgement its sender waits for; a control item ends or fails the stream. */
  datatype Item = Frame(message: Message, ack: Option<nat>) | Control(failed: bool)

  datatype Phase = Open | Terminated | Closed

  /** The holder of the lock and how far it has come. */
  datatype Holder =
    | Nobody
    | Locked(message: Message)
    | AwaitSlot(message: Message)
    | HasSlot(message: Message)
    | AwaitControl(failed: bool)

  datatype Consumer = Idle | Holding(item: Item) | Ended

  /**
   `offered` lists every item ever put on the queue and `released` every item the body
   has taken apart; `values` are encoded but not yet read, `acks` is `deliveryAcks`;
   `delivered` and `popped` list what reached the socket and the acknowledgement shifted with it.
   */
  datatype State = State(
    max: nat,
    subscription: bool,
    started: bool,
    phase: Phase,
    holder: Holder,
    taken: nat,
    queue: seq<Item>,
    consumer: Consumer,
    acks: seq<Option<nat>>,
    values: seq<Message>,
    delivered: seq<Message>,
    popped: seq<Option<nat>>,
    offered: seq<Item>,
    released: seq<Item>,
    shut: bool)

  datatype Action =
    | Lock(message: Message)
    | Check(encodes: bool)
    | TakeSlot
    | InterruptWait
    | OfferFrame
    | OfferControl
    | FailStream
    | TakeItem
    | ReleaseItem
    | Deliver
    | Shutdown

  function Initial(max: nat, subscription: bool): State {
    State(max, subscription, false, Open, Nobody, 0, [], Idle, [], [], [], [], [], [], false)
  }

  /**
   Whether a sender with this message can exist. On a subscription the opener sends the
   acknowledgement and installs the registry sinks under the lock, so notifications come
   after it; a result never comes first because the handler of subscriptions/listen does
   not complete by itself (src/McpServer.ts:2614-2618).
   */
  predicate MaySend(s: State, m: Message) {
    if s.subscription then if s.started then !m.Acknowledgement? else m.Acknowledgement? else !m.Acknowledgement?
  }

  function Enqueue(s: State, item: Item): State {
    s.(queue := s.queue + [item], offered := s.offered + [item])
  }

  /** The body takes one item apart: the slot goes back, the acknowledgement is queued, a frame's value can be read. */
  function Released(s: State): State
    requires s.consumer.Holding?
  {
    var item := s.consumer.item;
    if item.Frame? then
      s.(consumer := Idle, taken := if s.taken > 0 then s.taken - 1 else 0,
         acks := s.acks + [item.ack], values := s.values + [item.message], released := s.released + [item])
    else s.(consumer := Ended, acks := s.acks + [None], released := s.released + [item])
  }

  /** One step; a disabled step, and every step after the shutdown, changes nothing. */
  function Step(s: State, a: Action): State {
    if s.shut then s else
    match a
    case Lock(m) =>
      if s.holder.Nobody? && MaySend(s, m) then s.(holder := Locked(m), started := s.started || m.Acknowledgement?) else s
    case Check(encodes) =>
      if !s.holder.Locked? then s
      else if s.phase != Open then s.(holder := Nobody)
      else if !encodes then s.(phase := Closed, holder := AwaitControl(true))
      else s.(phase := if s.holder.message.Terminal? then Terminated else Open, holder := AwaitSlot(s.holder.message))
    case TakeSlot =>
      if s.holder.AwaitSlot? && s.taken < s.max then s.(taken := s.taken + 1, holder := HasSlot(s.holder.message)) else s
    case InterruptWait =>
      // the opener runs in the request's own fibre, whose interruption closes the scope
      if s.holder.AwaitSlot? then s.(holder := Nobody, shut := s.holder.message.Acknowledgement?) else s
    case OfferFrame =>
      if s.holder.HasSlot? && |s.queue| < s.max + 1 then
        var m := s.holder.message;
        Enqueue(s, Frame(m, if m.Terminal? then Some(|s.offered|) else None))
          .(holder := if m.Terminal? then AwaitControl(false) else Nobody)
      else s
    case OfferControl =>
      if s.holder.AwaitControl? && |s.queue| < s.max + 1 then Enqueue(s, Control(s.holder.failed)).(holder := Nobody) else s
    case FailStream =>
      if s.holder.Nobody? && s.subscription && s.started && s.phase == Open
      then s.(phase := Closed, holder := AwaitControl(true)) else s
    case TakeItem =>
      if s.consumer.Idle? && s.queue != [] then s.(consumer := Holding(s.queue[0]), queue := s.queue[1..]) else s
    case ReleaseItem =>
      if s.consumer.Holding? then Released(s) else s
    case Deliver =>
      if s.values == [] || s.acks == [] then s
      else
        s.(values := s.values[1..], acks := s.acks[1..],
           delivered := s.delivered + [s.values[0]], popped := s.popped + [s.acks[0]])
    case Shutdown => s.(shut := true)
  }

  function Run(max: nat, subscription: bool, actions: seq<Action>, n: nat): State
    requires n <= |actions|
  {
    if n == 0 then Initial(max, subscription) else Step(Run(max, subscription, actions, n - 1), actions[n - 1])
  }

  // ----- the invariant -----

  function FrameCount(items: seq<Item>): nat {
    if items == [] then 0 else FrameCount(items[1..]) + (if items[0].Frame? then 1 else 0)
  }

  function InHand(c: Consumer): seq<Item> {
    if c.Holding? then [c.item] else []
  }

  /** Every taken slot is with the lock holder, in the queue, or with the body. */
  predicate SlotsFit(s: State) {
    && s.taken == FrameCount(s.queue) + FrameCount(InHand(s.consumer)) + (if s.holder.HasSlot? then 1 else 0)
    && s.taken <= s.max
  }

  /** Frames only, then possibly one control item. */
  predicate ControlLast(offered: seq<Item>) {
    forall i :: 0 <= i < |offered| - 1 ==> offered[i].Frame?
  }

  predicate Ends(offered: seq<Item>) {
    offered != [] && offered[|offered| - 1].Control?
  }

  /** A terminal frame is followed by nothing but the control item; it alone carries an acknowledgement. */
  predicate TerminalLast(offered: seq<Item>) {
    forall i :: 0 <= i < |offered| && offered[i].Frame? ==>
      && (offered[i].ack.Some? <==> offered[i].message.Terminal?)
      && (offered[i].message.Terminal? ==> forall j :: i < j < |offered| ==> offered[j].Control?)
  }

  predicate HasTerminal(offered: seq<Item>) {
    exists i :: 0 <= i < |offered| && offered[i].Frame? && offered[i].message.Terminal?
  }

  /** The phase and the holder know whether the stream may still grow. */
  predicate PhaseFits(s: State) {
    && ControlLast(s.offered) && TerminalLast(s.offered)
    && (s.phase == Open ==> !Ends(s.offered) && !HasTerminal(s.offered))
    && (s.holder.AwaitSlot? || s.holder.HasSlot? ==>
          && !Ends(s.offered) && !HasTerminal(s.offered)
          && s.phase == (if s.holder.message.Terminal? then Terminated else Open))
    && (s.holder.AwaitControl? ==> s.phase != Open && !Ends(s.offered))
  }

  /** A subscription's stream starts with its acknowledgement, or fails before any frame. */
  predicate OpeningFits(s: State) {
    s.subscription ==>
      && (s.offered != [] ==> s.offered[0].Control? || s.offered[0].message.Acknowledgement?)
      && (!s.started ==> s.offered == [] && s.holder.Nobody? && s.phase == Open)
      && (s.started && s.offered == [] && !s.shut ==>
            || s.holder.AwaitControl?
            || (s.phase == Open && !s.holder.Nobody? && s.holder.message.Acknowledgement?))
      && (s.offered != [] && !s.holder.Nobody? && !s.holder.AwaitControl? ==> !s.holder.message.Acknowledgement?)
  }

  function AcksOf(items: seq<Item>): seq<Option<nat>> {
    seq(|items|, i requires 0 <= i < |items| => if items[i].Frame? then items[i].ack else None)
  }

  /** The released frames' messages; a control item contributes none. */
  function MessagesOf(items: seq<Item>): seq<Message> {
    if items == [] then []
    else MessagesOf(items[..|items| - 1]) + (if items[|items| - 1].Frame? then [items[|items| - 1].message] else [])
  }

  /** Nothing is lost, repeated or reordered between the queue and the socket. */
  predicate PipelineFits(s: State) {
    && s.offered == s.released + (InHand(s.consumer) + s.queue)
    && s.popped + s.acks == AcksOf(s.released)
    && s.delivered + s.values == MessagesOf(s.released)
    && |s.delivered| == |s.popped|
    && (s.consumer.Ended? <==> Ends(s.released))
  }

  predicate Inv(s: State) {
    SlotsFit(s) && PhaseFits(s) && OpeningFits(s) && PipelineFits(s)
  }

  lemma {:induction false} FrameCountAppend(items: seq<Item>, item: Item)
    ensures FrameCount(items + [item]) == FrameCount(items) + (if item.Frame? then 1 else 0)
  {
    if items == [] {
      assert [] + [item] == [item] && [item][1..] == [];
    } else {
      assert (items + [item])[1..] == items[1..] + [item];
      FrameCountAppend(items[1..], item);
    }
  }

  lemma FrameCountOne(item: Item)
    ensures FrameCount([item]) == (if item.Frame? then 1 else 0) && FrameCount([]) == 0
  {
    assert [item][1..] == [];
  }

  lemma {:induction false} FrameCountBound(items: seq<Item>)
    requires ControlLast(items)
    ensures |items| == FrameCount(items) + (if Ends(items) then 1 else 0)
  {
    if items != [] {
      FrameCountBound(items[1..]);
    }
  }

  lemma MessagesAppend(items: seq<Item>, item: Item)
    ensures MessagesOf(items + [item]) == MessagesOf(items) + (if item.Frame? then [item.message] else [])
  {
    assert (items + [item])[..|items|] == items;
  }

  lemma AcksAppend(items: seq<Item>, item: Item)
    ensures AcksOf(items + [item]) == AcksOf(items) + [if item.Frame? then item.ack else None]
  {
  }

  lemma PartsControlLast(a: seq<Item>, b: seq<Item>)
    requires ControlLast(a + b)
    ensures ControlLast(a) && ControlLast(b)
    ensures Ends(b) ==> Ends(a + b)
  {
    var whole := a + b;
    forall i | 0 <= i < |a| - 1 ensures a[i].Frame? { assert whole[i] == a[i]; }
    forall i | 0 <= i < |b| - 1 ensures b[i].Frame? { assert whole[|a| + i] == b[i]; }
    assert b != [] ==> whole[|whole| - 1] == b[|b| - 1];
  }

  /** The queue is a tail of what was offered. */
  lemma QueueIsTail(s: State)
    requires PipelineFits(s) && ControlLast(s.offered)
    ensures ControlLast(s.queue) && (Ends(s.queue) ==> Ends(s.offered)) && ControlLast(s.released)
  {
    hide ControlLast;
    hide Ends;
    PartsControlLast(s.released, InHand(s.consumer) + s.queue);
    PartsControlLast(InHand(s.consumer), s.queue);
  }

  /** In every state that fits, no offer ever waits for room: the queue stays within slots plus one control item. */
  lemma OffersNeverWait(s: State)
    requires Inv(s)
    ensures |s.queue| <= s.max + 1
    ensures s.holder.HasSlot? || s.holder.AwaitControl? ==> |s.queue| <= s.max
    ensures FrameCount(s.queue) <= s.taken <= s.max
  {
    hide FrameCount;
    QueueIsTail(s);
    FrameCountBound(s.queue);
    assert ControlLast(s.queue);
  }

  // ----- every step keeps the invariant -----

  lemma EnqueueKeeps(s: State, item: Item)
    requires PipelineFits(s)
    ensures PipelineFits(Enqueue(s, item))
    ensures FrameCount(Enqueue(s, item).queue) == FrameCount(s.queue) + (if item.Frame? then 1 else 0)
  {
    FrameCountAppend(s.queue, item);
    hide AcksOf;
    hide MessagesOf;
    Assoc(InHand(s.consumer), s.queue, [item]);
    Assoc(s.released, InHand(s.consumer) + s.queue, [item]);
  }

  /** Growing the stream before its end. */
  lemma GrowKeeps(offered: seq<Item>, item: Item)
    requires ControlLast(offered) && TerminalLast(offered) && !Ends(offered)
    requires HasTerminal(offered) ==> item.Control?
    requires item.Frame? ==> (item.ack.Some? <==> item.message.Terminal?)
    ensures ControlLast(offered + [item]) && TerminalLast(offered + [item])
    ensures Ends(offered + [item]) <==> item.Control?
    ensures HasTerminal(offered + [item]) <==> HasTerminal(offered) || (item.Frame? && item.message.Terminal?)
  {
    var longer := offered + [item];
    assert longer[|offered|] == item;
    if HasTerminal(offered) {
      var i :| 0 <= i < |offered| && offered[i].Frame? && offered[i].message.Terminal?;
      assert longer[i] == offered[i];
    }
  }

  lemma OfferedFirst(offered: seq<Item>, item: Item)
    ensures (offered + [item])[0] == if offered == [] then item else offered[0]
  {
  }

  lemma OfferFramePhase(s: State)
    requires Inv(s) && !s.shut && s.holder.HasSlot? && |s.queue| <= s.max
    ensures PhaseFits(Step(s, OfferFrame))
  {
    var m := s.holder.message;
    GrowKeeps(s.offered, Frame(m, if m.Terminal? then Some(|s.offered|) else None));
    hide ControlLast;
    hide TerminalLast;
    hide HasTerminal;
    hide Ends;
    hide SlotsFit;
    hide OpeningFits;
    hide PipelineFits;
  }

  lemma OfferFrameInv(s: State)
    requires Inv(s) && !s.shut && s.holder.HasSlot?
    ensures Inv(Step(s, OfferFrame))
  {
    var m := s.holder.message;
    var item := Frame(m, if m.Terminal? then Some(|s.offered|) else None);
    var t := Step(s, OfferFrame);
    OffersNeverWait(s);
    EnqueueKeeps(s, item);
    OfferedFirst(s.offered, item);
    OfferFramePhase(s);
    SamePipeline(Enqueue(s, item), t);
    hide PipelineFits;
    hide FrameCount;
    hide ControlLast;
    hide TerminalLast;
    hide HasTerminal;
    hide Ends;
    assert SlotsFit(t) && OpeningFits(t);
  }

  /** The pipeline does not look at the lock, the phase or the slots. */
  lemma SamePipeline(s: State, t: State)
    requires PipelineFits(s)
    requires t.offered == s.offered && t.queue == s.queue && t.consumer == s.consumer && t.acks == s.acks && t.values == s.values
    requires t.delivered == s.delivered && t.popped == s.popped && t.released == s.released
    ensures PipelineFits(t)
  {
  }

  lemma OfferControlInv(s: State)
    requires Inv(s) && !s.shut && s.holder.AwaitControl?
    ensures Inv(Step(s, OfferControl))
  {
    var item := Control(s.holder.failed);
    var t := Step(s, OfferControl);
    OffersNeverWait(s);
    EnqueueKeeps(s, item);
    GrowKeeps(s.offered, item);
    OfferedFirst(s.offered, item);
    hide PipelineFits;
    hide FrameCount;
    hide ControlLast;
    hide TerminalLast;
    hide HasTerminal;
    hide Ends;
    assert PhaseFits(t) && SlotsFit(t) && OpeningFits(t);
    assert PipelineFits(t) by { SamePipeline(Enqueue(s, item), t); }
  }

  lemma TakeItemInv(s: State)
    requires Inv(s) && !s.shut && s.consumer.Idle? && s.queue != []
    ensures Inv(Step(s, TakeItem))
  {
    Head(s.queue);
    FrameCountOne(s.queue[0]);
    assert [] + s.queue == s.queue;
    hide AcksOf;
    hide MessagesOf;
    hide PhaseFits;
  }

  lemma ReleasePipeline(s: State)
    requires PipelineFits(s) && s.consumer.Holding?
    ensures PipelineFits(Released(s))
  {
    var item := s.consumer.item;
    AcksAppend(s.released, item);
    MessagesAppend(s.released, item);
    Assoc(s.released, [item], s.queue);
    assert [] + s.queue == s.queue;
    if item.Frame? { Assoc(s.delivered, s.values, [item.message]); }
    Assoc(s.popped, s.acks, [if item.Frame? then item.ack else None]);
    hide AcksOf;
    hide MessagesOf;
  }

  lemma ReleasePhase(s: State)
    requires Inv(s) && !s.shut && s.consumer.Holding?
    ensures PhaseFits(Step(s, ReleaseItem)) && OpeningFits(Step(s, ReleaseItem))
  {
    hide FrameCount;
    hide PipelineFits;
    hide SlotsFit;
    hide ControlLast;
    hide TerminalLast;
    hide HasTerminal;
    hide Ends;
  }

  lemma ReleaseItemInv(s: State)
    requires Inv(s) && !s.shut && s.consumer.Holding?
    ensures Inv(Step(s, ReleaseItem))
  {
    FrameCountOne(s.consumer.item);
    ReleasePipeline(s);
    ReleasePhase(s);
    hide FrameCount;
    hide PipelineFits;
    hide PhaseFits;
    hide OpeningFits;
  }

  lemma DeliverInv(s: State)
    requires Inv(s) && !s.shut && s.values != [] && s.acks != []
    ensures Inv(Step(s, Deliver))
  {
    Head(s.values);
    Head(s.acks);
    Assoc(s.delivered, [s.values[0]], s.values[1..]);
    Assoc(s.popped, [s.acks[0]], s.acks[1..]);
    hide FrameCount;
    hide AcksOf;
    hide MessagesOf;
    hide PhaseFits;
  }

  /** The steps of the lock holder before it offers anything. */
  lemma HolderStepInv(s: State, a: Action)
    requires Inv(s) && !s.shut && (a.Lock? || a.Check? || a.TakeSlot? || a.InterruptWait? || a.FailStream? || a.Shutdown?)
    ensures Inv(Step(s, a))
  {
    hide PipelineFits;
    hide FrameCount;
    hide ControlLast;
    hide TerminalLast;
    hide HasTerminal;
    hide Ends;
    var t := Step(s, a);
    assert PhaseFits(t) && SlotsFit(t) && OpeningFits(t);
    assert PipelineFits(t) by { SamePipeline(s, t); }
  }

  lemma StepInv(s: State, a: Action)
    requires Inv(s)
    ensures Inv(Step(s, a))
  {
    OffersNeverWait(s);
    hide Inv;
    if s.shut {
    } else if a.Lock? || a.Check? || a.TakeSlot? || a.InterruptWait? || a.FailStream? || a.Shutdown? {
      hide Step;
      HolderStepInv(s, a);
    } else if a.OfferFrame? && s.holder.HasSlot? {
      hide Step;
      OfferFrameInv(s);
    } else if a.OfferControl? && s.holder.AwaitControl? {
      hide Step;
      OfferControlInv(s);
    } else if a.TakeItem? && s.consumer.Idle? && s.queue != [] {
      hide Step;
      TakeItemInv(s);
    } else if a.ReleaseItem? && s.consumer.Holding? {
      hide Step;
      ReleaseItemInv(s);
    } else if a.Deliver? && s.values != [] && s.acks != [] {
      hide Step;
      DeliverInv(s);
    }
  }

  lemma InitialInv(max: nat, subscription: bool)
    ensures Inv(Initial(max, subscription))
  {
  }

  lemma {:induction false} RunInv(max: nat, subscription: bool, actions: seq<Action>, n: nat)
    requires n <= |actions|
    ensures Inv(Run(max, subscription, actions, n))
    ensures Run(max, subscription, actions, n).max == max && Run(max, subscription, actions, n).subscription == subscription
  {
    hide Inv;
    if n == 0 {
      InitialInv(max, subscription);
    } else {
      var s := Run(max, subscription, actions, n - 1);
      RunInv(max, subscription, actions, n - 1);
      StepInv(s, actions[n - 1]);
      StepKeepsShape(s, actions[n - 1]);
    }
  }

  lemma StepKeepsShape(s: State, a: Action)
    ensures Step(s, a).max == s.max && Step(s, a).subscription == s.subscription
  {
  }

  // ----- what holds after every run -----

  /**
   Queued data frames never exceed the taken slots, taken slots never exceed
   `maxPendingFrames`, and so neither a frame nor the control item ever waits for room.
   */
  lemma QueueBounded(max: nat, subscription: bool, actions: seq<Action>, n: nat)
    requires n <= |actions|
    ensures var s := Run(max, subscription, actions, n);
            && FrameCount(s.queue) <= s.taken <= max && |s.queue| <= max + 1
            && (s.holder.HasSlot? || s.holder.AwaitControl? ==> |s.queue| <= max)
  {
    RunInv(max, subscription, actions, n);
    hide Run;
    OffersNeverWait(Run(max, subscription, actions, n));
  }

  /** At most one control item is ever offered and it is the last item; a terminal frame is followed by nothing else. */
  lemma ControlIsLast(max: nat, subscription: bool, actions: seq<Action>, n: nat, i: nat)
    requires n <= |actions| && i < |Run(max, subscription, actions, n).offered|
    ensures var offered := Run(max, subscription, actions, n).offered;
            && (offered[i].Control? ==> i == |offered| - 1)
            && (offered[i].Frame? && offered[i].message.Terminal? ==> i >= |offered| - 2)
  {
    RunInv(max, subscription, actions, n);
    var offered := Run(max, subscription, actions, n).offered;
    hide Run;
    assert offered[i].Frame? && offered[i].message.Terminal? ==> forall j :: i < j < |offered| ==> offered[j].Control?;
    assert i < |offered| - 2 ==> offered[i + 1].Frame?;
  }

  /** The first frame of a subscription is its acknowledgement. */
  lemma AcknowledgementFirst(max: nat, actions: seq<Action>, n: nat)
    requires n <= |actions| && Run(max, true, actions, n).offered != []
    ensures var first := Run(max, true, actions, n).offered[0];
            first.Control? || first.message.Acknowledgement?
  {
    RunInv(max, true, actions, n);
  }

  lemma {:induction false} MessageAt(items: seq<Item>, i: nat)
    requires ControlLast(items) && i < |MessagesOf(items)|
    ensures i < |items| && items[i].Frame? && MessagesOf(items)[i] == items[i].message
    ensures |MessagesOf(items)| == |items| - (if Ends(items) then 1 else 0)
  {
    if items != [] {
      var init := items[..|items| - 1];
      assert items == init + [items[|items| - 1]];
      MessagesAppend(init, items[|items| - 1]);
      if i < |MessagesOf(init)| {
        MessageAt(init, i);
      } else {
        MessagesLength(init);
      }
      MessagesLength(init);
    }
  }

  lemma {:induction false} MessagesLength(items: seq<Item>)
    requires ControlLast(items) && !Ends(items)
    ensures |MessagesOf(items)| == |items|
  {
    if items != [] {
      MessagesLength(items[..|items| - 1]);
    }
  }

  /** The i-th value that reaches the socket is the i-th frame queued, and completes exactly that frame's acknowledgement. */
  lemma DeliveryInOrder(max: nat, subscription: bool, actions: seq<Action>, n: nat, i: nat)
    requires n <= |actions| && i < |Run(max, subscription, actions, n).delivered|
    ensures var s := Run(max, subscription, actions, n);
            && i < |s.offered| && i < |s.popped| && s.offered[i] == Frame(s.delivered[i], s.popped[i])
  {
    RunInv(max, subscription, actions, n);
    hide Run;
    var s := Run(max, subscription, actions, n);
    QueueIsTail(s);
    assert (s.delivered + s.values)[i] == s.delivered[i];
    MessageAt(s.released, i);
    assert (s.popped + s.acks)[i] == s.popped[i];
    assert s.offered[i] == s.released[i];
  }

  // ----- what a send leads to -----

  /** A sender alone: the lock, the phase and the encoding, then its slot. */
  function Prepare(s: State, m: Message, encodes: bool): State {
    Step(Step(s, Lock(m)), Check(encodes))
  }

  /** An open response with a free slot takes every message that encodes as a frame; a terminal one is followed by the end of the stream and waits for its delivery. */
  lemma EncodedIsFramed(s: State, m: Message)
    requires !s.shut && s.holder.Nobody? && s.phase == Open && MaySend(s, m) && s.taken < s.max && |s.queue| < s.max
    ensures var t := Step(Step(Prepare(s, m, true), TakeSlot), OfferFrame);
            if m.Terminal? then
              && t.offered == s.offered + [Frame(m, Some(|s.offered|))] && t.phase == Terminated
              && Step(t, OfferControl).offered == t.offered + [Control(false)] && Step(t, OfferControl).holder.Nobody?
            else t.offered == s.offered + [Frame(m, None)] && t.phase == Open && t.holder.Nobody?
  {
  }

  /** A message that does not encode closes an open response with a failure, and is not framed. */
  lemma UnencodedFails(s: State, m: Message)
    requires !s.shut && s.holder.Nobody? && s.phase == Open && MaySend(s, m) && |s.queue| <= s.max
    ensures var t := Step(Prepare(s, m, false), OfferControl);
            t.offered == s.offered + [Control(true)] && t.phase == Closed && t.holder.Nobody?
  {
  }

  /** A response that is terminated or closed takes nothing more. */
  lemma EndedTakesNothing(s: State, m: Message, encodes: bool)
    requires !s.shut && s.holder.Nobody? && s.phase != Open && MaySend(s, m)
    ensures var t := Prepare(s, m, encodes);
            t.offered == s.offered && t.queue == s.queue && t.phase == s.phase && t.holder.Nobody?
  {
  }

  /** The body takes the first item: a frame's message becomes readable and gives its slot back; the control item ends the body. */
  lemma BodyTakesFirst(s: State)
    requires !s.shut && s.consumer.Idle? && s.queue != []
    ensures var t := Step(Step(s, TakeItem), ReleaseItem);
            && t.queue == s.queue[1..] && t.released == s.released + [s.queue[0]]
            && (s.queue[0].Frame? ==> t.values == s.values + [s.queue[0].message] && t.consumer.Idle? && (s.taken > 0 ==> t.taken == s.taken - 1))
            && (s.queue[0].Control? ==> t.values == s.values && t.consumer.Ended?)
  {
  }

  /** A failing source ends an open subscription's stream with a failure. */
  lemma SourceFailureEnds(s: State)
    requires !s.shut && s.holder.Nobody? && s.subscription && s.started && s.phase == Open && |s.queue| <= s.max
    ensures var t := Step(Step(s, FailStream), OfferControl);
            t.offered == s.offered + [Control(true)] && t.phase == Closed && t.holder.Nobody?
  {
  }

  /** A sender interrupted before it has a slot frames nothing and frees the lock; an interrupted opener ends the response. */
  lemma InterruptedFramesNothing(s: State)
    requires !s.shut && s.holder.AwaitSlot?
    ensures var t := Step(s, InterruptWait);
            t.offered == s.offered && t.taken == s.taken && t.holder.Nobody? && (t.shut <==> s.holder.message.Acknowledgement?)
  {
  }

  /** The socket gets the first readable value, with the first acknowledgement. */
  lemma SocketTakesFirst(s: State)
    requires !s.shut && s.values != [] && s.acks != []
    ensures var t := Step(s, Deliver);
            && t.delivered == s.delivered + [s.values[0]] && t.popped == s.popped + [s.acks[0]]
            && t.values == s.values[1..] && t.acks == s.acks[1..]
  {
  }
}
