/**
 Request ownership in the client dispatcher of src/McpDispatcher.ts: which step
 removes a request, what its consumer sees, when abandonment is signalled. The
 atomic steps are the `Ref` updates, queue offers and takes, and send completions.
 A message may be routed to any owner ever registered, because the lookup of the
 owner and its use are two steps.
 */
module ClientOwnership {
  import opened Common
  import opened SubscriptionFilters

  type RequestId(==, !new)

  type Message(==, !new)

  type Owner = nat

  const CAPACITY := 16

  /** What the consumer of a request can receive. */
  datatype Event = Acknowledged(filter: Filter) | Notification(change: Option<Change>) | Terminal(response: Message) | Failure

  predicate Final(e: Event) {
    e.Terminal? || e.Failure?
  }

  /** An inbound notification after `generatedNotificationFailure` and the subscription-id test. */
  datatype Inbound =
    | Cancelled(valid: bool)
    | Progress(valid: bool)
    | Ack(valid: bool, ownerMatches: bool, filter: Filter)
    | Changed(valid: bool, ownerMatches: bool, change: Change)
    | Other(valid: bool, ownerMatches: bool)

  // ----- the `state` Ref -----

  /** The updates of the `state` Ref. */
  class ClientState {
    var active: map<RequestId, Owner>
    var closed: bool

    constructor ()
      ensures active == map[] && !closed
    {
      active, closed := map[], false;
    }

    method TryRegister(id: RequestId, owner: Owner) returns (registered: bool)
      modifies this
      ensures closed == old(closed) && registered == (!closed && id !in old(active))
      ensures active == if registered then old(active)[id := owner] else old(active)
    {
      if closed || id in active {
        return false;
      }
      active := active[id := owner];
      return true;
    }

    /** `removeOwner`: only the owner that still holds the id is removed. */
    method RemoveOwner(id: RequestId, owner: Owner) returns (removed: bool)
      modifies this
      ensures closed == old(closed) && removed == (id in old(active) && old(active)[id] == owner)
      ensures active == if removed then old(active) - {id} else old(active)
    {
      removed := id in active && active[id] == owner;
      if removed {
        active := active - {id};
      }
    }

    /** `close`: hands back the owners that were active; later calls hand back none. */
    method Close() returns (owners: set<Owner>)
      modifies this
      ensures closed
      ensures if old(closed) then owners == {} && active == old(active) else owners == old(active).Values && active == map[]
    {
      if closed {
        return {};
      }
      owners := active.Values;
      active, closed := map[], true;
    }
  }

  // ----- the protocol -----

  /** The step that took an owner out of `active`. */
  datatype Cause = Failed | Answered(response: Message) | Dropped

  /**
   `queue` is the bounded queue, `waiting` the final offers still suspended on it,
   `seen` what the consumer took, `lost` what the shutdown of the queue discarded.
   `owed` is a final event about to be offered, `abandoning` an abandonment check to come.
   */
  datatype Record = Record(
    id: RequestId,
    requested: Option<Filter>,
    acknowledged: Option<Filter>,
    sent: bool,
    removal: Option<Cause>,
    owed: Option<Event>,
    abandoning: bool,
    signals: nat,
    queue: seq<Event>,
    waiting: seq<Event>,
    seen: seq<Event>,
    lost: seq<Event>,
    shut: bool)

  datatype State = State(active: map<RequestId, Owner>, closed: bool, owners: seq<Record>)

  datatype Action =
    | Request(id: RequestId, requested: Option<Filter>)
    | SendCompletes(o: Owner)
    | Route(o: Owner, inbound: Inbound)
    | Respond(o: Owner, response: Message, valid: bool)
    | Cancel(id: RequestId)
    | Close
    | OfferFinal(o: Owner)
    | Admit(o: Owner)
    | Abandon(o: Owner)
    | Take(o: Owner)
    | Finalize(o: Owner)
    | Shutdown(o: Owner)

  const Initial: State := State(map[], false, [])

  function NewRecord(id: RequestId, requested: Option<Filter>): Record {
    Record(id, requested, None, false, None, None, false, 0, [], [], [], [], false)
  }

  predicate Holds(active: map<RequestId, Owner>, id: RequestId, o: Owner) {
    id in active && active[id] == o
  }

  /** The record part of `removeOwner` succeeding: what the remover still has to do. */
  function Removed(r: Record, cause: Cause, abandoning: bool): Record {
    r.(removal := Some(cause),
       owed := match cause { case Failed => Some(Failure) case Answered(m) => Some(Terminal(m)) case Dropped => None },
       abandoning := abandoning)
  }

  function Remove(s: State, o: Owner, cause: Cause, abandoning: bool): State
    requires o < |s.owners|
  {
    var r := s.owners[o];
    if !Holds(s.active, r.id, o) then s
    else s.(active := s.active - {r.id}, owners := s.owners[o := Removed(r, cause, abandoning)])
  }

  /** `offerNotification`: overflow fails the owner. */
  function Offer(s: State, o: Owner, e: Event): State
    requires o < |s.owners|
  {
    var r := s.owners[o];
    if !r.shut && |r.queue| < CAPACITY then s.(owners := s.owners[o := r.(queue := r.queue + [e])])
    else Remove(s, o, Failed, true)
  }

  /** `routeNotification`. */
  function RouteNotification(s: State, o: Owner, m: Inbound): State
    requires o < |s.owners|
  {
    var r := s.owners[o];
    if r.requested.None? then
      match m
      case Cancelled(_) => s
      case Progress(valid) => if valid then Offer(s, o, Notification(None)) else Remove(s, o, Failed, true)
      case Changed(_, _, change) => Offer(s, o, Notification(Some(change)))
      case _ => Offer(s, o, Notification(None))
    else if !m.valid then Remove(s, o, Failed, true)
    else if m.Cancelled? then Remove(s, o, Failed, false)
    else if r.acknowledged.None? then
      if m.Ack? && m.ownerMatches && Subset(m.filter, r.requested.value)
      then Offer(s.(owners := s.owners[o := r.(acknowledged := Some(m.filter))]), o, Acknowledged(m.filter))
      else Remove(s, o, Failed, true)
    else if m.Changed? && m.ownerMatches && Selects(r.acknowledged.value, m.change)
    then Offer(s, o, Notification(Some(m.change)))
    else Remove(s, o, Failed, true)
  }

  /** The response branch of `accept`; `valid` is the verdict of `validateSubscriptionTerminal`. */
  function AcceptResponse(s: State, o: Owner, response: Message, valid: bool): State
    requires o < |s.owners|
  {
    var r := s.owners[o];
    if r.requested.Some? && (r.acknowledged.None? || !valid) then Remove(s, o, Failed, true)
    else Remove(s, o, Answered(response), false)
  }

  /** `close`: every active owner is removed in the one update. */
  function CloseAll(s: State): State {
    if s.closed then s
    else
      State(map[], true,
        seq(|s.owners|, o requires 0 <= o < |s.owners| =>
          if Holds(s.active, s.owners[o].id, o) then Removed(s.owners[o], Failed, false) else s.owners[o]))
  }

  function Put(s: State, o: Owner, r: Record): State
    requires o < |s.owners|
  {
    s.(owners := s.owners[o := r])
  }

  function OwnerStep(s: State, a: Action, o: Owner): State
    requires o < |s.owners|
  {
    var r := s.owners[o];
    match a
    case SendCompletes(_) => Put(s, o, r.(sent := true))
    case Route(_, m) => RouteNotification(s, o, m)
    case Respond(_, response, valid) => AcceptResponse(s, o, response, valid)
    case OfferFinal(_) =>
      if r.owed.None? then s
      else if r.shut then Put(s, o, r.(owed := None, lost := r.lost + [r.owed.value]))
      else Put(s, o, r.(owed := None, waiting := r.waiting + [r.owed.value]))
    case Admit(_) =>
      if r.waiting == [] || |r.queue| >= CAPACITY then s
      else Put(s, o, r.(queue := r.queue + [r.waiting[0]], waiting := r.waiting[1..]))
    case Abandon(_) =>
      if r.abandoning && r.owed.None?
      then Put(s, o, r.(abandoning := false, signals := if r.sent then r.signals + 1 else r.signals))
      else s
    case Take(_) =>
      // `takeUntil` stops after the first final event
      if r.queue == [] || (r.seen != [] && Final(r.seen[|r.seen| - 1])) then s
      else Put(s, o, r.(queue := r.queue[1..], seen := r.seen + [r.queue[0]]))
    case Finalize(_) => Remove(s, o, Dropped, true)
    case Shutdown(_) =>
      // the finalizer shuts the queue down after its own removal attempt
      if Holds(s.active, r.id, o) then s
      else Put(s, o, r.(shut := true, lost := r.lost + r.queue + r.waiting, queue := [], waiting := []))
    case _ => s
  }

  function Step(s: State, a: Action): State {
    match a
    case Request(id, requested) =>
      if s.closed || id in s.active then s
      else s.(active := s.active[id := |s.owners|], owners := s.owners + [NewRecord(id, requested)])
    case Cancel(id) =>
      if id in s.active && s.active[id] < |s.owners| then Remove(s, s.active[id], Failed, false) else s
    case Close => CloseAll(s)
    case _ => if a.o < |s.owners| then OwnerStep(s, a, a.o) else s
  }

  function Run(actions: seq<Action>, n: nat): State
    requires n <= |actions|
  {
    if n == 0 then Initial else Step(Run(actions, n - 1), actions[n - 1])
  }

  // ----- the invariant -----

  function Finals(events: seq<Event>): nat {
    if events == [] then 0 else Finals(events[..|events| - 1]) + (if Final(events[|events| - 1]) then 1 else 0)
  }

  /** Every final event of the request, wherever it is on its way. */
  function AllFinals(r: Record): nat {
    (if r.owed.Some? then 1 else 0) + Finals(r.waiting) + Finals(r.queue) + Finals(r.seen) + Finals(r.lost)
  }

  /** Only the last event may be final. */
  predicate NotificationsThenFinal(events: seq<Event>) {
    forall i :: 0 <= i < |events| - 1 ==> !Final(events[i])
  }

  /** No final event among the first `n`. */
  predicate OpenUntil(events: seq<Event>, n: nat)
    requires n <= |events|
  {
    forall i :: 0 <= i < n ==> !Final(events[i])
  }

  /** What a subscription's consumer may receive at a position: its acknowledgement, then selected changes. */
  predicate LegalAt(requested: Filter, i: nat, e: Event) {
    if i == 0 then e.Acknowledged? && Subset(e.filter, requested)
    else e.Notification? && e.change.Some? && Selects(requested, e.change.value)
  }

  /** Every event before the first final one is legal where it stands. */
  predicate Grammar(requested: Filter, events: seq<Event>) {
    forall i :: 0 <= i < |events| && OpenUntil(events, i + 1) ==> LegalAt(requested, i, events[i])
  }

  predicate Fits(r: Record, held: bool) {
    // conservation: active, or removed by one step
    && (held <==> r.removal.None?)
    && AllFinals(r) == (if r.removal.None? || r.removal == Some(Dropped) then 0 else 1)
    && (r.owed.Some? ==> r.removal.Some? && Final(r.owed.value) && r.owed == Removed(r, r.removal.value, false).owed)
    && (forall e :: e in r.waiting ==> Final(e))
    && NotificationsThenFinal(r.seen)
    && |r.queue| <= CAPACITY
    // abandonment
    && (r.abandoning ==> r.removal.Some? && r.removal.value in {Failed, Dropped} && r.signals == 0)
    && r.signals <= 1
    && (r.signals == 1 ==> r.sent && r.removal.Some? && (r.removal.value.Failed? || r.removal.value.Dropped?))
    && (r.removal.None? ==> r.signals == 0 && !r.shut)
    // subscriptions
    && (r.requested.None? ==> r.acknowledged.None?)
    && (r.requested.Some? ==> SubscriptionFits(r.requested.value, r.acknowledged, r.seen + r.queue))
    && (r.acknowledged.Some? && !r.shut ==> r.seen + r.queue != [])
  }

  predicate SubscriptionFits(requested: Filter, acknowledged: Option<Filter>, events: seq<Event>) {
    && Grammar(requested, events)
    && (acknowledged.None? ==> events == [] || Final(events[0]))
    && (acknowledged.Some? ==> Subset(acknowledged.value, requested))
  }

  predicate Inv(s: State) {
    && (forall id :: id in s.active ==> s.active[id] < |s.owners| && s.owners[s.active[id]].id == id)
    && (forall o :: 0 <= o < |s.owners| ==> Fits(s.owners[o], Holds(s.active, s.owners[o].id, o)))
    && (s.closed ==> s.active == map[])
  }

  // ----- counting final events -----

  lemma FinalsAppend(events: seq<Event>, e: Event)
    ensures Finals(events + [e]) == Finals(events) + (if Final(e) then 1 else 0)
  {
    assert (events + [e])[..|events|] == events;
  }

  lemma {:induction false} FinalsConcat(a: seq<Event>, b: seq<Event>)
    ensures Finals(a + b) == Finals(a) + Finals(b)
  {
    if b == [] {
      assert a + b == a;
    } else {
      var init, last := b[..|b| - 1], b[|b| - 1];
      FinalsConcat(a, init);
      assert a + b == (a + init) + [last];
      FinalsAppend(a + init, last);
      FinalsAppend(init, last);
      assert b == init + [last];
    }
  }

  lemma FinalsHead(events: seq<Event>)
    requires events != []
    ensures Finals(events) == (if Final(events[0]) then 1 else 0) + Finals(events[1..])
  {
    Head(events);
    FinalsConcat([events[0]], events[1..]);
    FinalsAppend([], events[0]);
    assert [] + [events[0]] == [events[0]];
  }

  // ----- grammar of what is delivered -----

  lemma GrammarPrefix(requested: Filter, a: seq<Event>, b: seq<Event>)
    requires Grammar(requested, a + b)
    ensures Grammar(requested, a)
  {
    hide LegalAt;
    var whole := a + b;
    forall i | 0 <= i < |a| && OpenUntil(a, i + 1) ensures LegalAt(requested, i, a[i]) {
      assert whole[i] == a[i];
      forall j | 0 <= j < i + 1 ensures !Final(whole[j]) { assert whole[j] == a[j]; }
      assert OpenUntil(whole, i + 1);
    }
  }

  /** Appending a final event, anything after one, or the next legal event keeps the grammar. */
  lemma GrammarAppend(requested: Filter, events: seq<Event>, e: Event)
    requires Grammar(requested, events)
    requires OpenUntil(events, |events|) && !Final(e) ==> LegalAt(requested, |events|, e)
    ensures Grammar(requested, events + [e])
  {
    hide LegalAt;
    var longer := events + [e];
    forall i | 0 <= i < |longer| && OpenUntil(longer, i + 1) ensures LegalAt(requested, i, longer[i]) {
      forall j | 0 <= j < |events| && j < i + 1 ensures !Final(events[j]) { assert longer[j] == events[j]; }
      if i < |events| {
        assert longer[i] == events[i] && OpenUntil(events, i + 1);
      } else {
        assert !Final(longer[i]);
        assert OpenUntil(events, |events|);
      }
    }
  }

  lemma SeenQueueAppend(r: Record, e: Event)
    ensures r.seen + (r.queue + [e]) == (r.seen + r.queue) + [e]
  {
  }

  // ----- every step keeps the record in order -----

  lemma RemovedFits(r: Record, cause: Cause, abandoning: bool)
    requires Fits(r, true) && (abandoning ==> cause in {Failed, Dropped})
    ensures Fits(Removed(r, cause, abandoning), false)
  {
    hide Finals;
    hide SubscriptionFits;
    hide NotificationsThenFinal;
  }

  /** A step of one owner: its record changes and fits again, its id is kept or let go. */
  predicate StepShape(s: State, t: State, o: Owner)
    requires o < |s.owners|
  {
    && |t.owners| == |s.owners| && t.closed == s.closed
    && t.owners == s.owners[o := t.owners[o]]
    && t.owners[o].id == s.owners[o].id
    && (t.active == s.active || (Holds(s.active, s.owners[o].id, o) && t.active == s.active - {s.owners[o].id}))
    && Fits(t.owners[o], Holds(t.active, t.owners[o].id, o))
  }

  lemma ShapeInv(s: State, t: State, o: Owner)
    requires Inv(s) && o < |s.owners| && StepShape(s, t, o)
    ensures Inv(t)
  {
    hide Fits;
    forall p | 0 <= p < |t.owners| ensures Fits(t.owners[p], Holds(t.active, t.owners[p].id, p)) {
      assert Fits(s.owners[p], Holds(s.active, s.owners[p].id, p));
    }
  }

  lemma RemoveShape(s: State, o: Owner, cause: Cause, abandoning: bool)
    requires o < |s.owners| && Fits(s.owners[o], Holds(s.active, s.owners[o].id, o))
    requires abandoning ==> cause in {Failed, Dropped}
    ensures StepShape(s, Remove(s, o, cause, abandoning), o)
  {
    hide Fits;
    if Holds(s.active, s.owners[o].id, o) {
      RemovedFits(s.owners[o], cause, abandoning);
    }
  }

  /** What may be offered as the next event of an owner that fits. */
  predicate MayOffer(r: Record, e: Event) {
    && !Final(e)
    && (r.requested.Some? ==>
          LegalAt(r.requested.value, |r.seen + r.queue|, e) || (r.seen + r.queue != [] && Final((r.seen + r.queue)[0])))
  }

  lemma OfferedFits(r: Record, held: bool, e: Event, acknowledged: Option<Filter>)
    requires Fits(r, held) && !r.shut && |r.queue| < CAPACITY && MayOffer(r, e)
    requires acknowledged == r.acknowledged || (r.requested.Some? && acknowledged.Some? && e == Acknowledged(acknowledged.value) && Subset(acknowledged.value, r.requested.value))
    requires r.requested.Some? ==> acknowledged.Some?
    ensures Fits(r.(queue := r.queue + [e], acknowledged := acknowledged), held)
  {
    FinalsAppend(r.queue, e);
    SeenQueueAppend(r, e);
    if r.requested.Some? {
      GrammarAppend(r.requested.value, r.seen + r.queue, e);
    }
    hide Finals;
    hide Grammar;
    hide NotificationsThenFinal;
  }

  lemma RouteShape(s: State, o: Owner, m: Inbound)
    requires o < |s.owners| && Fits(s.owners[o], Holds(s.active, s.owners[o].id, o))
    ensures StepShape(s, RouteNotification(s, o, m), o)
  {
    var r := s.owners[o];
    RemoveShape(s, o, Failed, true);
    RemoveShape(s, o, Failed, false);
    if r.requested.None? {
      PlainRouteShape(s, o, m);
    } else if m.valid && r.acknowledged.None? && m.Ack? && m.ownerMatches && Subset(m.filter, r.requested.value) {
      AcknowledgeShape(s, o, m.filter);
    } else if m.valid && r.acknowledged.Some? && m.Changed? && m.ownerMatches && Selects(r.acknowledged.value, m.change) {
      SubsetIsSelection(r.acknowledged.value, r.requested.value);
      OfferShape(s, o, Notification(Some(m.change)));
    } else {
      hide Fits;
    }
  }

  lemma OfferShape(s: State, o: Owner, e: Event)
    requires o < |s.owners| && Fits(s.owners[o], Holds(s.active, s.owners[o].id, o))
    requires !Final(e) && (s.owners[o].requested.Some? ==> s.owners[o].acknowledged.Some?)
    requires s.owners[o].requested.Some? ==>
               e.Notification? && e.change.Some? && Selects(s.owners[o].requested.value, e.change.value)
    ensures StepShape(s, Offer(s, o, e), o)
  {
    var r := s.owners[o];
    RemoveShape(s, o, Failed, true);
    if !r.shut && |r.queue| < CAPACITY {
      OfferedFits(r, Holds(s.active, r.id, o), e, r.acknowledged);
    }
    hide Fits;
  }

  lemma PlainRouteShape(s: State, o: Owner, m: Inbound)
    requires o < |s.owners| && Fits(s.owners[o], Holds(s.active, s.owners[o].id, o))
    requires s.owners[o].requested.None?
    ensures StepShape(s, RouteNotification(s, o, m), o)
  {
    RemoveShape(s, o, Failed, true);
    OfferShape(s, o, Notification(None));
    if m.Changed? { OfferShape(s, o, Notification(Some(m.change))); }
    hide Fits;
  }

  lemma AcknowledgeShape(s: State, o: Owner, filter: Filter)
    requires o < |s.owners| && Fits(s.owners[o], Holds(s.active, s.owners[o].id, o))
    requires s.owners[o].requested.Some? && s.owners[o].acknowledged.None? && Subset(filter, s.owners[o].requested.value)
    ensures var r := s.owners[o];
            StepShape(s, Offer(s.(owners := s.owners[o := r.(acknowledged := Some(filter))]), o, Acknowledged(filter)), o)
  {
    var r := s.owners[o];
    var marked := s.(owners := s.owners[o := r.(acknowledged := Some(filter))]);
    if !r.shut && |r.queue| < CAPACITY {
      OfferedFits(r, Holds(s.active, r.id, o), Acknowledged(filter), Some(filter));
    } else {
      AcknowledgedFits(r, Holds(s.active, r.id, o), filter);
      RemoveShape(marked, o, Failed, true);
    }
    hide Fits;
  }

  /** An acknowledgement that cannot be queued is still remembered; the queue is full or gone. */
  lemma AcknowledgedFits(r: Record, held: bool, filter: Filter)
    requires Fits(r, held) && r.requested.Some? && r.acknowledged.None? && Subset(filter, r.requested.value)
    requires r.shut || |r.queue| >= CAPACITY
    ensures Fits(r.(acknowledged := Some(filter)), held)
  {
    hide Finals;
    hide Grammar;
    hide NotificationsThenFinal;
  }

  lemma TakeFits(r: Record, held: bool)
    requires Fits(r, held) && r.queue != [] && (r.seen == [] || !Final(r.seen[|r.seen| - 1]))
    ensures Fits(r.(queue := r.queue[1..], seen := r.seen + [r.queue[0]]), held)
  {
    FinalsHead(r.queue);
    FinalsAppend(r.seen, r.queue[0]);
    assert (r.seen + [r.queue[0]]) + r.queue[1..] == r.seen + r.queue;
    assert NotificationsThenFinal(r.seen + [r.queue[0]]);
    hide Finals;
    hide SubscriptionFits;
  }

  lemma AdmitFits(r: Record, held: bool)
    requires Fits(r, held) && r.waiting != [] && |r.queue| < CAPACITY
    ensures Fits(r.(queue := r.queue + [r.waiting[0]], waiting := r.waiting[1..]), held)
  {
    var e := r.waiting[0];
    assert e in r.waiting;
    FinalsHead(r.waiting);
    FinalsAppend(r.queue, e);
    SeenQueueAppend(r, e);
    if r.requested.Some? { GrammarAppend(r.requested.value, r.seen + r.queue, e); }
    hide Finals;
    hide Grammar;
    hide NotificationsThenFinal;
  }

  lemma OfferFinalFits(r: Record, held: bool)
    requires Fits(r, held) && r.owed.Some?
    ensures Fits(if r.shut then r.(owed := None, lost := r.lost + [r.owed.value])
                 else r.(owed := None, waiting := r.waiting + [r.owed.value]), held)
  {
    FinalsAppend(r.lost, r.owed.value);
    FinalsAppend(r.waiting, r.owed.value);
    hide Finals;
    hide SubscriptionFits;
    hide NotificationsThenFinal;
  }

  lemma SubscriptionPrefix(requested: Filter, acknowledged: Option<Filter>, seen: seq<Event>, queue: seq<Event>)
    requires SubscriptionFits(requested, acknowledged, seen + queue)
    ensures SubscriptionFits(requested, acknowledged, seen)
  {
    GrammarPrefix(requested, seen, queue);
    hide Grammar;
    if seen != [] { assert (seen + queue)[0] == seen[0]; }
  }

  lemma ShutdownFits(r: Record)
    requires Fits(r, false)
    ensures Fits(r.(shut := true, lost := r.lost + r.queue + r.waiting, queue := [], waiting := []), false)
  {
    FinalsConcat(r.lost, r.queue);
    FinalsConcat(r.lost + r.queue, r.waiting);
    assert r.seen + [] == r.seen;
    assert Finals([]) == 0;
    if r.requested.Some? { SubscriptionPrefix(r.requested.value, r.acknowledged, r.seen, r.queue); }
    hide Finals;
    hide SubscriptionFits;
    hide NotificationsThenFinal;
  }

  lemma PutShape(s: State, o: Owner, r: Record)
    requires o < |s.owners| && r.id == s.owners[o].id && Fits(r, Holds(s.active, r.id, o))
    ensures StepShape(s, Put(s, o, r), o)
  {
    hide Fits;
  }

  lemma SignalFits(r: Record, held: bool)
    requires Fits(r, held)
    ensures Fits(r.(sent := true), held)
    ensures r.abandoning && r.owed.None? ==>
              Fits(r.(abandoning := false, signals := if r.sent then r.signals + 1 else r.signals), held)
  {
    hide Finals;
    hide SubscriptionFits;
    hide NotificationsThenFinal;
  }

  /** The steps on the queue of one owner. */
  lemma QueueStepShape(s: State, a: Action, o: Owner)
    requires o < |s.owners| && Fits(s.owners[o], Holds(s.active, s.owners[o].id, o))
    requires a.OfferFinal? || a.Admit? || a.Take? || a.Shutdown?
    ensures StepShape(s, OwnerStep(s, a, o), o)
  {
    hide Fits;
    var r := s.owners[o];
    var held := Holds(s.active, r.id, o);
    PutShape(s, o, r);
    if a.OfferFinal? && r.owed.Some? {
      OfferFinalFits(r, held);
    } else if a.Admit? && r.waiting != [] && |r.queue| < CAPACITY {
      AdmitFits(r, held);
    } else if a.Take? && r.queue != [] && (r.seen == [] || !Final(r.seen[|r.seen| - 1])) {
      TakeFits(r, held);
    } else if a.Shutdown? && !held {
      ShutdownFits(r);
    }
    PutShape(s, o, OwnerStep(s, a, o).owners[o]);
  }

  lemma OwnerStepShape(s: State, a: Action, o: Owner)
    requires o < |s.owners| && Fits(s.owners[o], Holds(s.active, s.owners[o].id, o))
    ensures StepShape(s, OwnerStep(s, a, o), o)
  {
    hide Fits;
    var r := s.owners[o];
    PutShape(s, o, r);
    if a.OfferFinal? || a.Admit? || a.Take? || a.Shutdown? {
      QueueStepShape(s, a, o);
    } else if a.Route? {
      RouteShape(s, o, a.inbound);
    } else if a.Respond? {
      RemoveShape(s, o, Failed, true);
      RemoveShape(s, o, Answered(a.response), false);
    } else if a.Finalize? {
      RemoveShape(s, o, Dropped, true);
    } else {
      SignalFits(r, Holds(s.active, r.id, o));
    }
  }

  lemma CloseInv(s: State)
    requires Inv(s)
    ensures Inv(CloseAll(s))
  {
    hide Fits;
    var t := CloseAll(s);
    forall p | 0 <= p < |t.owners| ensures Fits(t.owners[p], Holds(t.active, t.owners[p].id, p)) {
      var r := s.owners[p];
      assert Fits(r, Holds(s.active, r.id, p));
      if !s.closed && Holds(s.active, r.id, p) {
        RemovedFits(r, Failed, false);
      }
    }
  }

  lemma NewRecordFits(id: RequestId, requested: Option<Filter>)
    ensures Fits(NewRecord(id, requested), true)
  {
  }

  lemma RequestInv(s: State, id: RequestId, requested: Option<Filter>)
    requires Inv(s)
    ensures Inv(Step(s, Request(id, requested)))
  {
    hide Fits;
    hide NewRecord;
    var t := Step(s, Request(id, requested));
    NewRecordFits(id, requested);
    assert NewRecord(id, requested).id == id by { NewRecordId(id, requested); }
    forall p | 0 <= p < |t.owners| ensures Fits(t.owners[p], Holds(t.active, t.owners[p].id, p)) {
      if p < |s.owners| {
        assert Fits(s.owners[p], Holds(s.active, s.owners[p].id, p));
      }
    }
  }

  lemma NewRecordId(id: RequestId, requested: Option<Filter>)
    ensures NewRecord(id, requested).id == id
  {
  }

  lemma StepInv(s: State, a: Action)
    requires Inv(s)
    ensures Inv(Step(s, a))
  {
    hide Fits;
    hide OwnerStep;
    match a {
      case Request(id, requested) => RequestInv(s, id, requested);
      case Close => CloseInv(s);
      case Cancel(id) =>
        if id in s.active {
          var o := s.active[id];
          assert Fits(s.owners[o], Holds(s.active, s.owners[o].id, o));
          RemoveShape(s, o, Failed, false);
          ShapeInv(s, Remove(s, o, Failed, false), o);
        }
      case _ =>
        if a.o < |s.owners| {
          assert Fits(s.owners[a.o], Holds(s.active, s.owners[a.o].id, a.o));
          OwnerStepShape(s, a, a.o);
          ShapeInv(s, OwnerStep(s, a, a.o), a.o);
        }
    }
  }

  lemma InitialInv()
    ensures Inv(Initial)
  {
  }

  lemma {:induction false} RunInv(actions: seq<Action>, n: nat)
    requires n <= |actions|
    ensures Inv(Run(actions, n))
  {
    hide Inv;
    hide Step;
    InitialInv();
    if n > 0 {
      RunInv(actions, n - 1);
      StepInv(Run(actions, n - 1), actions[n - 1]);
    }
  }

  // ----- what holds after every run -----

  /**
   Conservation: a registered request is active; or one step removed it and its single
   final event is owed, on its way, seen or discarded with the queue; or its own
   stream finalizer dropped it and there is no final event.
   */
  lemma OwnershipConserved(actions: seq<Action>, n: nat, o: Owner)
    requires n <= |actions| && o < |Run(actions, n).owners|
    ensures var s := Run(actions, n);
            var r := s.owners[o];
            && (r.removal.None? <==> Holds(s.active, r.id, o))
            && AllFinals(r) == (if r.removal.Some? && r.removal != Some(Dropped) then 1 else 0)
  {
    RunInv(actions, n);
    hide Run;
    hide AllFinals;
    assert Fits(Run(actions, n).owners[o], Holds(Run(actions, n).active, Run(actions, n).owners[o].id, o));
  }

  /** What an owner that does not hold its id keeps: its removal, and its silence unless a check is to come. */
  predicate Unmoved(s: State, t: State, o: Owner)
    requires o < |s.owners|
  {
    && o < |t.owners| && t.owners[o].removal == s.owners[o].removal
    && (!s.owners[o].abandoning ==> !t.owners[o].abandoning && t.owners[o].signals == s.owners[o].signals)
  }

  lemma UnmovedRoute(s: State, p: Owner, m: Inbound, o: Owner)
    requires o < |s.owners| && p < |s.owners| && !Holds(s.active, s.owners[o].id, o)
    ensures Unmoved(s, RouteNotification(s, p, m), o)
  {
    hide Subset;
    hide Selects;
  }

  lemma UnmovedOwnerStep(s: State, a: Action, p: Owner, o: Owner)
    requires o < |s.owners| && p < |s.owners| && !Holds(s.active, s.owners[o].id, o) && !a.Route?
    ensures Unmoved(s, OwnerStep(s, a, p), o)
  {
    hide Final;
    hide RouteNotification;
  }

  /** An owner that does not hold its id is removed by no step. */
  lemma RemovalStep(s: State, a: Action, o: Owner)
    requires o < |s.owners| && !Holds(s.active, s.owners[o].id, o)
    ensures Unmoved(s, Step(s, a), o)
  {
    if a.Route? && a.o < |s.owners| {
      UnmovedRoute(s, a.o, a.inbound, o);
    } else if !a.Request? && !a.Cancel? && !a.Close? && a.o < |s.owners| {
      UnmovedOwnerStep(s, a, a.o, o);
      hide OwnerStep;
    }
    hide RouteNotification;
  }

  /** The step that removed a request is the only one: over every further run it stays removed for the same cause. */
  lemma {:induction false} RemovalIsFinal(actions: seq<Action>, n: nat, m: nat, o: Owner)
    requires n <= m <= |actions| && o < |Run(actions, n).owners| && Run(actions, n).owners[o].removal.Some?
    ensures o < |Run(actions, m).owners|
    ensures Run(actions, m).owners[o].removal == Run(actions, n).owners[o].removal
    decreases m
  {
    if n < m {
      RemovalIsFinal(actions, n, m - 1, o);
      OwnershipConserved(actions, m - 1, o);
      RemovalStep(Run(actions, m - 1), actions[m - 1], o);
      hide Step;
    }
  }

  /** No consumer's queue ever exceeds its bound, whatever it has seen. */
  lemma QueueWithinCapacity(actions: seq<Action>, n: nat, o: Owner)
    requires n <= |actions| && o < |Run(actions, n).owners|
    ensures |Run(actions, n).owners[o].queue| <= CAPACITY
  {
    RunInv(actions, n);
    hide Run;
    assert Fits(Run(actions, n).owners[o], Holds(Run(actions, n).active, Run(actions, n).owners[o].id, o));
  }

  /** A consumer sees notifications and then at most one final event. */
  lemma ConsumerSeesOneFinal(actions: seq<Action>, n: nat, o: Owner, i: nat)
    requires n <= |actions| && o < |Run(actions, n).owners|
    requires i < |Run(actions, n).owners[o].seen| && Final(Run(actions, n).owners[o].seen[i])
    ensures i == |Run(actions, n).owners[o].seen| - 1
  {
    RunInv(actions, n);
    hide Run;
    assert Fits(Run(actions, n).owners[o], Holds(Run(actions, n).active, Run(actions, n).owners[o].id, o));
  }

  /** Abandonment is signalled at most once, only after a completed send, and never for an answered request. */
  lemma AbandonedOnceAfterSend(actions: seq<Action>, n: nat, o: Owner)
    requires n <= |actions| && o < |Run(actions, n).owners|
    ensures var r := Run(actions, n).owners[o];
            && r.signals <= 1
            && (r.signals == 1 ==> r.sent && r.removal.Some? && !r.removal.value.Answered?)
  {
    RunInv(actions, n);
    hide Run;
    assert Fits(Run(actions, n).owners[o], Holds(Run(actions, n).active, Run(actions, n).owners[o].id, o));
  }

  /** A subscription's consumer sees its exact acknowledgement first and then only changes the requested filter selects. */
  lemma SubscriptionSeesSelected(actions: seq<Action>, n: nat, o: Owner, i: nat)
    requires n <= |actions| && o < |Run(actions, n).owners|
    requires var r := Run(actions, n).owners[o];
             r.requested.Some? && i < |r.seen| && !Final(r.seen[i])
    ensures LegalAt(Run(actions, n).owners[o].requested.value, i, Run(actions, n).owners[o].seen[i])
  {
    RunInv(actions, n);
    hide Run;
    var r := Run(actions, n).owners[o];
    assert Fits(r, Holds(Run(actions, n).active, r.id, o));
    SeenIsLegal(r, i);
  }

  lemma SeenIsLegal(r: Record, i: nat)
    requires r.requested.Some? && Grammar(r.requested.value, r.seen + r.queue) && NotificationsThenFinal(r.seen)
    requires i < |r.seen| && !Final(r.seen[i])
    ensures LegalAt(r.requested.value, i, r.seen[i])
  {
    GrammarPrefix(r.requested.value, r.seen, r.queue);
    assert OpenUntil(r.seen, i + 1);
  }

  /** Once closed, nothing is active and nothing registers. */
  lemma ClosedForGood(actions: seq<Action>, n: nat, m: nat)
    requires n <= m <= |actions| && Run(actions, n).closed
    ensures Run(actions, m).closed && Run(actions, m).active == map[]
    ensures |Run(actions, m).owners| == |Run(actions, n).owners|
    decreases m
  {
    RunInv(actions, m);
    if n < m {
      ClosedForGood(actions, n, m - 1);
      ClosedStep(Run(actions, m - 1), actions[m - 1]);
    }
  }

  lemma ClosedStep(s: State, a: Action)
    requires s.closed && s.active == map[]
    ensures Step(s, a).closed && |Step(s, a).owners| == |s.owners|
  {
  }

  // ----- which final event, and which events -----

  /** The final event that a removal stands for. */
  predicate Stands(removal: Option<Cause>, e: Event) {
    match removal
    case Some(Answered(response)) => e == Terminal(response)
    case Some(Failed) => e == Failure
    case _ => false
  }

  /** Wherever a final event of the request is, it is the one its removal stands for. */
  predicate Told(r: Record) {
    && (r.owed.Some? ==> Stands(r.removal, r.owed.value))
    && AllStand(r.removal, r.waiting) && AllStand(r.removal, r.queue) && AllStand(r.removal, r.seen) && AllStand(r.removal, r.lost)
  }

  predicate AllStand(removal: Option<Cause>, events: seq<Event>) {
    forall i :: 0 <= i < |events| && Final(events[i]) ==> Stands(removal, events[i])
  }

  lemma AllStandConcat(removal: Option<Cause>, a: seq<Event>, b: seq<Event>)
    ensures AllStand(removal, a + b) <==> AllStand(removal, a) && AllStand(removal, b)
  {
    hide Final;
    hide Stands;
    assert forall i :: 0 <= i < |a| ==> (a + b)[i] == a[i];
    assert forall i :: 0 <= i < |b| ==> (a + b)[|a| + i] == b[i];
  }

  lemma AllStandTail(removal: Option<Cause>, events: seq<Event>)
    requires events != []
    ensures AllStand(removal, events) <==> AllStand(removal, [events[0]]) && AllStand(removal, events[1..])
  {
    Head(events);
    AllStandConcat(removal, [events[0]], events[1..]);
  }

  lemma {:induction false} NoFinals(events: seq<Event>)
    requires Finals(events) == 0
    ensures forall i :: 0 <= i < |events| ==> !Final(events[i])
  {
    if events != [] {
      NoFinals(events[..|events| - 1]);
    }
  }

  /** A request not removed has no final event anywhere, so any cause can be given to it. */
  lemma RemovedTold(r: Record, cause: Cause, abandoning: bool)
    requires r.removal.None? && AllFinals(r) == 0
    ensures Told(Removed(r, cause, abandoning))
  {
    NoFinals(r.waiting);
    NoFinals(r.queue);
    NoFinals(r.seen);
    NoFinals(r.lost);
    hide Final;
    hide Finals;
  }

  lemma RemoveTold(s: State, o: Owner, cause: Cause, abandoning: bool)
    requires o < |s.owners| && Fits(s.owners[o], Holds(s.active, s.owners[o].id, o)) && Told(s.owners[o])
    ensures var t := Remove(s, o, cause, abandoning); |t.owners| == |s.owners| && Told(t.owners[o]) && forall p :: 0 <= p < |s.owners| && p != o ==> t.owners[p] == s.owners[p]
  {
    if Holds(s.active, s.owners[o].id, o) { RemovedTold(s.owners[o], cause, abandoning); }
    hide Told;
    hide AllFinals;
  }

  lemma OfferTold(s: State, o: Owner, e: Event)
    requires o < |s.owners| && Fits(s.owners[o], Holds(s.active, s.owners[o].id, o)) && Told(s.owners[o]) && !Final(e)
    ensures var t := Offer(s, o, e); |t.owners| == |s.owners| && Told(t.owners[o]) && forall p :: 0 <= p < |s.owners| && p != o ==> t.owners[p] == s.owners[p]
  {
    var r := s.owners[o];
    RemoveTold(s, o, Failed, true);
    AllStandConcat(r.removal, r.queue, [e]);
    hide Fits;
    hide Remove;
    hide Stands;
  }

  lemma RouteTold(s: State, o: Owner, m: Inbound)
    requires o < |s.owners| && Fits(s.owners[o], Holds(s.active, s.owners[o].id, o)) && Told(s.owners[o])
    ensures var t := RouteNotification(s, o, m); |t.owners| == |s.owners| && Told(t.owners[o]) && forall p :: 0 <= p < |s.owners| && p != o ==> t.owners[p] == s.owners[p]
  {
    var r := s.owners[o];
    RemoveTold(s, o, Failed, true);
    RemoveTold(s, o, Failed, false);
    OfferTold(s, o, Notification(None));
    if m.Changed? { OfferTold(s, o, Notification(Some(m.change))); }
    if m.Ack? && r.requested.Some? && r.acknowledged.None? && Subset(m.filter, r.requested.value) {
      AckTold(s, o, m.filter);
    }
    hide Fits;
    hide Told;
    hide Remove;
    hide Offer;
    hide Subset;
    hide Selects;
  }

  lemma AckTold(s: State, o: Owner, filter: Filter)
    requires o < |s.owners| && Fits(s.owners[o], Holds(s.active, s.owners[o].id, o)) && Told(s.owners[o])
    ensures var t := Offer(s.(owners := s.owners[o := s.owners[o].(acknowledged := Some(filter))]), o, Acknowledged(filter));
            |t.owners| == |s.owners| && Told(t.owners[o]) && forall p :: 0 <= p < |s.owners| && p != o ==> t.owners[p] == s.owners[p]
  {
    var r := s.owners[o].(acknowledged := Some(filter));
    AllStandConcat(r.removal, r.queue, [Acknowledged(filter)]);
    if Holds(s.active, r.id, o) { RemovedTold(r, Failed, true); }
    hide AllFinals;
    hide Stands;
    hide Grammar;
  }

  lemma QueueTold(s: State, a: Action, o: Owner)
    requires o < |s.owners| && Told(s.owners[o]) && (a.OfferFinal? || a.Admit? || a.Take? || a.Shutdown? || a.SendCompletes? || a.Abandon?)
    ensures var t := OwnerStep(s, a, o); |t.owners| == |s.owners| && Told(t.owners[o]) && forall p :: 0 <= p < |s.owners| && p != o ==> t.owners[p] == s.owners[p]
  {
    var r := s.owners[o];
    if r.owed.Some? {
      AllStandConcat(r.removal, r.waiting, [r.owed.value]);
      AllStandConcat(r.removal, r.lost, [r.owed.value]);
    }
    if r.waiting != [] {
      AllStandTail(r.removal, r.waiting);
      AllStandConcat(r.removal, r.queue, [r.waiting[0]]);
    }
    if r.queue != [] {
      AllStandTail(r.removal, r.queue);
      AllStandConcat(r.removal, r.seen, [r.queue[0]]);
    }
    AllStandConcat(r.removal, r.lost, r.queue);
    AllStandConcat(r.removal, r.lost + r.queue, r.waiting);
    OneStands(r);
    hide Stands;
    hide AllStand;
  }

  lemma OneStands(r: Record)
    ensures r.owed.Some? && Stands(r.removal, r.owed.value) ==> AllStand(r.removal, [r.owed.value])
    ensures AllStand(r.removal, [])
  {
  }

  /** All records of a state. */
  predicate AllTold(s: State) {
    forall o :: 0 <= o < |s.owners| ==> Told(s.owners[o])
  }

  lemma OwnerStepTold(s: State, a: Action, o: Owner)
    requires Inv(s) && AllTold(s) && o < |s.owners|
    ensures AllTold(OwnerStep(s, a, o))
  {
    assert Fits(s.owners[o], Holds(s.active, s.owners[o].id, o));
    hide Fits;
    hide Told;
    if a.OfferFinal? || a.Admit? || a.Take? || a.Shutdown? || a.SendCompletes? || a.Abandon? {
      QueueTold(s, a, o);
    } else if a.Route? {
      RouteTold(s, o, a.inbound);
    } else if a.Respond? {
      RemoveTold(s, o, Failed, true);
      RemoveTold(s, o, Answered(a.response), false);
    } else if a.Finalize? {
      RemoveTold(s, o, Dropped, true);
    }
    hide RouteNotification;
    hide Remove;
  }

  lemma StepTold(s: State, a: Action)
    requires Inv(s) && AllTold(s)
    ensures AllTold(Step(s, a))
  {
    hide Fits;
    hide OwnerStep;
    match a {
      case Request(id, requested) => NewTold(id, requested);
      case Cancel(id) =>
        if id in s.active && s.active[id] < |s.owners| {
          assert Fits(s.owners[s.active[id]], Holds(s.active, s.owners[s.active[id]].id, s.active[id]));
          RemoveTold(s, s.active[id], Failed, false);
        }
      case Close => CloseTold(s);
      case _ => if a.o < |s.owners| { OwnerStepTold(s, a, a.o); }
    }
    hide Told;
    hide NewRecord;
  }

  lemma NewTold(id: RequestId, requested: Option<Filter>)
    ensures Told(NewRecord(id, requested))
  {
  }

  lemma CloseTold(s: State)
    requires Inv(s) && AllTold(s)
    ensures AllTold(CloseAll(s))
  {
    forall o | 0 <= o < |s.owners| ensures Told(CloseAll(s).owners[o]) {
      assert Fits(s.owners[o], Holds(s.active, s.owners[o].id, o));
      if Holds(s.active, s.owners[o].id, o) { RemovedTold(s.owners[o], Failed, false); }
    }
    hide Told;
    hide Fits;
  }

  lemma {:induction false} RunTold(actions: seq<Action>, n: nat)
    requires n <= |actions|
    ensures AllTold(Run(actions, n))
  {
    hide Step;
    hide Inv;
    hide Told;
    if n > 0 {
      RunTold(actions, n - 1);
      RunInv(actions, n - 1);
      StepTold(Run(actions, n - 1), actions[n - 1]);
    }
  }

  /** The consumer of an answered request sees that answer as its final event, and the consumer of a failed one the failure. */
  lemma FinalIsItsOwn(actions: seq<Action>, n: nat, o: Owner, i: nat)
    requires n <= |actions| && o < |Run(actions, n).owners|
    requires i < |Run(actions, n).owners[o].seen| && Final(Run(actions, n).owners[o].seen[i])
    ensures var r := Run(actions, n).owners[o];
            || (r.removal == Some(Failed) && r.seen[i] == Failure)
            || (r.removal.Some? && r.removal.value.Answered? && r.seen[i] == Terminal(r.removal.value.response))
  {
    RunTold(actions, n);
    hide Run;
    assert Told(Run(actions, n).owners[o]);
  }

  /** A response answers the active request it is routed to, a subscription's only after its acknowledgement and when it is valid; any other fails it. */
  lemma ResponseAnswers(s: State, o: Owner, response: Message, valid: bool)
    requires o < |s.owners| && Holds(s.active, s.owners[o].id, o)
    ensures var r := s.owners[o];
            var t := Step(s, Respond(o, response, valid));
            && t.active == s.active - {r.id} && |t.owners| == |s.owners|
            && if r.requested.None? || (r.acknowledged.Some? && valid) then t.owners[o].removal == Some(Answered(response)) && t.owners[o].owed == Some(Terminal(response))
               else t.owners[o].removal == Some(Failed) && t.owners[o].owed == Some(Failure)
  {
  }

  /** A subscription's own notifications: its acknowledgement within the request first, then changes the acknowledged filter selects. */
  predicate Admitted(r: Record, m: Inbound) {
    && r.requested.Some? && m.valid
    && if r.acknowledged.None? then m.Ack? && m.ownerMatches && Subset(m.filter, r.requested.value)
       else m.Changed? && m.ownerMatches && Selects(r.acknowledged.value, m.change)
  }

  /** What reaches the queue of an active request with room: a subscription's own notifications, and everything but cancellations and invalid progress for the others; what a subscription does not admit fails it. */
  lemma NotificationIsQueued(s: State, o: Owner, m: Inbound)
    requires o < |s.owners| && Holds(s.active, s.owners[o].id, o) && !s.owners[o].shut && |s.owners[o].queue| < 16
    ensures var r := s.owners[o];
            var t := Step(s, Route(o, m));
            && |t.owners| == |s.owners|
            && (Admitted(r, m) ==> t.active == s.active && t.owners[o].queue == r.queue + [if m.Ack? then Acknowledged(m.filter) else Notification(Some(m.change))]
                                   && t.owners[o].acknowledged == if m.Ack? then Some(m.filter) else r.acknowledged)
            && (r.requested.Some? && !Admitted(r, m) ==> t.owners[o].removal == Some(Failed))
            && (r.requested.None? && m.Cancelled? ==> t == s)
            && (r.requested.None? && m.Progress? && !m.valid ==> t.owners[o].removal == Some(Failed))
            && (r.requested.None? && !m.Cancelled? && (m.Progress? ==> m.valid) ==>
                  t.active == s.active && t.owners[o].queue == r.queue + [Notification(if m.Changed? then Some(m.change) else None)])
  {
    hide Subset;
    hide Selects;
  }

  /** A full queue fails the request instead. */
  lemma OverflowFails(s: State, o: Owner, m: Inbound)
    requires o < |s.owners| && Holds(s.active, s.owners[o].id, o) && |s.owners[o].queue| >= 16
    requires Admitted(s.owners[o], m) || (s.owners[o].requested.None? && !m.Cancelled?)
    ensures Step(s, Route(o, m)).owners[o].removal == Some(Failed)
  {
    hide Subset;
    hide Selects;
  }

  // ----- which removals are abandoned -----

  lemma RouteOwes(s: State, o: Owner, m: Inbound)
    requires o < |s.owners| && Holds(s.active, s.owners[o].id, o)
    ensures var r, t := s.owners[o], RouteNotification(s, o, m);
            |t.owners| == |s.owners| && (Holds(t.active, r.id, o) || (t.owners[o].abandoning <==> !(r.requested.Some? && m.Cancelled? && m.valid)))
  {
    hide Subset;
    hide Selects;
  }

  lemma RouteKeepsOthers(s: State, p: Owner, m: Inbound, o: Owner)
    requires o < |s.owners| && p < |s.owners| && p != o && Holds(s.active, s.owners[o].id, o)
    ensures Holds(RouteNotification(s, p, m).active, s.owners[o].id, o)
  {
    hide Subset;
    hide Selects;
  }

  /** A removal owes an abandonment check exactly when the request was given up on this side: by its own stream's finalizer, or by a message that broke its rules. */
  lemma RemovalOwesAbandonment(s: State, a: Action, o: Owner)
    requires o < |s.owners| && Holds(s.active, s.owners[o].id, o) && !Holds(Step(s, a).active, s.owners[o].id, o)
    ensures o < |Step(s, a).owners|
    ensures var r, t := s.owners[o], Step(s, a).owners[o];
            t.abandoning <==>
            || a == Finalize(o)
            || (a.Route? && !(r.requested.Some? && a.inbound.Cancelled? && a.inbound.valid))
            || (a.Respond? && r.requested.Some? && !(r.acknowledged.Some? && a.valid))
  {
    hide RouteNotification;
    hide Final;
    if a.Route? && a.o < |s.owners| {
      if a.o == o { RouteOwes(s, o, a.inbound); } else { RouteKeepsOthers(s, a.o, a.inbound, o); }
    }
  }

  /** Further steps of the protocol end with the owner's abandonment signalled. */
  ghost predicate Signals(actions: seq<Action>, more: seq<Action>, o: Owner) {
    var owners := Run(actions + more, |actions + more|).owners;
    o < |owners| && owners[o].signals == 1
  }

  lemma {:induction false} RunsOn(actions: seq<Action>, more: seq<Action>, n: nat)
    requires n <= |actions|
    ensures Run(actions + more, n) == Run(actions, n)
  {
    hide Step;
    if n > 0 {
      RunsOn(actions, more, n - 1);
    }
  }

  lemma QuietStep(actions: seq<Action>, m: nat, o: Owner)
    requires 0 < m <= |actions| && o < |Run(actions, m - 1).owners|
    requires Run(actions, m - 1).owners[o].removal.Some? && !Run(actions, m - 1).owners[o].abandoning
    ensures o < |Run(actions, m).owners| && !Run(actions, m).owners[o].abandoning
    ensures Run(actions, m).owners[o].signals == Run(actions, m - 1).owners[o].signals
  {
    hide Step;
    hide AllFinals;
    hide Holds;
    OwnershipConserved(actions, m - 1, o);
    RemovalStep(Run(actions, m - 1), actions[m - 1], o);
  }

  /** A removed request without a pending check is signalled by no further run. */
  lemma {:induction false} QuietRun(actions: seq<Action>, n: nat, m: nat, o: Owner)
    requires n <= m <= |actions| && o < |Run(actions, n).owners|
    requires Run(actions, n).owners[o].removal.Some? && !Run(actions, n).owners[o].abandoning
    ensures o < |Run(actions, m).owners| && !Run(actions, m).owners[o].abandoning
    ensures Run(actions, m).owners[o].signals == Run(actions, n).owners[o].signals
    decreases m
  {
    hide *;
    if n < m {
      QuietRun(actions, n, m - 1, o);
      RemovalIsFinal(actions, n, m - 1, o);
      QuietStep(actions, m, o);
    }
  }

  /** The final event is offered, the send completes if it has not, and the check runs. */
  lemma CheckSignals(s: State, o: Owner)
    requires o < |s.owners| && s.owners[o].abandoning && s.owners[o].signals == 0
    ensures var t := Step(Step(Step(s, OfferFinal(o)), SendCompletes(o)), Abandon(o));
            o < |t.owners| && t.owners[o].signals == 1
  {
  }

  /** After any run, the abandonment of a removed request is signalled in some continuation if and only if it was signalled or its check is still to come. */
  lemma AbandonmentPossible(actions: seq<Action>, o: Owner)
    requires o < |Run(actions, |actions|).owners| && Run(actions, |actions|).owners[o].removal.Some?
    ensures var r := Run(actions, |actions|).owners[o];
            r.signals == 1 || r.abandoning <==> exists more: seq<Action> :: Signals(actions, more, o)
  {
    var s := Run(actions, |actions|);
    var r := s.owners[o];
    if r.signals == 1 {
      assert actions + [] == actions;
      assert Signals(actions, [], o);
    } else if r.abandoning {
      AbandoningSignals(actions, o);
    } else {
      forall more: seq<Action> ensures !Signals(actions, more, o) {
        AbandonedOnceAfterSend(actions, |actions|, o);
        RunsOn(actions, more, |actions|);
        QuietRun(actions + more, |actions|, |actions + more|, o);
      }
    }
  }

  lemma AbandoningSignals(actions: seq<Action>, o: Owner)
    requires o < |Run(actions, |actions|).owners| && Run(actions, |actions|).owners[o].abandoning && Run(actions, |actions|).owners[o].signals != 1
    ensures Signals(actions, [OfferFinal(o), SendCompletes(o), Abandon(o)], o)
  {
    AbandonedOnceAfterSend(actions, |actions|, o);
    CheckSignals(Run(actions, |actions|), o);
    RunsThree(actions, OfferFinal(o), SendCompletes(o), Abandon(o));
    hide Step;
  }

  lemma RunsThree(actions: seq<Action>, a: Action, b: Action, c: Action)
    ensures Run(actions + [a, b, c], |actions + [a, b, c]|) == Step(Step(Step(Run(actions, |actions|), a), b), c)
  {
    hide Step;
    var n := |actions|;
    RunsOn(actions, [a, b, c], n);
    assert Run(actions + [a, b, c], n + 1) == Step(Run(actions, n), a);
    assert Run(actions + [a, b, c], n + 2) == Step(Run(actions + [a, b, c], n + 1), b);
  }

  // ----- the final event gets through -----

  /** The consumer has seen its final event. */
  predicate SawFinal(r: Record) {
    r.seen != [] && Final(r.seen[|r.seen| - 1])
  }

  /** How many steps of its own still separate the final event from the consumer. */
  function Distance(r: Record): nat {
    (if r.owed.Some? then 3 else 0) + 2 * |r.waiting| + |r.queue|
  }

  /** Further steps of the protocol end with the final event seen. */
  predicate Arrives(actions: seq<Action>, more: seq<Action>, o: Owner) {
    var owners := Run(actions + more, |actions + more|).owners;
    o < |owners| && SawFinal(owners[o])
  }

  /** A queue that is shut down is empty, and only then events are lost. */
  predicate Drained(r: Record) {
    if r.shut then r.queue == [] && r.waiting == [] else r.lost == []
  }

  lemma RouteTouches(s: State, p: Owner, m: Inbound, o: Owner)
    requires o < |s.owners| && p < |s.owners| && o != p
    ensures |RouteNotification(s, p, m).owners| == |s.owners| && RouteNotification(s, p, m).owners[o] == s.owners[o]
  {
    hide Subset;
    hide Selects;
    hide NewRecord;
  }

  lemma DrainedRoute(s: State, m: Inbound, o: Owner)
    requires o < |s.owners| && Drained(s.owners[o])
    ensures o < |RouteNotification(s, o, m).owners| && Drained(RouteNotification(s, o, m).owners[o])
  {
    hide Subset;
    hide Selects;
  }

  lemma DrainedOwnerStep(s: State, a: Action, p: Owner, o: Owner)
    requires o < |s.owners| && p < |s.owners| && Drained(s.owners[o]) && !a.Route?
    ensures o < |OwnerStep(s, a, p).owners| && Drained(OwnerStep(s, a, p).owners[o])
  {
    hide Final;
    hide RouteNotification;
  }

  lemma DrainedStep(s: State, a: Action, o: Owner)
    requires o < |Step(s, a).owners| && (o < |s.owners| ==> Drained(s.owners[o]))
    ensures Drained(Step(s, a).owners[o])
  {
    if a.Route? && a.o < |s.owners| {
      OwnersStay(s, a);
      if a.o == o { DrainedRoute(s, a.inbound, o); } else { RouteTouches(s, a.o, a.inbound, o); }
    } else if !a.Request? && !a.Cancel? && !a.Close? && a.o < |s.owners| {
      OwnersStay(s, a);
      DrainedOwnerStep(s, a, a.o, o);
      hide OwnerStep;
    }
    hide RouteNotification;
  }

  lemma OwnersStay(s: State, a: Action)
    ensures |s.owners| <= |Step(s, a).owners| && (!a.Request? ==> |Step(s, a).owners| == |s.owners|)
  {
    hide Subset;
    hide Selects;
    hide Final;
  }

  lemma {:induction false} RunDrained(actions: seq<Action>, n: nat, o: Owner)
    requires n <= |actions| && o < |Run(actions, n).owners|
    ensures Drained(Run(actions, n).owners[o])
  {
    hide Step;
    hide Drained;
    if n > 0 {
      if o < |Run(actions, n - 1).owners| { RunDrained(actions, n - 1, o); }
      DrainedStep(Run(actions, n - 1), actions[n - 1], o);
    }
  }

  lemma {:induction false} NoneFinal(events: seq<Event>)
    requires forall i :: 0 <= i < |events| ==> !Final(events[i])
    ensures Finals(events) == 0
  {
    if events != [] {
      NoneFinal(events[..|events| - 1]);
    }
  }

  /** A final event that has not been seen is on its way. */
  lemma FinalIsSomewhere(r: Record, held: bool)
    requires Fits(r, held) && Drained(r) && r.removal.Some? && r.removal != Some(Dropped) && !r.shut && !SawFinal(r)
    ensures Distance(r) > 0
  {
    if Distance(r) == 0 {
      forall i | 0 <= i < |r.seen| ensures !Final(r.seen[i]) {
        assert i < |r.seen| - 1 || !SawFinal(r);
      }
      NoneFinal(r.seen);
    }
  }

  /** While it is on its way some step brings it nearer. */
  lemma NextStep(s: State, o: Owner) returns (a: Action)
    requires o < |s.owners| && Distance(s.owners[o]) > 0 && !s.owners[o].shut && !SawFinal(s.owners[o])
    ensures o < |Step(s, a).owners|
    ensures var r, t := s.owners[o], Step(s, a).owners[o]; Distance(t) < Distance(r) && !t.shut && t.removal == r.removal
  {
    hide Final;
    var r := s.owners[o];
    a := if r.owed.Some? then OfferFinal(o) else if r.queue != [] then Take(o) else Admit(o);
  }

  lemma RunSnoc(actions: seq<Action>, a: Action)
    ensures Run(actions + [a], |actions| + 1) == Step(Run(actions, |actions|), a)
  {
    hide Step;
    RunsOn(actions, [a], |actions|);
  }

  lemma {:induction false} FinalArrives(actions: seq<Action>, o: Owner) returns (more: seq<Action>)
    requires o < |Run(actions, |actions|).owners|
    requires var r := Run(actions, |actions|).owners[o]; r.removal.Some? && r.removal != Some(Dropped) && !r.shut
    ensures Arrives(actions, more, o)
    decreases Distance(Run(actions, |actions|).owners[o])
  {
    hide *;
    if SawFinal(Run(actions, |actions|).owners[o]) {
      more := [];
      SeenArrives(actions, o);
    } else {
      var a := NearerStep(actions, o);
      var rest := FinalArrives(actions + [a], o);
      more := [a] + rest;
      ArrivesLater(actions, a, rest, o);
    }
  }

  lemma SeenArrives(actions: seq<Action>, o: Owner)
    requires o < |Run(actions, |actions|).owners| && SawFinal(Run(actions, |actions|).owners[o])
    ensures Arrives(actions, [], o)
  {
    assert actions + [] == actions;
  }

  lemma NearerStep(actions: seq<Action>, o: Owner) returns (a: Action)
    requires o < |Run(actions, |actions|).owners| && !SawFinal(Run(actions, |actions|).owners[o])
    requires var r := Run(actions, |actions|).owners[o]; r.removal.Some? && r.removal != Some(Dropped) && !r.shut
    ensures var owners, r := Run(actions + [a], |actions + [a]|).owners, Run(actions, |actions|).owners[o];
            o < |owners| && Distance(owners[o]) < Distance(r) && !owners[o].shut && owners[o].removal == r.removal
  {
    var s := Run(actions, |actions|);
    RunInv(actions, |actions|);
    RunDrained(actions, |actions|, o);
    assert Fits(s.owners[o], Holds(s.active, s.owners[o].id, o));
    hide *;
    FinalIsSomewhere(s.owners[o], Holds(s.active, s.owners[o].id, o));
    a := NextStep(s, o);
    RunSnoc(actions, a);
  }

  lemma ArrivesLater(actions: seq<Action>, a: Action, rest: seq<Action>, o: Owner)
    requires Arrives(actions + [a], rest, o)
    ensures Arrives(actions, [a] + rest, o)
  {
    assert actions + ([a] + rest) == (actions + [a]) + rest;
  }

  /** The queue is shut down and empty, and the final event was not seen. */
  predicate Lost(r: Record) {
    r.shut && r.queue == [] && r.waiting == [] && r.removal.Some? && !SawFinal(r)
  }

  lemma LostRoute(s: State, p: Owner, m: Inbound, o: Owner)
    requires o < |s.owners| && p < |s.owners| && !Holds(s.active, s.owners[o].id, o) && Lost(s.owners[o])
    ensures o < |RouteNotification(s, p, m).owners| && Lost(RouteNotification(s, p, m).owners[o])
  {
    hide Subset;
    hide Selects;
    hide Final;
  }

  lemma LostOwnerStep(s: State, a: Action, p: Owner, o: Owner)
    requires o < |s.owners| && p < |s.owners| && !Holds(s.active, s.owners[o].id, o) && Lost(s.owners[o]) && !a.Route?
    ensures o < |OwnerStep(s, a, p).owners| && Lost(OwnerStep(s, a, p).owners[o])
  {
    hide Final;
    hide RouteNotification;
  }

  lemma LostStep(s: State, a: Action, o: Owner)
    requires o < |s.owners| && !Holds(s.active, s.owners[o].id, o) && Lost(s.owners[o])
    ensures o < |Step(s, a).owners| && Lost(Step(s, a).owners[o])
  {
    if a.Route? && a.o < |s.owners| {
      LostRoute(s, a.o, a.inbound, o);
    } else if !a.Request? && !a.Cancel? && !a.Close? && a.o < |s.owners| {
      LostOwnerStep(s, a, a.o, o);
      hide OwnerStep;
    }
    hide RouteNotification;
    hide SawFinal;
  }

  lemma {:induction false} LostForGood(actions: seq<Action>, n: nat, m: nat, o: Owner)
    requires n <= m <= |actions| && o < |Run(actions, n).owners| && Lost(Run(actions, n).owners[o])
    ensures o < |Run(actions, m).owners| && Lost(Run(actions, m).owners[o])
    decreases m
  {
    if n < m {
      LostForGood(actions, n, m - 1, o);
      OwnershipConserved(actions, m - 1, o);
      LostStep(Run(actions, m - 1), actions[m - 1], o);
      hide Step;
      hide SawFinal;
    }
  }

  lemma ShutIsLost(actions: seq<Action>, o: Owner, more: seq<Action>)
    requires o < |Run(actions, |actions|).owners|
    requires var r := Run(actions, |actions|).owners[o]; r.removal.Some? && r.shut && !SawFinal(r)
    ensures !Arrives(actions, more, o)
  {
    RunDrained(actions, |actions|, o);
    RunsOn(actions, more, |actions|);
    hide Run;
    LostForGood(actions + more, |actions|, |actions + more|, o);
  }

  /**
   After any run, the consumer of a request that was answered or failed sees its final event in some
   continuation if and only if it has seen it or its own stream has not shut the queue down.
   */
  lemma FinalPossible(actions: seq<Action>, o: Owner)
    requires o < |Run(actions, |actions|).owners|
    requires Run(actions, |actions|).owners[o].removal.Some? && Run(actions, |actions|).owners[o].removal != Some(Dropped)
    ensures var r := Run(actions, |actions|).owners[o];
            SawFinal(r) || !r.shut <==> exists more: seq<Action> :: Arrives(actions, more, o)
  {
    hide Run;
    hide SawFinal;
    var r := Run(actions, |actions|).owners[o];
    if !r.shut {
      var more := FinalArrives(actions, o);
    } else if SawFinal(r) {
      SeenArrives(actions, o);
    } else {
      forall more: seq<Action> ensures !Arrives(actions, more, o) {
        ShutIsLost(actions, o, more);
      }
    }
    hide Arrives;
  }
}
