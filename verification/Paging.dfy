/**
 List paging of src/McpServer.ts over the cursor service: any number of list requests,
 registry changes, expiries and foreign cursors interleaved step by step. A walk that
 follows nextCursor to the end saw exactly one view, page by page.
 */
module Paging {
  import opened Common
  import opened PaginationCursors

  /** One value per collection, as the revision record and the registry arrays are. */
  datatype Per<T> = Per(tools: T, resources: T, templates: T, prompts: T) {
    function Get(c: Collection): T {
      match c
      case Tools => tools
      case Resources => resources
      case ResourceTemplates => templates
      case Prompts => prompts
    }

    function Set(c: Collection, v: T): Per<T> {
      match c
      case Tools => this.(tools := v)
      case Resources => this.(resources := v)
      case ResourceTemplates => this.(templates := v)
      case Prompts => this.(prompts := v)
    }
  }

  // ----- the sorted view -----

  function Insert(k: JsString, sorted: seq<JsString>): seq<JsString> {
    if sorted == [] || !StringLess(sorted[0], k) then [k] + sorted else [sorted[0]] + Insert(k, sorted[1..])
  }

  /** The keys in code-unit order. */
  function Sort(keys: seq<JsString>): seq<JsString> {
    if keys == [] then [] else Insert(keys[0], Sort(keys[1..]))
  }

  /** The keys of the entries the client may see. */
  function Visible(keys: seq<JsString>, hidden: set<JsString>): seq<JsString> {
    if keys == [] then [] else (if keys[0] in hidden then [] else [keys[0]]) + Visible(keys[1..], hidden)
  }

  /** Exactly the keys that are not hidden, each as often as it is registered. */
  lemma {:induction false} VisibleExact(keys: seq<JsString>, hidden: set<JsString>, k: JsString)
    ensures multiset(Visible(keys, hidden))[k] == if k in hidden then 0 else multiset(keys)[k]
  {
    if keys != [] {
      VisibleExact(keys[1..], hidden, k);
      Head(keys);
    }
  }

  predicate Ordered(s: seq<JsString>) {
    forall i :: 0 <= i < |s| - 1 ==> !StringLess(s[i + 1], s[i])
  }

  lemma OrderedCons(x: JsString, r: seq<JsString>)
    requires Ordered(r) && (r == [] || !StringLess(r[0], x))
    ensures Ordered([x] + r)
  {
    hide StringLess;
    var s := [x] + r;
    forall i | 0 <= i < |s| - 1 ensures !StringLess(s[i + 1], s[i]) {
      if i > 0 { assert !StringLess(r[i], r[i - 1]); }
    }
  }

  lemma OrderedTail(s: seq<JsString>)
    requires Ordered(s) && s != []
    ensures Ordered(s[1..]) && (|s| == 1 || !StringLess(s[1..][0], s[0]))
  {
    hide StringLess;
    forall i | 0 <= i < |s[1..]| - 1 ensures !StringLess(s[1..][i + 1], s[1..][i]) {
      assert !StringLess(s[i + 2], s[i + 1]);
    }
  }

  lemma {:induction false} InsertOrdered(k: JsString, sorted: seq<JsString>)
    requires Ordered(sorted)
    ensures Ordered(Insert(k, sorted)) && multiset(Insert(k, sorted)) == multiset{k} + multiset(sorted)
  {
    hide StringLess;
    hide Ordered;
    if sorted != [] && StringLess(sorted[0], k) {
      Head(sorted);
      var rest := sorted[1..];
      OrderedTail(sorted);
      InsertOrdered(k, rest);
      InsertFront(k, rest);
      StringLessTotal(sorted[0], k);
      OrderedCons(sorted[0], Insert(k, rest));
    } else {
      OrderedCons(k, sorted);
    }
  }

  lemma InsertFront(k: JsString, sorted: seq<JsString>)
    ensures Insert(k, sorted) != [] && (Insert(k, sorted)[0] == k || (sorted != [] && Insert(k, sorted)[0] == sorted[0]))
  {
  }

  /** The view is the visible keys themselves, put in order. */
  lemma {:induction false} SortOrders(keys: seq<JsString>)
    ensures Ordered(Sort(keys)) && multiset(Sort(keys)) == multiset(keys)
  {
    if keys != [] {
      SortOrders(keys[1..]);
      InsertOrdered(keys[0], Sort(keys[1..]));
      Head(keys);
    }
  }

  // ----- list requests and registry changes, step by step -----

  /** Where one list request stands; the offset and the page are fixed once located. */
  datatype Phase =
    | Begun | Located(offset: nat) | Drawing(start: nat, page: seq<JsString>)
    | Done(start: nat, page: seq<JsString>, next: Option<JsString>) | Failed

  datatype Call = Call(collection: Collection, cursor: Option<JsString>, view: seq<JsString>, revision: nat, phase: Phase)

  /** An `issue` between its evictions and its insertion: of a page of ours, or of another server sharing the service. */
  datatype Ticket = Page(id: nat) | Other(id: nat)

  datatype Issue = Issue(state: CursorState, now: int)

  /** `issued` remembers every token ever drawn, `peak` the most issues ever pending at once. */
  datatype World = World(
    entries: seq<Stored>,
    pending: map<Ticket, Issue>,
    peak: nat,
    revisions: Per<nat>,
    registry: Per<seq<JsString>>,
    calls: map<nat, Call>,
    issued: map<JsString, CursorState>)

  datatype Settings = Settings(server: JsString, service: JsString, capacity: nat, lifetime: nat, pageSize: nat)

  datatype Action =
    | Begin(id: nat, collection: Collection, cursor: Option<JsString>, hidden: set<JsString>)
    | Locate(id: nat, now: int)
    | Deliver(id: nat, now: int)
    | Complete(ticket: Ticket, token: JsString)
    | Invalidate(collections: set<Collection>)
    | Bump(collection: Collection)
    | Mutate(collection: Collection, keys: seq<JsString>)
    | Foreign(id: nat, state: CursorState, now: int)

  /** A draw nobody drew before. */
  predicate FreshToken(w: World, token: JsString) {
    Opaque(token) && token !in w.issued
  }

  /** What `paginate` demands of a resolved cursor. */
  predicate Continues(call: Call, state: CursorState, server: JsString) {
    && state.owner == server && state.collection == call.collection && state.revision == call.revision
    && 0 < state.offset < |call.view| && state.view == call.view
  }

  function Min(a: nat, b: nat): nat {
    if a < b then a else b
  }

  /** `paginate` up to its first yield: the view and the revision it will work with. */
  function BeginStep(w: World, a: Action): Option<World>
    requires a.Begin?
  {
    if a.id in w.calls then None
    else
      var view := Sort(Visible(w.registry.Get(a.collection), a.hidden));
      Some(w.(calls := w.calls[a.id := Call(a.collection, a.cursor, view, w.revisions.Get(a.collection), Begun)]))
  }

  /** The cursor is resolved and compared. */
  function LocateStep(w: World, a: Action, s: Settings): Option<World>
    requires a.Locate?
  {
    if a.id !in w.calls || !w.calls[a.id].phase.Begun? then None
    else
      var call := w.calls[a.id];
      match call.cursor
      case None => Some(w.(calls := w.calls[a.id := call.(phase := Located(0))]))
      case Some(cursor) =>
        var (state, left) := Resolved(w.entries, s.service, cursor, a.now);
        var phase := if state.Some? && Continues(call, state.value, s.server) then Located(state.value.offset) else Failed;
        Some(w.(entries := left, calls := w.calls[a.id := call.(phase := phase)]))
  }

  /** What remains after a page, as a cursor's state. */
  function Rest(call: Call, start: nat, s: Settings): CursorState {
    CursorState(s.server, call.collection, call.revision, Min(|call.view|, start + s.pageSize), call.view)
  }

  /** `issue` up to its draw. */
  function MakeRoom(w: World, ticket: Ticket, state: CursorState, now: int, s: Settings): World
    requires s.capacity >= 1
  {
    var pending := w.pending[ticket := Issue(state, now)];
    w.(entries := MadeRoom(w.entries, s.capacity, now), pending := pending, peak := if |pending| > w.peak then |pending| else w.peak)
  }

  /** The page is cut; when entries remain an issue begins. */
  function DeliverStep(w: World, a: Action, s: Settings): Option<World>
    requires a.Deliver? && s.capacity >= 1
  {
    if a.id !in w.calls || !w.calls[a.id].phase.Located? then None
    else
      var call := w.calls[a.id];
      var offset := call.phase.offset;
      var end := Min(|call.view|, offset + s.pageSize);
      if offset > end then None
      else
        var page := call.view[offset..end];
        if end >= |call.view| then
          Some(w.(calls := w.calls[a.id := call.(phase := Done(offset, page, None))]))
        else
          Some(MakeRoom(w.(calls := w.calls[a.id := call.(phase := Drawing(offset, page))]), Page(a.id), Rest(call, offset, s), a.now, s))
  }

  /** The cursor of a pending issue is stored. */
  function Store(w: World, ticket: Ticket, token: JsString, s: Settings): World
    requires ticket in w.pending
  {
    var issue := w.pending[ticket];
    w.(entries := Inserted(w.entries, s.lifetime, issue.state, issue.now, token),
       pending := w.pending - {ticket},
       issued := w.issued[token := issue.state])
  }

  /** The rest of an issue: a token drawn for the first time, the insertion, and for a page of ours its answer. */
  function InsertStep(w: World, a: Action, s: Settings): Option<World>
    requires a.Complete?
  {
    if a.ticket !in w.pending || !FreshToken(w, a.token) then None
    else
      var stored := Store(w, a.ticket, a.token, s);
      match a.ticket
      case Other(_) => Some(stored)
      case Page(id) =>
        if id !in w.calls || !w.calls[id].phase.Drawing? then None
        else
          var call := w.calls[id];
          Some(stored.(calls := w.calls[id := call.(phase := Done(call.phase.start, call.phase.page, Some(CursorText(s.service, a.token))))]))
  }

  /** Another server sharing the service begins an issue of its own. */
  function ForeignStep(w: World, a: Action, s: Settings): Option<World>
    requires a.Foreign? && s.capacity >= 1
  {
    if a.state.owner == s.server || Other(a.id) in w.pending then None
    else Some(MakeRoom(w, Other(a.id), a.state, a.now, s))
  }

  function Step(w: World, a: Action, s: Settings): Option<World>
    requires s.capacity >= 1
  {
    match a
    case Begin(_, _, _, _) => BeginStep(w, a)
    case Locate(_, _) => LocateStep(w, a, s)
    case Deliver(_, _) => DeliverStep(w, a, s)
    case Complete(_, _) => InsertStep(w, a, s)
    case Invalidate(collections) => Some(w.(entries := Without(w.entries, collections)))
    case Bump(c) => Some(w.(revisions := w.revisions.Set(c, w.revisions.Get(c) + 1)))
    case Mutate(c, keys) => Some(w.(registry := w.registry.Set(c, keys)))
    case Foreign(_, _, _) => ForeignStep(w, a, s)
  }

  function Run(w: World, actions: seq<Action>, s: Settings): Option<World>
    requires s.capacity >= 1
    decreases |actions|
  {
    if actions == [] then Some(w)
    else
      match Step(w, actions[0], s)
      case None => None
      case Some(next) => Run(next, actions[1..], s)
  }

  predicate Sane(s: Settings) {
    Opaque(s.service) && s.capacity >= 1 && s.pageSize >= 1
  }

  const START := World([], map[], 0, Per(0, 0, 0, 0), Per([], [], [], []), map[], map[])

  // ----- what every run keeps -----

  /** The service holds only what was issued. */
  predicate EntriesFit(entries: seq<Stored>, issued: map<JsString, CursorState>) {
    forall e :: e in entries ==> e.token in issued && issued[e.token] == e.state
  }

  /** The position a cursor text stands for. */
  predicate Names(issued: map<JsString, CursorState>, s: Settings, cursor: JsString, state: CursorState) {
    match ReadCursor(cursor)
    case None => false
    case Some((owner, token)) => owner == s.service && token in issued && issued[token] == state
  }

  /** A located request starts where its cursor says, in the view its cursor was cut from. */
  predicate StartsAt(issued: map<JsString, CursorState>, s: Settings, call: Call, offset: nat) {
    && offset <= |call.view|
    && match call.cursor
       case None => offset == 0
       case Some(cursor) => 0 < offset < |call.view| && Names(issued, s, cursor, CursorState(s.server, call.collection, call.revision, offset, call.view))
  }

  /** A finished request delivered its slice, with a cursor for the rest exactly when there is a rest. */
  predicate Delivered(issued: map<JsString, CursorState>, s: Settings, call: Call)
    requires call.phase.Done?
  {
    var end := Min(|call.view|, call.phase.start + s.pageSize);
    && call.phase.start <= end
    && call.phase.page == call.view[call.phase.start..end]
    && (call.phase.next.None? <==> end >= |call.view|)
    && (call.phase.next.Some? ==> Names(issued, s, call.phase.next.value, CursorState(s.server, call.collection, call.revision, end, call.view)))
  }

  predicate CallFits(issued: map<JsString, CursorState>, s: Settings, call: Call) {
    && Ordered(call.view)
    && (call.phase.Located? ==> StartsAt(issued, s, call, call.phase.offset))
    && (call.phase.Drawing? ==> StartsAt(issued, s, call, call.phase.start) && Cut(s, call))
    && (call.phase.Done? ==> StartsAt(issued, s, call, call.phase.start) && Delivered(issued, s, call))
  }

  /** A page that waits for its cursor is a full slice with something behind it. */
  predicate Cut(s: Settings, call: Call)
    requires call.phase.Drawing?
  {
    var end := call.phase.start + s.pageSize;
    end < |call.view| && call.phase.page == call.view[call.phase.start..end]
  }

  /** A pending issue of ours is that of a page waiting for it. */
  predicate IssueFits(w: World, s: Settings, id: nat) {
    Page(id) in w.pending ==>
      id in w.calls && w.calls[id].phase.Drawing? && w.pending[Page(id)].state == Rest(w.calls[id], w.calls[id].phase.start, s)
  }

  /** An issue that inserts had made room for its entry, though others may have inserted since. */
  predicate RoomFits(w: World, s: Settings) {
    |w.entries| + |w.pending| < s.capacity + w.peak && |w.pending| <= w.peak
  }

  ghost predicate Inv(w: World, s: Settings) {
    && RoomFits(w, s)
    && EntriesFit(w.entries, w.issued)
    && (forall id :: id in w.calls ==> CallFits(w.issued, s, w.calls[id]))
    && (forall id {:trigger IssueFits(w, s, id)} :: IssueFits(w, s, id))
  }

  lemma NamesStill(issued: map<JsString, CursorState>, s: Settings, token: JsString, state: CursorState)
    requires token !in issued
    ensures forall c, st :: Names(issued, s, c, st) ==> Names(issued[token := state], s, c, st)
  {
  }

  lemma CallStillFits(issued: map<JsString, CursorState>, s: Settings, call: Call, token: JsString, state: CursorState)
    requires CallFits(issued, s, call) && token !in issued
    ensures CallFits(issued[token := state], s, call)
  {
    NamesStill(issued, s, token, state);
    hide Names;
    hide Ordered;
  }

  /** Replacing one request that waits for no issue, and the stored cursors. */
  lemma UpdateKeeps(w: World, entries: seq<Stored>, id: nat, call: Call, s: Settings)
    requires Inv(w, s) && |entries| <= |w.entries| && EntriesFit(entries, w.issued) && CallFits(w.issued, s, call)
    requires Page(id) !in w.pending
    ensures Inv(w.(entries := entries, calls := w.calls[id := call]), s)
  {
    hide EntriesFit;
    hide CallFits;
    var t := w.(entries := entries, calls := w.calls[id := call]);
    forall i ensures IssueFits(t, s, i) {
      assert IssueFits(w, s, i);
    }
  }

  lemma NotPending(w: World, s: Settings, id: nat)
    requires Inv(w, s) && (id !in w.calls || !w.calls[id].phase.Drawing?)
    ensures Page(id) !in w.pending
  {
    hide CallFits;
    assert IssueFits(w, s, id);
  }

  lemma MapSizes<K, V>(m: map<K, V>, k: K, v: V)
    ensures k !in m ==> |m[k := v]| == |m| + 1
    ensures k in m ==> |m - {k}| == |m| - 1
  {
    assert |m| == |m.Keys| && |m[k := v]| == |m[k := v].Keys| && m[k := v].Keys == m.Keys + {k};
    assert |m - {k}| == |(m - {k}).Keys| && (m - {k}).Keys == m.Keys - {k};
  }

  /** Making room. */
  lemma MakeRoomKeeps(w: World, ticket: Ticket, state: CursorState, now: int, s: Settings)
    requires Inv(w, s) && s.capacity >= 1 && ticket !in w.pending
    requires ticket.Page? ==> ticket.id in w.calls && w.calls[ticket.id].phase.Drawing? && state == Rest(w.calls[ticket.id], w.calls[ticket.id].phase.start, s)
    ensures Inv(MakeRoom(w, ticket, state, now, s), s)
  {
    MadeRoomKeepsNewest(w.entries, s.capacity, now);
    MapSizes(w.pending, ticket, Issue(state, now));
    hide MadeRoom;
    hide CallFits;
    hide Rest;
    var t := MakeRoom(w, ticket, state, now, s);
    forall i ensures IssueFits(t, s, i) {
      assert IssueFits(w, s, i);
    }
  }

  /** Storing a cursor. */
  lemma StoreKeeps(w: World, ticket: Ticket, token: JsString, s: Settings)
    requires Inv(w, s) && ticket in w.pending && token !in w.issued
    ensures Inv(Store(w, ticket, token, s), s)
  {
    var t, issue := Store(w, ticket, token, s), w.pending[ticket];
    MapSizes(w.pending, ticket, issue);
    forall id | id in w.calls ensures CallFits(t.issued, s, w.calls[id]) {
      CallStillFits(w.issued, s, w.calls[id], token, issue.state);
    }
    hide CallFits;
    hide Rest;
    forall i ensures IssueFits(t, s, i) {
      assert IssueFits(w, s, i);
    }
  }

  lemma BeginKeeps(w: World, a: Action, s: Settings)
    requires Inv(w, s) && a.Begin? && BeginStep(w, a).Some?
    ensures Inv(BeginStep(w, a).value, s)
  {
    var keys := Visible(w.registry.Get(a.collection), a.hidden);
    SortOrders(keys);
    var call := Call(a.collection, a.cursor, Sort(keys), w.revisions.Get(a.collection), Begun);
    hide Sort;
    hide Visible;
    NotPending(w, s, a.id);
    hide Inv;
    InvEntries(w, s);
    UpdateKeeps(w, w.entries, a.id, call, s);
  }

  lemma InvEntries(w: World, s: Settings)
    requires Inv(w, s)
    ensures EntriesFit(w.entries, w.issued)
  {
  }

  lemma InvCall(w: World, s: Settings, id: nat)
    requires Inv(w, s) && id in w.calls
    ensures CallFits(w.issued, s, w.calls[id])
  {
  }

  /** A cursor the service still resolves stands for the position it was issued with. */
  lemma ResolvedNames(entries: seq<Stored>, issued: map<JsString, CursorState>, s: Settings, cursor: JsString, now: int)
    requires EntriesFit(entries, issued)
    ensures var (state, left) := Resolved(entries, s.service, cursor, now);
            && |left| <= |entries| && EntriesFit(left, issued)
            && (state.Some? ==> Names(issued, s, cursor, state.value))
  {
    PrunedKeeps(entries, now);
    hide ReadCursor;
    hide Pruned;
    var parts := ReadCursor(cursor);
    if parts.Some? && Lookup(Pruned(entries, now), parts.value.1).Some? {
      LookupFinds(Pruned(entries, now), parts.value.1);
    }
    hide Lookup;
  }

  lemma LocateKeeps(w: World, a: Action, s: Settings)
    requires Inv(w, s) && a.Locate? && LocateStep(w, a, s).Some?
    ensures Inv(LocateStep(w, a, s).value, s)
  {
    InvEntries(w, s);
    InvCall(w, s, a.id);
    NotPending(w, s, a.id);
    var call := w.calls[a.id];
    hide Inv;
    hide Resolved;
    hide EntriesFit;
    hide Ordered;
    hide Names;
    if call.cursor.None? {
      UpdateKeeps(w, w.entries, a.id, call.(phase := Located(0)), s);
    } else {
      var (state, left) := Resolved(w.entries, s.service, call.cursor.value, a.now);
      ResolvedNames(w.entries, w.issued, s, call.cursor.value, a.now);
      var phase := if state.Some? && Continues(call, state.value, s.server) then Located(state.value.offset) else Failed;
      UpdateKeeps(w, left, a.id, call.(phase := phase), s);
    }
  }

  lemma IssuedNames(issued: map<JsString, CursorState>, s: Settings, token: JsString)
    requires Opaque(s.service) && Opaque(token) && token in issued
    ensures Names(issued, s, CursorText(s.service, token), issued[token])
  {
    ReadCursorExact(CursorText(s.service, token), s.service, token);
    hide ReadCursor;
    hide CursorText;
  }

  lemma DeliverKeeps(w: World, a: Action, s: Settings)
    requires Inv(w, s) && Sane(s) && a.Deliver? && DeliverStep(w, a, s).Some?
    ensures Inv(DeliverStep(w, a, s).value, s)
  {
    hide Inv;
    hide EntriesFit;
    hide Ordered;
    hide Names;
    hide MakeRoom;
    hide Opaque;
    InvEntries(w, s);
    InvCall(w, s, a.id);
    NotPending(w, s, a.id);
    var call := w.calls[a.id];
    var offset := call.phase.offset;
    var end := Min(|call.view|, offset + s.pageSize);
    var page := call.view[offset..end];
    if end >= |call.view| {
      UpdateKeeps(w, w.entries, a.id, call.(phase := Done(offset, page, None)), s);
    } else {
      var drawing := call.(phase := Drawing(offset, page));
      UpdateKeeps(w, w.entries, a.id, drawing, s);
      MakeRoomKeeps(w.(calls := w.calls[a.id := drawing]), Page(a.id), Rest(call, offset, s), a.now, s);
    }
  }

  lemma InsertKeeps(w: World, a: Action, s: Settings)
    requires Inv(w, s) && Sane(s) && a.Complete? && InsertStep(w, a, s).Some?
    ensures Inv(InsertStep(w, a, s).value, s)
  {
    StoreKeeps(w, a.ticket, a.token, s);
    if a.ticket.Page? {
      var id := a.ticket.id;
      assert IssueFits(w, s, id);
      InvCall(w, s, id);
      hide Inv;
      hide EntriesFit;
      hide Ordered;
      hide Names;
      hide Opaque;
      hide CursorText;
      var stored, call := Store(w, a.ticket, a.token, s), w.calls[id];
      InvEntries(stored, s);
      IssuedNames(stored.issued, s, a.token);
      CallStillFits(w.issued, s, call, a.token, w.pending[a.ticket].state);
      UpdateKeeps(stored, stored.entries, id, call.(phase := Done(call.phase.start, call.phase.page, Some(CursorText(s.service, a.token)))), s);
    }
  }

  lemma InvalidateKeeps(w: World, collections: set<Collection>, s: Settings)
    requires Inv(w, s)
    ensures Inv(w.(entries := Without(w.entries, collections)), s)
  {
    WithoutKeeps(w.entries, collections);
    hide CallFits;
    hide Without;
    var t := w.(entries := Without(w.entries, collections));
    forall i ensures IssueFits(t, s, i) {
      assert IssueFits(w, s, i);
    }
  }

  /** Revisions and registries play no part in the invariant. */
  lemma RecordKeeps(w: World, t: World, s: Settings)
    requires Inv(w, s) && t == w.(revisions := t.revisions, registry := t.registry)
    ensures Inv(t, s)
  {
    hide CallFits;
    forall i ensures IssueFits(t, s, i) {
      assert IssueFits(w, s, i);
    }
  }

  lemma StepKeeps(w: World, a: Action, s: Settings)
    requires Inv(w, s) && Sane(s) && Step(w, a, s).Some?
    ensures Inv(Step(w, a, s).value, s)
  {
    hide BeginStep;
    hide LocateStep;
    hide DeliverStep;
    hide InsertStep;
    hide MakeRoom;
    hide CallFits;
    match a
    case Begin(_, _, _, _) => BeginKeeps(w, a, s);
    case Locate(_, _) => LocateKeeps(w, a, s);
    case Deliver(_, _) => DeliverKeeps(w, a, s);
    case Complete(_, _) => InsertKeeps(w, a, s);
    case Invalidate(collections) => InvalidateKeeps(w, collections, s);
    case Bump(_) => RecordKeeps(w, Step(w, a, s).value, s);
    case Mutate(_, _) => RecordKeeps(w, Step(w, a, s).value, s);
    case Foreign(id, state, now) => MakeRoomKeeps(w, Other(id), state, now, s);
  }

  lemma {:induction false} RunInv(w: World, actions: seq<Action>, s: Settings)
    requires Inv(w, s) && Sane(s) && Run(w, actions, s).Some?
    ensures Inv(Run(w, actions, s).value, s)
    decreases |actions|
  {
    hide Inv;
    hide Step;
    if actions != [] {
      StepKeeps(w, actions[0], s);
      RunInv(Step(w, actions[0], s).value, actions[1..], s);
    }
  }

  lemma StartInv(s: Settings)
    requires s.capacity >= 1
    ensures Inv(START, s)
  {
  }

  // ----- walks -----

  /** Requests that follow nextCursor from the first page to the last; they may be any requests of the run. */
  predicate Walk(calls: map<nat, Call>, ids: seq<nat>) {
    && ids != []
    && (forall i :: 0 <= i < |ids| ==> ids[i] in calls && calls[ids[i]].phase.Done?)
    && calls[ids[0]].cursor.None?
    && (forall i :: 0 <= i < |ids| - 1 ==> calls[ids[i]].phase.next.Some? && calls[ids[i + 1]].cursor == calls[ids[i]].phase.next)
    && calls[ids[|ids| - 1]].phase.next.None?
  }

  /** The delivered pages, one after another. */
  function Pages(calls: map<nat, Call>, ids: seq<nat>): seq<JsString>
    requires forall i :: 0 <= i < |ids| ==> ids[i] in calls && calls[ids[i]].phase.Done?
  {
    if ids == [] then [] else calls[ids[0]].phase.page + Pages(calls, ids[1..])
  }

  /** How many pages of a size hold `n` entries; an empty list takes one empty page. */
  function PageCount(n: nat, pageSize: nat): nat
    requires pageSize >= 1
  {
    if n <= pageSize then 1 else 1 + PageCount(n - pageSize, pageSize)
  }

  /** It is the ceiling of the quotient. */
  lemma {:induction false} PageCountIsCeiling(n: nat, pageSize: nat)
    requires pageSize >= 1 && n >= 1
    ensures (PageCount(n, pageSize) - 1) * pageSize < n <= PageCount(n, pageSize) * pageSize
  {
    if n > pageSize {
      PageCountIsCeiling(n - pageSize, pageSize);
    }
  }

  /** The next request of a walk sees the same view at the same revision, and starts where the page before it ended. */
  lemma Follows(issued: map<JsString, CursorState>, s: Settings, first: Call, second: Call)
    requires CallFits(issued, s, first) && CallFits(issued, s, second) && first.phase.Done? && second.phase.Done?
    requires first.phase.next.Some? && second.cursor == first.phase.next
    ensures second.view == first.view && second.revision == first.revision && second.collection == first.collection
    ensures second.phase.start == first.phase.start + s.pageSize < |first.view|
  {
    hide ReadCursor;
    hide Ordered;
  }

  lemma {:induction false} WalkFrom(w: World, s: Settings, ids: seq<nat>, view: seq<JsString>, revision: nat)
    requires Inv(w, s) && Sane(s) && ids != []
    requires forall i :: 0 <= i < |ids| ==> ids[i] in w.calls && w.calls[ids[i]].phase.Done?
    requires forall i :: 0 <= i < |ids| - 1 ==> w.calls[ids[i]].phase.next.Some? && w.calls[ids[i + 1]].cursor == w.calls[ids[i]].phase.next
    requires w.calls[ids[|ids| - 1]].phase.next.None?
    requires w.calls[ids[0]].view == view && w.calls[ids[0]].revision == revision
    ensures w.calls[ids[0]].phase.start <= |view|
    ensures Pages(w.calls, ids) == view[w.calls[ids[0]].phase.start..]
    ensures |ids| == PageCount(|view| - w.calls[ids[0]].phase.start, s.pageSize)
    ensures forall i :: 0 <= i < |ids| ==> w.calls[ids[i]].view == view && w.calls[ids[i]].revision == revision
    ensures forall i :: 0 <= i < |ids| ==> w.calls[ids[i]].collection == w.calls[ids[0]].collection
    decreases |ids|
  {
    hide Inv;
    hide Ordered;
    hide Names;
    var first := w.calls[ids[0]];
    InvCall(w, s, ids[0]);
    var start := first.phase.start;
    if |ids| == 1 {
      assert Pages(w.calls, ids) == first.phase.page + Pages(w.calls, []);
    } else {
      var rest := ids[1..];
      InvCall(w, s, ids[1]);
      Follows(w.issued, s, first, w.calls[ids[1]]);
      assert forall i :: 0 <= i < |rest| ==> rest[i] == ids[i + 1];
      WalkFrom(w, s, rest, view, revision);
      assert view[start..] == view[start..start + s.pageSize] + view[start + s.pageSize..];
    }
  }

  /** A walk that completes delivered the view of its first page, at one revision of one collection. */
  lemma WalkDelivers(actions: seq<Action>, s: Settings, ids: seq<nat>)
    requires Sane(s) && Run(START, actions, s).Some? && Walk(Run(START, actions, s).value.calls, ids)
    ensures var calls := Run(START, actions, s).value.calls;
            var view := calls[ids[0]].view;
            && Ordered(view)
            && Pages(calls, ids) == view
            && |ids| == PageCount(|view|, s.pageSize)
            && forall i :: 0 <= i < |ids| ==>
                 && calls[ids[i]].view == view && calls[ids[i]].revision == calls[ids[0]].revision
                 && calls[ids[i]].collection == calls[ids[0]].collection
  {
    StartInv(s);
    RunInv(START, actions, s);
    var w := Run(START, actions, s).value;
    hide Run;
    hide Inv;
    InvCall(w, s, ids[0]);
    var first := w.calls[ids[0]];
    WalkFrom(w, s, ids, first.view, first.revision);
    assert first.view[0..] == first.view;
    hide PageCount;
    hide Pages;
    hide Ordered;
  }

  // ----- where a request began -----

  /** A request's collection, cursor, view and revision are those of the moment it began. */
  predicate Began(call: Call, w: World, a: Action)
    requires a.Begin?
  {
    && call.collection == a.collection && call.cursor == a.cursor
    && call.view == Sort(Visible(w.registry.Get(a.collection), a.hidden))
    && call.revision == w.revisions.Get(a.collection)
  }

  lemma StepKeepsCall(w: World, a: Action, s: Settings, id: nat)
    requires s.capacity >= 1 && Step(w, a, s).Some? && id in w.calls
    ensures id in Step(w, a, s).value.calls
    ensures Step(w, a, s).value.calls[id] == w.calls[id].(phase := Step(w, a, s).value.calls[id].phase)
  {
    hide Resolved;
    hide MadeRoom;
    hide Inserted;
    hide Sort;
    hide Visible;
    hide Without;
  }

  /** The rest of a run changes no more than where a request stands. */
  lemma {:induction false} CallStays(w: World, actions: seq<Action>, s: Settings, id: nat)
    requires s.capacity >= 1 && Run(w, actions, s).Some? && id in w.calls
    ensures id in Run(w, actions, s).value.calls
    ensures Run(w, actions, s).value.calls[id] == w.calls[id].(phase := Run(w, actions, s).value.calls[id].phase)
    decreases |actions|
  {
    if actions != [] {
      StepKeepsCall(w, actions[0], s, id);
      hide Step;
      CallStays(Step(w, actions[0], s).value, actions[1..], s, id);
    }
  }

  lemma {:induction false} BeganAs(w: World, actions: seq<Action>, s: Settings, k: nat)
    requires s.capacity >= 1 && Run(w, actions, s).Some? && k < |actions| && actions[k].Begin?
    ensures Run(w, actions[..k], s).Some? && actions[k].id in Run(w, actions, s).value.calls
    ensures Began(Run(w, actions, s).value.calls[actions[k].id], Run(w, actions[..k], s).value, actions[k])
    decreases |actions|
  {
    var next := Step(w, actions[0], s).value;
    if k == 0 {
      CallStays(next, actions[1..], s, actions[0].id);
      assert actions[..0] == [];
    } else {
      BeganAs(next, actions[1..], s, k - 1);
      hide Step;
      hide Began;
      assert actions[..k][1..] == actions[1..][..k - 1];
    }
  }

  lemma BeginAdds(w: World, a: Action, s: Settings, id: nat)
    requires s.capacity >= 1 && Step(w, a, s).Some? && id !in w.calls && id in Step(w, a, s).value.calls
    ensures a.Begin? && a.id == id
  {
    hide Resolved;
    hide MadeRoom;
    hide Inserted;
    hide Sort;
    hide Visible;
    hide Without;
  }

  /** The step at which a request began. */
  lemma {:induction false} BeginOf(w: World, actions: seq<Action>, s: Settings, id: nat) returns (k: nat)
    requires s.capacity >= 1 && Run(w, actions, s).Some? && id !in w.calls && id in Run(w, actions, s).value.calls
    ensures k < |actions| && actions[k].Begin? && actions[k].id == id
    decreases |actions|
  {
    hide Step;
    var next := Step(w, actions[0], s).value;
    if id in next.calls {
      BeginAdds(w, actions[0], s, id);
      k := 0;
    } else {
      k := BeginOf(next, actions[1..], s, id);
      k := k + 1;
    }
  }

  // ----- announced changes -----

  /** How many changes of a collection a run announced. */
  function Bumps(actions: seq<Action>, c: Collection): nat {
    if actions == [] then 0 else (if actions[0] == Bump(c) then 1 else 0) + Bumps(actions[1..], c)
  }

  lemma StepCounts(w: World, a: Action, s: Settings, c: Collection)
    requires s.capacity >= 1 && Step(w, a, s).Some?
    ensures Step(w, a, s).value.revisions.Get(c) == w.revisions.Get(c) + if a == Bump(c) then 1 else 0
  {
    hide Resolved;
    hide MadeRoom;
    hide Inserted;
    hide Sort;
    hide Visible;
    hide Without;
  }

  /** The revision counts the announced changes. */
  lemma {:induction false} RevisionCounts(w: World, actions: seq<Action>, s: Settings, c: Collection)
    requires s.capacity >= 1 && Run(w, actions, s).Some?
    ensures Run(w, actions, s).value.revisions.Get(c) == w.revisions.Get(c) + Bumps(actions, c)
    decreases |actions|
  {
    if actions != [] {
      StepCounts(w, actions[0], s, c);
      hide Step;
      RevisionCounts(Step(w, actions[0], s).value, actions[1..], s, c);
    }
  }

  lemma {:induction false} BumpsConcat(a: seq<Action>, b: seq<Action>, c: Collection)
    ensures Bumps(a + b, c) == Bumps(a, c) + Bumps(b, c)
  {
    if a == [] {
      assert a + b == b;
    } else {
      assert (a + b)[1..] == a[1..] + b;
      BumpsConcat(a[1..], b, c);
    }
  }

  lemma {:induction false} NoBumps(actions: seq<Action>, c: Collection)
    requires Bumps(actions, c) == 0
    ensures Bump(c) !in actions
  {
    if actions != [] {
      NoBumps(actions[1..], c);
      Head(actions);
    }
  }

  // ----- what a walk saw -----

  /**
   Paging is exact. In every run, a walk that completes delivered what the client could see
   when its first page began, in code-unit order: nothing skipped, repeated or reordered, in
   as many pages as the view needs. `k` is the step at which that page began.
   */
  lemma WalkIsExact(actions: seq<Action>, s: Settings, ids: seq<nat>) returns (k: nat)
    requires Sane(s) && Run(START, actions, s).Some? && Walk(Run(START, actions, s).value.calls, ids)
    ensures k < |actions| && actions[k].Begin? && actions[k].id == ids[0] && Run(START, actions[..k], s).Some?
    ensures var calls := Run(START, actions, s).value.calls;
            var keys := Visible(Run(START, actions[..k], s).value.registry.Get(actions[k].collection), actions[k].hidden);
            && Ordered(Pages(calls, ids)) && multiset(Pages(calls, ids)) == multiset(keys)
            && |ids| == PageCount(|keys|, s.pageSize)
            && forall i :: 0 <= i < |ids| ==> calls[ids[i]].view == Pages(calls, ids) && calls[ids[i]].collection == actions[k].collection
  {
    WalkDelivers(actions, s, ids);
    hide Run;
    k := BeginOf(START, actions, s, ids[0]);
    BeganAs(START, actions, s, k);
    var keys := Visible(Run(START, actions[..k], s).value.registry.Get(actions[k].collection), actions[k].hidden);
    SortOrders(keys);
    hide *;
    assert |multiset(Sort(keys))| == |Sort(keys)| && |multiset(keys)| == |keys|;
  }

  /** No change of the collection was announced between the beginnings of any two requests of a completed walk. */
  lemma NothingAnnounced(actions: seq<Action>, s: Settings, ids: seq<nat>, j: nat, k: nat)
    requires Sane(s) && Run(START, actions, s).Some? && Walk(Run(START, actions, s).value.calls, ids)
    requires j <= k < |actions| && actions[j].Begin? && actions[j].id in ids && actions[k].Begin? && actions[k].id in ids
    ensures actions[k].collection == actions[j].collection && Bump(actions[j].collection) !in actions[j..k]
  {
    WalkDelivers(actions, s, ids);
    hide Run;
    BeganAs(START, actions, s, j);
    BeganAs(START, actions, s, k);
    var c := actions[j].collection;
    RevisionCounts(START, actions[..j], s, c);
    RevisionCounts(START, actions[..k], s, c);
    hide *;
    assert actions[..k] == actions[..j] + actions[j..k];
    BumpsConcat(actions[..j], actions[j..k], c);
    NoBumps(actions[j..k], c);
  }

  lemma StepPeak(w: World, a: Action, s: Settings)
    requires s.capacity >= 1 && Step(w, a, s).Some? && |w.pending| <= w.peak
    ensures var t := Step(w, a, s).value;
            |t.pending| <= t.peak && w.peak <= t.peak && (t.peak == w.peak || t.peak == |t.pending|)
  {
    if a.Complete? && a.ticket in w.pending { MapSizes(w.pending, a.ticket, w.pending[a.ticket]); }
    hide Resolved;
    hide MadeRoom;
    hide Inserted;
    hide Sort;
    hide Visible;
    hide Without;
  }

  /** `k` actions of a run have this many issues pending. */
  predicate PendingAt(w: World, actions: seq<Action>, s: Settings, k: nat, n: nat)
    requires s.capacity >= 1 && k <= |actions|
  {
    Run(w, actions[..k], s).Some? && |Run(w, actions[..k], s).value.pending| == n
  }

  lemma PrefixStep(w: World, actions: seq<Action>, s: Settings, k: nat)
    requires s.capacity >= 1 && 1 <= k <= |actions| && Step(w, actions[0], s).Some?
    ensures Run(w, actions[..k], s) == Run(Step(w, actions[0], s).value, actions[1..][..k - 1], s)
  {
    hide Step;
    assert actions[..k][1..] == actions[1..][..k - 1];
  }

  /** `peak` is the most issues that were ever between their evictions and their insertion at once: none were more, and some moment had as many. */
  lemma {:induction false} PeakIsMost(w: World, actions: seq<Action>, s: Settings)
    requires s.capacity >= 1 && Run(w, actions, s).Some? && |w.pending| <= w.peak
    ensures forall k: nat, n: nat :: k <= |actions| && PendingAt(w, actions, s, k, n) ==> n <= Run(w, actions, s).value.peak
    ensures w.peak <= Run(w, actions, s).value.peak
    ensures Run(w, actions, s).value.peak == w.peak || exists k: nat :: k <= |actions| && PendingAt(w, actions, s, k, Run(w, actions, s).value.peak)
    decreases |actions|
  {
    assert actions[..0] == [];
    if actions != [] {
      var next, rest, end := Step(w, actions[0], s).value, actions[1..], Run(w, actions, s).value;
      StepPeak(w, actions[0], s);
      PeakIsMost(next, rest, s);
      hide Step;
      forall k: nat, n: nat | k <= |actions| && PendingAt(w, actions, s, k, n) ensures n <= end.peak {
        if k > 0 {
          PrefixStep(w, actions, s, k);
          assert PendingAt(next, rest, s, k - 1, n);
        }
      }
      if end.peak != w.peak {
        if end.peak == next.peak {
          PrefixStep(w, actions, s, 1);
          assert rest[..0] == [];
          assert PendingAt(w, actions, s, 1, end.peak);
        } else {
          var k: nat :| k <= |rest| && PendingAt(next, rest, s, k, end.peak);
          PrefixStep(w, actions, s, k + 1);
          assert actions[1..][..k] == rest[..k];
          assert PendingAt(w, actions, s, k + 1, end.peak);
        }
      }
    }
  }

  /**
   The bound on stored cursors. Eviction and insertion are apart, so the service holds at
   most its capacity while issues do not overlap there, and one more for each further issue
   that ever did at the same time.
   */
  lemma CursorsBounded(actions: seq<Action>, s: Settings)
    requires Sane(s) && Run(START, actions, s).Some?
    ensures var w := Run(START, actions, s).value;
            |w.entries| < s.capacity + w.peak && (w.peak <= 1 ==> |w.entries| <= s.capacity)
  {
    StartInv(s);
    RunInv(START, actions, s);
  }

  /** A stored cursor that the request presents, that has not expired, and that was issued for its server, collection, revision and view. */
  predicate Honours(call: Call, s: Settings, e: Stored, now: int) {
    && Opaque(e.token) && call.cursor == Some(CursorText(s.service, e.token)) && now < e.expiresAt
    && e.state.owner == s.server && e.state.collection == call.collection && e.state.revision == call.revision && e.state.view == call.view
    && 0 < e.state.offset < |call.view|
  }

  lemma ResolvesExactly(entries: seq<Stored>, issued: map<JsString, CursorState>, s: Settings, call: Call, now: int)
    requires EntriesFit(entries, issued) && Opaque(s.service) && call.cursor.Some?
    ensures var state := Resolved(entries, s.service, call.cursor.value, now).0;
            && (forall e :: e in entries && Honours(call, s, e, now) ==> state == Some(e.state))
            && (state.Some? && Continues(call, state.value, s.server) ==> exists e :: e in entries && Honours(call, s, e, now) && e.state == state.value)
  {
    var cursor := call.cursor.value;
    PrunedKeeps(entries, now);
    hide Pruned;
    forall e | e in entries && Honours(call, s, e, now) ensures Resolved(entries, s.service, cursor, now).0 == Some(e.state) {
      ReadCursorExact(cursor, s.service, e.token);
      LookupReaches(Pruned(entries, now), e);
      LookupFinds(Pruned(entries, now), e.token);
      hide ReadCursor;
      hide Lookup;
    }
    var parts := ReadCursor(cursor);
    if parts.Some? && parts.value.0 == s.service && Lookup(Pruned(entries, now), parts.value.1).Some? {
      var token := parts.value.1;
      ReadCursorExact(cursor, s.service, token);
      LookupFinds(Pruned(entries, now), token);
      hide ReadCursor;
      hide Lookup;
      hide CursorText;
      hide Opaque;
    }
  }

  /** After any run, a cursor is honoured exactly when such an entry is stored, and takes the request to its offset; a request without one starts at 0. */
  lemma CursorHonoured(actions: seq<Action>, s: Settings, id: nat, now: int)
    requires Sane(s) && Run(START, actions, s).Some?
    requires id in Run(START, actions, s).value.calls && Run(START, actions, s).value.calls[id].phase.Begun?
    ensures var w := Run(START, actions, s).value;
            var call, t := w.calls[id], LocateStep(w, Locate(id, now), s);
            && t.Some? && id in t.value.calls
            && (call.cursor.None? ==> t.value.calls[id].phase == Located(0))
            && (call.cursor.Some? ==> forall offset ::
                  t.value.calls[id].phase == Located(offset) <==> exists e :: e in w.entries && Honours(call, s, e, now) && e.state.offset == offset)
            && (call.cursor.Some? ==> t.value.calls[id].phase.Located? || t.value.calls[id].phase.Failed?)
  {
    StartInv(s);
    RunInv(START, actions, s);
    var w := Run(START, actions, s).value;
    InvEntries(w, s);
    LocatesExactly(w, s, id, now);
    hide *;
  }

  lemma LocatesExactly(w: World, s: Settings, id: nat, now: int)
    requires EntriesFit(w.entries, w.issued) && Opaque(s.service) && id in w.calls && w.calls[id].phase.Begun?
    ensures var call, t := w.calls[id], LocateStep(w, Locate(id, now), s);
            && t.Some? && id in t.value.calls
            && (call.cursor.None? ==> t.value.calls[id].phase == Located(0))
            && (call.cursor.Some? ==> forall offset ::
                  t.value.calls[id].phase == Located(offset) <==> exists e :: e in w.entries && Honours(call, s, e, now) && e.state.offset == offset)
            && (call.cursor.Some? ==> t.value.calls[id].phase.Located? || t.value.calls[id].phase.Failed?)
  {
    var call := w.calls[id];
    if call.cursor.Some? { ResolvesExactly(w.entries, w.issued, s, call, now); }
    forall e | Honours(call, s, e, now) ensures Continues(call, e.state, s.server) {
    }
    hide Resolved;
    hide Honours;
    hide EntriesFit;
  }

  /** Two issues that overlap leave a service of capacity 1 with two cursors. */
  lemma OverlapExceeds(s: Settings, first: CursorState, second: CursorState, token: JsString, other: JsString)
    requires Sane(s) && s.capacity == 1 && first.owner != s.server && second.owner != s.server
    requires Opaque(token) && Opaque(other) && token != other
    ensures var actions := [Foreign(0, first, 0), Foreign(1, second, 0), Complete(Other(0), token), Complete(Other(1), other)];
            Run(START, actions, s).Some? && |Run(START, actions, s).value.entries| == 2
  {
    var a := [Foreign(0, first, 0), Foreign(1, second, 0), Complete(Other(0), token), Complete(Other(1), other)];
    hide Opaque;
    var w1 := Step(START, a[0], s).value;
    var w2 := Step(w1, a[1], s).value;
    assert w2.entries == [] && w2.pending == map[Other(0) := Issue(first, 0), Other(1) := Issue(second, 0)];
    var w3 := Step(w2, a[2], s).value;
    assert |w3.entries| == 1 && Other(1) in w3.pending && w3.issued == map[token := first];
    var w4 := Step(w3, a[3], s).value;
    hide Step;
    assert a[1..] == [a[1], a[2], a[3]] && a[1..][1..] == [a[2], a[3]] && [a[2], a[3]][1..] == [a[3]] && [a[3]][1..] == [];
    assert Run(w4, [], s) == Some(w4);
    assert Run(w3, [a[3]], s) == Some(w4);
    assert Run(w2, [a[2], a[3]], s) == Some(w4);
    assert Run(w1, a[1..], s) == Some(w4);
  }

  /** A request that began after a later revision refuses every older cursor, whatever the keys. */
  lemma StaleCursorFails(actions: seq<Action>, s: Settings, id: nat, cursor: JsString, state: CursorState)
    requires Sane(s) && Run(START, actions, s).Some?
    requires id in Run(START, actions, s).value.calls && Run(START, actions, s).value.calls[id].cursor == Some(cursor)
    requires Names(Run(START, actions, s).value.issued, s, cursor, state)
    requires state.revision != Run(START, actions, s).value.calls[id].revision
    ensures Run(START, actions, s).value.calls[id].phase in {Begun, Failed}
  {
    assert s.capacity >= 1;
    hide *;
    StartInv(s);
    RunInv(START, actions, s);
    var w := Run(START, actions, s).value;
    InvCall(w, s, id);
    StaleNeverStarts(w.issued, s, w.calls[id], cursor, state);
  }

  lemma StaleNeverStarts(issued: map<JsString, CursorState>, s: Settings, call: Call, cursor: JsString, state: CursorState)
    requires CallFits(issued, s, call) && call.cursor == Some(cursor) && Names(issued, s, cursor, state) && state.revision != call.revision
    ensures call.phase in {Begun, Failed}
  {
    hide ReadCursor;
    hide Ordered;
    hide Cut;
    hide Delivered;
  }

  lemma LocatedFits(issued: map<JsString, CursorState>, s: Settings, call: Call)
    requires CallFits(issued, s, call) && call.phase.Located?
    ensures call.phase.offset <= |call.view|
  {
    hide Ordered;
    hide Names;
  }

  /** Delivery of a located request: the entries from its offset on, at most a page of them. */
  lemma DeliverExact(w: World, s: Settings, id: nat, now: int)
    requires Sane(s) && id in w.calls && w.calls[id].phase.Located? && w.calls[id].phase.offset <= |w.calls[id].view|
    ensures var call, t := w.calls[id], DeliverStep(w, Deliver(id, now), s);
            var offset := call.phase.offset;
            && t.Some? && id in t.value.calls && t.value.issued == w.issued
            && if offset + s.pageSize >= |call.view| then t.value.calls == w.calls[id := call.(phase := Done(offset, call.view[offset..], None))]
               else
                 && t.value.calls == w.calls[id := call.(phase := Drawing(offset, call.view[offset..offset + s.pageSize]))]
                 && t.value.pending == w.pending[Page(id) := Issue(CursorState(s.server, call.collection, call.revision, offset + s.pageSize, call.view), now)]
                 && t.value.entries == MadeRoom(w.entries, s.capacity, now)
  {
    var call := w.calls[id];
    assert call.view[call.phase.offset..|call.view|] == call.view[call.phase.offset..];
    hide MadeRoom;
  }

  lemma CompleteExact(w: World, s: Settings, id: nat, token: JsString)
    requires id in w.calls && w.calls[id].phase.Drawing? && Page(id) in w.pending && FreshToken(w, token)
    ensures var call, t := w.calls[id], InsertStep(w, Complete(Page(id), token), s);
            && t.Some? && t.value.entries == Inserted(w.entries, s.lifetime, w.pending[Page(id)].state, w.pending[Page(id)].now, token)
            && t.value.calls == w.calls[id := call.(phase := Done(call.phase.start, call.phase.page, Some(CursorText(s.service, token))))]
  {
    hide Inserted;
    hide CursorText;
    hide Opaque;
  }

  /**
   After any run, a located request delivers the next page of its view; when entries
   remain behind it, its cursor is stored last with the position, the view and the revision of the rest.
   */
  lemma PageIsDelivered(actions: seq<Action>, s: Settings, id: nat, now: int, token: JsString)
    requires Sane(s) && Run(START, actions, s).Some?
    requires id in Run(START, actions, s).value.calls && Run(START, actions, s).value.calls[id].phase.Located?
    requires FreshToken(Run(START, actions, s).value, token)
    ensures var w := Run(START, actions, s).value;
            var call, t := w.calls[id], DeliverStep(w, Deliver(id, now), s);
            var offset, end := call.phase.offset, call.phase.offset + s.pageSize;
            && offset <= |call.view| && t.Some? && id in t.value.calls
            && if end >= |call.view| then t.value.calls[id].phase == Done(offset, call.view[offset..], None)
               else
                 var u := InsertStep(t.value, Complete(Page(id), token), s);
                 && u.Some? && id in u.value.calls && u.value.entries != []
                 && u.value.calls[id].phase == Done(offset, call.view[offset..end], Some(CursorText(s.service, token)))
                 && u.value.entries[|u.value.entries| - 1].token == token
                 && u.value.entries[|u.value.entries| - 1].state == CursorState(s.server, call.collection, call.revision, end, call.view)
  {
    var w := Run(START, actions, s).value;
    StartInv(s);
    RunInv(START, actions, s);
    hide Run;
    InvCall(w, s, id);
    hide Inv;
    LocatedFits(w.issued, s, w.calls[id]);
    hide CallFits;
    DeliverExact(w, s, id, now);
    var t := DeliverStep(w, Deliver(id, now), s).value;
    hide DeliverStep;
    if t.calls[id].phase.Drawing? {
      CompleteExact(t, s, id, token);
      hide InsertStep;
    }
    hide MadeRoom;
    hide CursorText;
    hide Opaque;
  }
}
