/**
 The epoch protocol of src/McpClient.ts that keeps the client cache consistent
 with change notifications. Requests read an epoch, are answered, check the epoch,
 store and check again; a notification first bumps epochs, then invalidates.
 All of these steps interleave freely.
 */
module CacheEpochs {
  import opened Common
  import opened CacheKeys
  import opened CanonicalJson

  /** The four change notifications; an update without a string URI bumps the epoch and invalidates nothing. */
  datatype Notice = ToolsChanged | PromptsChanged | ResourcesChanged | ResourceUpdated(uri: Option<JsString>)

  function Methods(n: Notice): seq<Method> {
    match n
    case ToolsChanged => [ToolsList, ServerDiscover]
    case PromptsChanged => [PromptsList, ServerDiscover]
    case ResourcesChanged => [ResourcesList, ResourceTemplatesList, ServerDiscover]
    case ResourceUpdated(_) => [ResourcesRead]
  }

  predicate Invalidates(n: Notice) {
    n.ResourceUpdated? ==> n.uri.Some?
  }

  function NoticeSelector(namespace: JsString, n: Notice): Selector {
    Selector(namespace, Some(Methods(n)), if n.ResourceUpdated? then n.uri else None)
  }

  function KeyUri(key: CacheKey): Option<JsString> {
    match Property(key.params, Ascii("uri"))
    case Some(Str(uri)) => Some(uri)
    case _ => None
  }

  /** `selectorForKey`. */
  function KeySelector(key: CacheKey): Selector {
    Selector(key.namespace, Some([key.method_]), if key.method_ == ResourcesRead then KeyUri(key) else None)
  }

  /** One number per cacheable method. */
  datatype Epochs = Epochs(discover: nat, tools: nat, resources: nat, templates: nat, read: nat, prompts: nat) {
    function Of(m: Method): nat {
      match m
      case ServerDiscover => discover
      case ToolsList => tools
      case ResourcesList => resources
      case ResourceTemplatesList => templates
      case ResourcesRead => read
      case PromptsList => prompts
    }

    function With(m: Method, n: nat): (r: Epochs)
      ensures r.Of(m) == n && forall k: Method :: k != m ==> r.Of(k) == Of(k)
    {
      match m
      case ServerDiscover => this.(discover := n)
      case ToolsList => this.(tools := n)
      case ResourcesList => this.(resources := n)
      case ResourceTemplatesList => this.(templates := n)
      case ResourcesRead => this.(read := n)
      case PromptsList => this.(prompts := n)
    }
  }

  const ZERO_EPOCHS: Epochs := Epochs(0, 0, 0, 0, 0, 0)

  /** Each listed method one epoch later. */
  function Bumped(epochs: Epochs, methods: seq<Method>): (r: Epochs)
    ensures forall m: Method :: r.Of(m) >= epochs.Of(m) && (r.Of(m) > epochs.Of(m) <==> m in methods)
    decreases |methods|
  {
    if methods == [] then epochs
    else
      var init, last := methods[..|methods| - 1], methods[|methods| - 1];
      assert methods == init + [last];
      var before := Bumped(epochs, init);
      before.With(last, before.Of(last) + 1)
  }

  /** Each listed method set to one time. */
  function Stamped(times: Epochs, methods: seq<Method>, time: nat): (r: Epochs)
    ensures forall m: Method :: r.Of(m) == if m in methods then time else times.Of(m)
  {
    if methods == [] then times else Stamped(times, methods[1..], time).With(methods[0], time)
  }

  /** The `cacheEpochs` Ref. */
  class EpochRef {
    var epochs: Epochs

    constructor ()
      ensures epochs == ZERO_EPOCHS
    {
      epochs := ZERO_EPOCHS;
    }

    /** `updateEpochs`: one atomic update that increments every method of the list. */
    method UpdateEpochs(methods: seq<Method>)
      modifies this
      ensures epochs == Bumped(old(epochs), methods)
    {
      var next := epochs;
      assert methods[..0] == [];
      for index := 0 to |methods|
        invariant epochs == old(epochs) && next == Bumped(epochs, methods[..index])
      {
        assert methods[..index + 1][..index] == methods[..index];
        next := next.With(methods[index], next.Of(methods[index]) + 1);
      }
      assert methods[..|methods|] == methods;
      epochs := next;
    }
  }

  // ----- the protocol -----

  /** How far a cacheable request has come since it read its start epoch. */
  datatype Stage = Sent | Checked | Stored | MustInvalidate | Done

  /** `begun` is the time the start epoch was read; the request goes out after that. */
  datatype Request = Request(key: CacheKey, startEpoch: nat, begun: nat, stage: Stage)

  /** A cached result and when the request that fetched it began. */
  datatype Entry = Entry(begun: nat)

  /** `changed[m]` and `updated[uri]` are the times of the last matching bump, 0 for never. */
  datatype State = State(
    namespace: JsString,
    epochs: Epochs,
    cache: map<CacheKey, Entry>,
    requests: seq<Request>,
    bumped: seq<Notice>,
    clock: nat,
    changed: Epochs,
    updated: map<JsString, nat>)

  datatype Action =
    | Begin(key: CacheKey)
    | CheckEpoch(r: nat, key: CacheKey)
    | Store(r: nat)
    | CheckAgain(r: nat)
    | InvalidateOwn(r: nat)
    | Bump(notice: Notice)
    | Invalidate(i: nat)
    | Forget(key: CacheKey)

  function Remove(cache: map<CacheKey, Entry>, selector: Selector): map<CacheKey, Entry> {
    map key | key in cache && !Matches(selector, key) :: cache[key]
  }

  function Put(s: State, r: nat, q: Request): State
    requires r < |s.requests|
  {
    s.(requests := s.requests[r := q])
  }

  function Touched(s: State, n: Notice): State {
    var time := s.clock;
    s.(epochs := Bumped(s.epochs, Methods(n)),
       changed := Stamped(s.changed, Methods(n), time),
       updated := if n.ResourceUpdated? && n.uri.Some? then s.updated[n.uri.value := time] else s.updated)
  }

  /** One step; the clock ticks at every step, a disabled step changes nothing else. */
  function Step(s: State, a: Action): State {
    Effect(s, a).(clock := s.clock + 1)
  }

  function Effect(s: State, a: Action): State {
    match a
    case Begin(key) =>
      if key.namespace != s.namespace then s
      else s.(requests := s.requests + [Request(key, s.epochs.Of(key.method_), s.clock, Sent)])
    case CheckEpoch(r, key) =>
      // the answer decides the scope of the key; method and parameters are the request's
      if r >= |s.requests| || s.requests[r].stage != Sent || key.namespace != s.namespace
         || key.method_ != s.requests[r].key.method_ || key.params != s.requests[r].key.params then s
      else
        var q := s.requests[r];
        Put(s, r, q.(key := key, stage := if s.epochs.Of(key.method_) == q.startEpoch then Checked else Done))
    case Store(r) =>
      if r >= |s.requests| || s.requests[r].stage != Checked then s
      else
        var q := s.requests[r];
        Put(s, r, q.(stage := Stored)).(cache := s.cache[q.key := Entry(q.begun)])
    case CheckAgain(r) =>
      if r >= |s.requests| || s.requests[r].stage != Stored then s
      else
        var q := s.requests[r];
        Put(s, r, q.(stage := if s.epochs.Of(q.key.method_) == q.startEpoch then Done else MustInvalidate))
    case InvalidateOwn(r) =>
      if r >= |s.requests| || s.requests[r].stage != MustInvalidate then s
      else
        var q := s.requests[r];
        Put(s, r, q.(stage := Done)).(cache := Remove(s.cache, KeySelector(q.key)))
    case Bump(n) => Touched(s, n).(bumped := if Invalidates(n) then s.bumped + [n] else s.bumped)
    case Invalidate(i) =>
      if i >= |s.bumped| then s
      else
        s.(bumped := s.bumped[..i] + s.bumped[i + 1..], cache := Remove(s.cache, NoticeSelector(s.namespace, s.bumped[i])))
    case Forget(key) => s.(cache := s.cache - {key})
  }

  function Initial(namespace: JsString): State {
    State(namespace, ZERO_EPOCHS, map[], [], [], 1, ZERO_EPOCHS, map[])
  }

  function Run(namespace: JsString, actions: seq<Action>, n: nat): State
    requires n <= |actions|
  {
    if n == 0 then Initial(namespace) else Step(Run(namespace, actions, n - 1), actions[n - 1])
  }

  // ----- consistency -----

  /** The time of the last notification that concerns a key. */
  function LastChange(s: State, key: CacheKey): nat {
    if key.method_ != ResourcesRead then s.changed.Of(key.method_)
    else
      match KeyUri(key)
      case None => 0
      case Some(uri) => if uri in s.updated then s.updated[uri] else 0
  }

  /** Fetched by a request begun before the latest notification that concerns its key. */
  predicate Stale(s: State, key: CacheKey, begun: nat) {
    begun <= LastChange(s, key)
  }

  /** No store is between `set` and the end of its second check, no notification between bump and invalidate. */
  predicate Quiescent(s: State) {
    s.bumped == [] && forall q :: q in s.requests ==> q.stage != Stored && q.stage != MustInvalidate
  }

  /** Somebody is on the way to invalidate this entry. */
  predicate Covered(s: State, key: CacheKey, begun: nat) {
    || (exists i :: 0 <= i < |s.bumped| && Matches(NoticeSelector(s.namespace, s.bumped[i]), key))
    || (exists r :: 0 <= r < |s.requests| && Covers(s.requests[r], key, begun))
  }

  predicate Covers(q: Request, key: CacheKey, begun: nat) {
    q.key == key && q.begun == begun && (q.stage == Stored || q.stage == MustInvalidate)
  }

  /** A request sees its start epoch again exactly when nothing that concerns its method was bumped since. */
  predicate RequestFits(s: State, q: Request) {
    && q.key.namespace == s.namespace && q.begun < s.clock
    && q.startEpoch <= s.epochs.Of(q.key.method_)
    && (q.startEpoch == s.epochs.Of(q.key.method_) <==> s.changed.Of(q.key.method_) < q.begun)
  }

  predicate Inv(s: State) {
    && (forall m: Method :: s.changed.Of(m) < s.clock)
    && (forall uri :: uri in s.updated ==> s.updated[uri] <= s.changed.Of(ResourcesRead))
    && (forall r :: 0 <= r < |s.requests| ==> RequestFits(s, s.requests[r]))
    && (forall key :: key in s.cache ==> key.namespace == s.namespace && s.cache[key].begun < s.clock)
    && (forall key {:trigger Covered(s, key, s.cache[key].begun)} {:trigger Stale(s, key, s.cache[key].begun)} ::
          key in s.cache && Stale(s, key, s.cache[key].begun) ==> Covered(s, key, s.cache[key].begun))
  }

  lemma CoveredStays(s: State, t: State, key: CacheKey, begun: nat, j: nat)
    requires Covered(s, key, begun) && t.namespace == s.namespace
    requires |t.requests| >= |s.requests|
    requires forall r :: 0 <= r < |s.requests| && Covers(s.requests[r], key, begun) ==> Covers(t.requests[r], key, begun)
    requires forall i :: 0 <= i < |s.bumped| && i != j ==> s.bumped[i] in t.bumped
    requires j < |s.bumped| ==> !Matches(NoticeSelector(s.namespace, s.bumped[j]), key)
    ensures Covered(t, key, begun)
  {
    if i :| 0 <= i < |s.bumped| && Matches(NoticeSelector(s.namespace, s.bumped[i]), key) {
      var k :| 0 <= k < |t.bumped| && t.bumped[k] == s.bumped[i];
    } else {
      var r :| 0 <= r < |s.requests| && Covers(s.requests[r], key, begun);
      assert Covers(t.requests[r], key, begun);
    }
  }

  /** A request that fits and whose entry is stale will find its epoch moved. */
  lemma StaleRequestSeesBump(s: State, q: Request)
    requires Inv(s) && RequestFits(s, q) && Stale(s, q.key, q.begun)
    ensures q.startEpoch != s.epochs.Of(q.key.method_)
  {
    assert LastChange(s, q.key) <= s.changed.Of(q.key.method_);
  }

  /** An entry is removed by the selector of its own key. */
  lemma KeySelectorMatches(key: CacheKey)
    ensures Matches(KeySelector(key), key)
  {
  }

  /** A bump that makes an entry stale is the notice that will invalidate it. */
  lemma BumpCovers(s: State, n: Notice, key: CacheKey, begun: nat)
    requires Inv(s) && key.namespace == s.namespace && begun < s.clock
    requires Stale(Touched(s, n), key, begun) && !Stale(s, key, begun)
    ensures Invalidates(n) && Matches(NoticeSelector(s.namespace, n), key)
  {
  }

  lemma RequestStaysFit(s: State, n: Notice, q: Request)
    requires RequestFits(s, q)
    ensures RequestFits(Touched(s, n).(clock := s.clock + 1), q)
  {
  }

  lemma BumpInv(s: State, n: Notice)
    requires Inv(s)
    ensures Inv(Step(s, Bump(n)))
  {
    var t := Step(s, Bump(n));
    forall r | 0 <= r < |t.requests| ensures RequestFits(t, t.requests[r]) {
      RequestStaysFit(s, n, s.requests[r]);
    }
    forall key | key in t.cache && Stale(t, key, t.cache[key].begun) ensures Covered(t, key, t.cache[key].begun) {
      var begun := t.cache[key].begun;
      if Stale(s, key, begun) {
        CoveredStays(s, t, key, begun, |s.bumped|);
      } else {
        BumpCovers(s, n, key, begun);
        assert t.bumped[|s.bumped|] == n;
      }
    }
  }

  /** Steps that bump nothing: entries that stay are as stale as before, requests that stay fit as before. */
  predicate Unbumped(s: State, t: State) {
    && t.epochs == s.epochs && t.changed == s.changed && t.updated == s.updated && t.namespace == s.namespace
    && t.clock == s.clock + 1
  }

  lemma UnbumpedInv(s: State, t: State)
    requires Inv(s) && Unbumped(s, t)
    requires forall r :: 0 <= r < |t.requests| ==> RequestFits(t, t.requests[r])
    requires forall key :: key in t.cache ==> key.namespace == s.namespace && t.cache[key].begun < t.clock
    requires forall key :: key in t.cache && Stale(s, key, t.cache[key].begun) ==> Covered(t, key, t.cache[key].begun)
    ensures Inv(t)
  {
  }

  lemma BeginInv(s: State, key: CacheKey)
    requires Inv(s)
    ensures Inv(Step(s, Begin(key)))
  {
    var t := Step(s, Begin(key));
    hide Stale;
    forall k | k in t.cache && Stale(s, k, t.cache[k].begun) ensures Covered(t, k, t.cache[k].begun) {
      CoveredStays(s, t, k, s.cache[k].begun, |s.bumped|);
    }
    UnbumpedInv(s, t);
  }

  lemma CheckEpochInv(s: State, r: nat, key: CacheKey)
    requires Inv(s)
    ensures Inv(Step(s, CheckEpoch(r, key)))
  {
    var t := Step(s, CheckEpoch(r, key));
    hide Stale;
    forall k | k in t.cache && Stale(s, k, t.cache[k].begun) ensures Covered(t, k, t.cache[k].begun) {
      CoveredStays(s, t, k, s.cache[k].begun, |s.bumped|);
    }
    UnbumpedInv(s, t);
  }

  lemma StoreInv(s: State, r: nat)
    requires Inv(s)
    ensures Inv(Step(s, Store(r)))
  {
    var t := Step(s, Store(r));
    hide Stale;
    forall k | k in t.cache && Stale(s, k, t.cache[k].begun) ensures Covered(t, k, t.cache[k].begun) {
      if r < |s.requests| && s.requests[r].stage == Checked && k == s.requests[r].key {
        assert Covers(t.requests[r], k, t.cache[k].begun);
      } else {
        CoveredStays(s, t, k, s.cache[k].begun, |s.bumped|);
      }
    }
    UnbumpedInv(s, t);
  }

  lemma CheckAgainInv(s: State, r: nat)
    requires Inv(s)
    ensures Inv(Step(s, CheckAgain(r)))
  {
    var t := Step(s, CheckAgain(r));
    forall k | k in t.cache && Stale(s, k, t.cache[k].begun) ensures Covered(t, k, t.cache[k].begun) {
      if r < |s.requests| && Covers(s.requests[r], k, s.cache[k].begun) {
        StaleRequestSeesBump(s, s.requests[r]);
      }
      hide Stale;
      CoveredStays(s, t, k, s.cache[k].begun, |s.bumped|);
    }
    hide Stale;
    UnbumpedInv(s, t);
  }

  lemma InvalidateOwnInv(s: State, r: nat)
    requires Inv(s)
    ensures Inv(Step(s, InvalidateOwn(r)))
  {
    var t := Step(s, InvalidateOwn(r));
    hide Stale;
    forall k | k in t.cache && Stale(s, k, t.cache[k].begun) ensures Covered(t, k, t.cache[k].begun) {
      if r < |s.requests| && s.requests[r].stage == MustInvalidate {
        KeySelectorMatches(s.requests[r].key);
      }
      CoveredStays(s, t, k, s.cache[k].begun, |s.bumped|);
    }
    UnbumpedInv(s, t);
  }

  lemma InvalidateInv(s: State, i: nat)
    requires Inv(s)
    ensures Inv(Step(s, Invalidate(i)))
  {
    var t := Step(s, Invalidate(i));
    hide Stale;
    hide Matches;
    forall j | 0 <= j < |s.bumped| && j != i ensures s.bumped[j] in t.bumped {
      assert i < |s.bumped| ==> t.bumped[if j < i then j else j - 1] == s.bumped[j];
    }
    forall k | k in t.cache && Stale(s, k, t.cache[k].begun) ensures Covered(t, k, t.cache[k].begun) {
      CoveredStays(s, t, k, s.cache[k].begun, i);
    }
    UnbumpedInv(s, t);
  }

  lemma ForgetInv(s: State, key: CacheKey)
    requires Inv(s)
    ensures Inv(Step(s, Forget(key)))
  {
    var t := Step(s, Forget(key));
    hide Stale;
    forall k | k in t.cache && Stale(s, k, t.cache[k].begun) ensures Covered(t, k, t.cache[k].begun) {
      CoveredStays(s, t, k, s.cache[k].begun, |s.bumped|);
    }
    UnbumpedInv(s, t);
  }

  lemma StepInv(s: State, a: Action)
    requires Inv(s)
    ensures Inv(Step(s, a))
  {
    hide Inv;
    hide Step;
    match a
    case Begin(key) => BeginInv(s, key);
    case CheckEpoch(r, key) => CheckEpochInv(s, r, key);
    case Store(r) => StoreInv(s, r);
    case CheckAgain(r) => CheckAgainInv(s, r);
    case InvalidateOwn(r) => InvalidateOwnInv(s, r);
    case Bump(n) => BumpInv(s, n);
    case Invalidate(i) => InvalidateInv(s, i);
    case Forget(key) => ForgetInv(s, key);
  }

  lemma InitialInv(namespace: JsString)
    ensures Inv(Initial(namespace))
  {
  }

  lemma {:induction false} RunInv(namespace: JsString, actions: seq<Action>, n: nat)
    requires n <= |actions|
    ensures Inv(Run(namespace, actions, n))
  {
    hide Inv;
    hide Step;
    hide Initial;
    if n == 0 {
      InitialInv(namespace);
    } else {
      RunInv(namespace, actions, n - 1);
      StepInv(Run(namespace, actions, n - 1), actions[n - 1]);
    }
  }

  // ----- what a notification concerns, and when -----

  /** The results a notification says have changed: the list it names, whatever discovery advertises of it, or the resource itself. */
  predicate Concerns(n: Notice, key: CacheKey) {
    match n
    case ToolsChanged => key.method_ == ToolsList || key.method_ == ServerDiscover
    case PromptsChanged => key.method_ == PromptsList || key.method_ == ServerDiscover
    case ResourcesChanged => key.method_ == ResourcesList || key.method_ == ResourceTemplatesList || key.method_ == ServerDiscover
    case ResourceUpdated(uri) =>
      key.method_ == ResourcesRead && uri.Some? && Property(key.params, Ascii("uri")) == Some(Str(uri.value))
  }

  /** The invalidation of a notification removes exactly the entries it concerns. */
  lemma InvalidationIsExact(s: State, i: nat)
    requires i < |s.bumped| && Invalidates(s.bumped[i])
    ensures forall key :: key in Step(s, Invalidate(i)).cache <==> key in s.cache && !(key.namespace == s.namespace && Concerns(s.bumped[i], key))
    ensures forall key :: key in Step(s, Invalidate(i)).cache ==> Step(s, Invalidate(i)).cache[key] == s.cache[key]
  {
    forall key: CacheKey ensures Matches(NoticeSelector(s.namespace, s.bumped[i]), key) <==> key.namespace == s.namespace && Concerns(s.bumped[i], key) {
    }
    hide Matches;
    hide Concerns;
    hide NoticeSelector;
  }

  lemma StepBumped(s: State, a: Action, n: Notice)
    requires n in Step(s, a).bumped
    ensures n in s.bumped || Invalidates(n)
  {
    TouchedKeeps(s, a);
    hide Touched;
    hide Remove;
  }

  /** Only notifications that can be invalidated wait for it. */
  lemma {:induction false} BumpedInvalidate(namespace: JsString, actions: seq<Action>, n: nat, notice: Notice)
    requires n <= |actions| && notice in Run(namespace, actions, n).bumped
    ensures Invalidates(notice)
  {
    hide Step;
    hide Invalidates;
    if n > 0 {
      StepBumped(Run(namespace, actions, n - 1), actions[n - 1], notice);
      if notice in Run(namespace, actions, n - 1).bumped { BumpedInvalidate(namespace, actions, n - 1, notice); }
    }
  }

  lemma TouchedKeeps(s: State, a: Action)
    ensures a.Bump? ==> Touched(s, a.notice).bumped == s.bumped
  {
    hide Bumped;
    hide Stamped;
  }

  predicate Announces(a: Action, key: CacheKey) {
    a.Bump? && Concerns(a.notice, key)
  }

  /** One more than the position of the last action that announces a change of the key, 0 for none. */
  function LastAnnounced(actions: seq<Action>, n: nat, key: CacheKey): (last: nat)
    requires n <= |actions|
    ensures last <= n && (last > 0 ==> Announces(actions[last - 1], key))
    ensures forall j :: last <= j < n ==> !Announces(actions[j], key)
  {
    if n == 0 then 0 else if Announces(actions[n - 1], key) then n else LastAnnounced(actions, n - 1, key)
  }

  lemma EffectClock(s: State, a: Action)
    ensures Effect(s, a).clock == s.clock
  {
    hide Bumped;
    hide Stamped;
    hide Remove;
  }

  lemma BumpChanges(s: State, n: Notice, key: CacheKey)
    ensures LastChange(Touched(s, n), key) == if Concerns(n, key) then s.clock else LastChange(s, key)
  {
    hide Bumped;
  }

  lemma OthersChangeNothing(s: State, a: Action, key: CacheKey)
    requires !a.Bump?
    ensures LastChange(Step(s, a), key) == LastChange(s, key)
  {
    hide Remove;
  }

  /** One tick per action. */
  lemma {:induction false} RunClock(namespace: JsString, actions: seq<Action>, n: nat)
    requires n <= |actions|
    ensures Run(namespace, actions, n).clock == n + 1
  {
    hide Effect;
    if n > 0 {
      RunClock(namespace, actions, n - 1);
      EffectClock(Run(namespace, actions, n - 1), actions[n - 1]);
    }
  }

  /** The recorded change times are those of the announcements of the run. */
  lemma {:induction false} LastChangeIsLast(namespace: JsString, actions: seq<Action>, n: nat, key: CacheKey)
    requires n <= |actions|
    ensures LastChange(Run(namespace, actions, n), key) == LastAnnounced(actions, n, key)
  {
    hide Effect;
    hide Touched;
    hide Concerns;
    if n > 0 {
      LastChangeIsLast(namespace, actions, n - 1, key);
      RunClock(namespace, actions, n - 1);
      var s, a := Run(namespace, actions, n - 1), actions[n - 1];
      if a.Bump? {
        BumpStep(s, a.notice, key);
        BumpChanges(s, a.notice, key);
      } else {
        OthersChangeNothing(s, a, key);
      }
    } else {
      NothingChanged(namespace, key);
    }
    hide LastChange;
  }

  lemma BumpStep(s: State, n: Notice, key: CacheKey)
    ensures LastChange(Step(s, Bump(n)), key) == LastChange(Touched(s, n), key)
  {
    hide Touched;
  }

  lemma NothingChanged(namespace: JsString, key: CacheKey)
    ensures LastChange(Initial(namespace), key) == 0
  {
  }

  /** A request for the key was begun by this action. */
  predicate BegunBy(actions: seq<Action>, n: nat, key: CacheKey, begun: nat)
    requires n <= |actions|
  {
    1 <= begun <= n && actions[begun - 1].Begin? && actions[begun - 1].key.method_ == key.method_ && actions[begun - 1].key.params == key.params
  }

  predicate AllBegun(actions: seq<Action>, n: nat, s: State)
    requires n <= |actions|
  {
    && (forall r :: 0 <= r < |s.requests| ==> BegunBy(actions, n, s.requests[r].key, s.requests[r].begun))
    && (forall key :: key in s.cache ==> BegunBy(actions, n, key, s.cache[key].begun))
  }

  /** A step leaves every request what it asks for and when it began, and adds at most the one it begins. */
  lemma StepRequests(s: State, a: Action, r: nat)
    requires r < |Step(s, a).requests|
    ensures var q := Step(s, a).requests[r];
            if r < |s.requests| then q.begun == s.requests[r].begun && q.key.method_ == s.requests[r].key.method_ && q.key.params == s.requests[r].key.params
            else a.Begin? && q.begun == s.clock && q.key == a.key
  {
    hide Bumped;
    hide Stamped;
    hide Remove;
  }

  /** A step leaves every entry as it is, and adds at most one with a request's key and beginning. */
  lemma StepCache(s: State, a: Action, key: CacheKey)
    requires key in Step(s, a).cache
    ensures var entry := Step(s, a).cache[key];
            || (key in s.cache && entry == s.cache[key])
            || (a.Store? && a.r < |s.requests| && s.requests[a.r].key == key && s.requests[a.r].begun == entry.begun)
  {
    hide Bumped;
    hide Stamped;
    hide Matches;
  }

  lemma BegunStays(actions: seq<Action>, n: nat, key: CacheKey, begun: nat)
    requires n < |actions| && BegunBy(actions, n, key, begun)
    ensures BegunBy(actions, n + 1, key, begun)
  {
  }

  lemma BegunStep(actions: seq<Action>, n: nat, s: State)
    requires n < |actions| && AllBegun(actions, n, s) && s.clock == n + 1
    ensures AllBegun(actions, n + 1, Step(s, actions[n]))
  {
    hide Step;
    var t := Step(s, actions[n]);
    forall r | 0 <= r < |t.requests| ensures BegunBy(actions, n + 1, t.requests[r].key, t.requests[r].begun) {
      StepRequests(s, actions[n], r);
    }
    forall key | key in t.cache ensures BegunBy(actions, n + 1, key, t.cache[key].begun) {
      StepCache(s, actions[n], key);
      if key in s.cache && t.cache[key] == s.cache[key] { BegunStays(actions, n, key, t.cache[key].begun); }
      else { BegunStays(actions, n, s.requests[actions[n].r].key, t.cache[key].begun); }
    }
  }

  lemma NothingBegun(namespace: JsString, actions: seq<Action>)
    ensures AllBegun(actions, 0, Run(namespace, actions, 0))
  {
  }

  /** Every request and every cached result goes back to the action that began it. */
  lemma {:induction false} RunBegun(namespace: JsString, actions: seq<Action>, n: nat)
    requires n <= |actions|
    ensures AllBegun(actions, n, Run(namespace, actions, n))
  {
    hide *;
    if n == 0 {
      NothingBegun(namespace, actions);
    } else {
      RunBegun(namespace, actions, n - 1);
      RunClock(namespace, actions, n - 1);
      RunStep(namespace, actions, n - 1);
      BegunStep(actions, n - 1, Run(namespace, actions, n - 1));
    }
  }

  lemma QuietIsFresh(s: State, key: CacheKey)
    requires Inv(s) && Quiescent(s) && key in s.cache
    ensures !Stale(s, key, s.cache[key].begun)
  {
    hide Stale;
    forall r | 0 <= r < |s.requests| ensures !Covers(s.requests[r], key, s.cache[key].begun) {
      assert s.requests[r] in s.requests;
    }
    hide RequestFits;
    hide Covers;
  }

  lemma BegunSince(actions: seq<Action>, n: nat, s: State, key: CacheKey) returns (i: nat)
    requires n <= |actions| && key in s.cache && AllBegun(actions, n, s) && !Stale(s, key, s.cache[key].begun)
    requires LastChange(s, key) == LastAnnounced(actions, n, key)
    ensures i < n && actions[i].Begin? && actions[i].key.method_ == key.method_ && actions[i].key.params == key.params
    ensures i + 1 == s.cache[key].begun
    ensures forall j :: i <= j < n ==> !Announces(actions[j], key)
  {
    hide LastChange;
    hide Announces;
    assert BegunBy(actions, n, key, s.cache[key].begun);
    i := s.cache[key].begun - 1;
  }

  /**
   In every interleaving of requests and notifications, what a quiescent cache holds was
   asked for after the last change announced of it: `i` is the action that began the
   request, and no action from there on announces a change that concerns the key.
   */
  lemma QuiescentCacheIsFresh(namespace: JsString, actions: seq<Action>, n: nat, key: CacheKey) returns (i: nat)
    requires n <= |actions| && Quiescent(Run(namespace, actions, n)) && key in Run(namespace, actions, n).cache
    ensures !Stale(Run(namespace, actions, n), key, Run(namespace, actions, n).cache[key].begun)
    ensures i < n && actions[i].Begin? && actions[i].key.method_ == key.method_ && actions[i].key.params == key.params
    ensures i + 1 == Run(namespace, actions, n).cache[key].begun
    ensures forall j :: i <= j < n ==> !Announces(actions[j], key)
  {
    hide *;
    RunInv(namespace, actions, n);
    LastChangeIsLast(namespace, actions, n, key);
    RunBegun(namespace, actions, n);
    var s := Run(namespace, actions, n);
    QuietIsFresh(s, key);
    i := BegunSince(actions, n, s, key);
  }

  /** The steps of the protocol that end in an invalidation. */
  predicate Invalidation(a: Action) {
    a.Invalidate? || a.CheckAgain? || a.InvalidateOwn?
  }

  /** Two steps already on their way remove the entry. */
  predicate Removes(s: State, a: Action, b: Action, key: CacheKey) {
    Invalidation(a) && Invalidation(b) && key !in Step(Step(s, a), b).cache
  }

  /**
   Outside quiescence staleness is still always on its way out: if a change that concerns
   a cached result was announced after its request began, somebody is about to invalidate
   it, and at most two of the protocol's own steps do.
   */
  lemma StaleEntryIsCovered(namespace: JsString, actions: seq<Action>, n: nat, key: CacheKey, j: nat)
    requires n <= |actions| && key in Run(namespace, actions, n).cache
    requires Run(namespace, actions, n).cache[key].begun <= j + 1 <= n && Announces(actions[j], key)
    ensures Stale(Run(namespace, actions, n), key, Run(namespace, actions, n).cache[key].begun)
    ensures Covered(Run(namespace, actions, n), key, Run(namespace, actions, n).cache[key].begun)
    ensures exists a, b :: Removes(Run(namespace, actions, n), a, b, key)
  {
    RunInv(namespace, actions, n);
    LastChangeIsLast(namespace, actions, n, key);
    var s := Run(namespace, actions, n);
    hide Run;
    hide LastChange;
    hide Announces;
    assert Covered(s, key, s.cache[key].begun);
    CoverRemoves(s, key);
  }

  lemma CoverRemoves(s: State, key: CacheKey)
    requires Inv(s) && key in s.cache && Stale(s, key, s.cache[key].begun)
    ensures exists a, b :: Removes(s, a, b, key)
  {
    var begun := s.cache[key].begun;
    assert Covered(s, key, begun);
    if i :| 0 <= i < |s.bumped| && Matches(NoticeSelector(s.namespace, s.bumped[i]), key) {
      var nothing := CheckAgain(|s.requests|);
      assert Removes(s, Invalidate(i), nothing, key) by { hide Matches; hide Inv; }
    } else {
      var r :| 0 <= r < |s.requests| && Covers(s.requests[r], key, begun);
      RequestRemoves(s, key, r);
      assert Removes(s, CheckAgain(r), InvalidateOwn(r), key);
    }
  }

  lemma RequestRemoves(s: State, key: CacheKey, r: nat)
    requires Inv(s) && key in s.cache && Stale(s, key, s.cache[key].begun)
    requires r < |s.requests| && Covers(s.requests[r], key, s.cache[key].begun)
    ensures Removes(s, CheckAgain(r), InvalidateOwn(r), key)
  {
    StaleRequestSeesBump(s, s.requests[r]);
    KeySelectorMatches(key);
    hide Matches;
    hide Stale;
    hide Inv;
  }

  /** What `readCacheKey` accepts: the entry is there and the method's epoch is the request's start epoch. */
  predicate Hits(s: State, key: CacheKey, startEpoch: nat) {
    key in s.cache && s.epochs.Of(key.method_) == startEpoch
  }

  lemma RunStep(namespace: JsString, actions: seq<Action>, n: nat)
    requires n < |actions|
    ensures Run(namespace, actions, n + 1) == Step(Run(namespace, actions, n), actions[n])
  {
  }

  ghost function StoreWindow(key: CacheKey): seq<Action> {
    [Begin(key), CheckEpoch(0, key), Bump(ToolsChanged), Invalidate(0), Store(0), Begin(key)]
  }

  /** Between a stale store and its second check, a request begun after the notification finds the stale entry and accepts it. */
  lemma StoreWindowCanHit(key: CacheKey)
    requires key.method_ == ToolsList
    ensures var s := Run(key.namespace, StoreWindow(key), 6);
            && s.bumped == [] && !Quiescent(s)
            && |s.requests| == 2 && Hits(s, key, s.requests[1].startEpoch)
            && s.changed.Of(ToolsList) < s.requests[1].begun
            && Stale(s, key, s.cache[key].begun)
  {
    var ns, actions := key.namespace, StoreWindow(key);
    var q := Request(key, 0, 1, Sent);
    StoreWindowMidway(key);
    hide Run;
    RunStep(ns, actions, 4);
    RunStep(ns, actions, 5);
    var s := Run(ns, actions, 6);
    assert s.cache == map[key := Entry(1)];
    assert s.requests == [q.(stage := Stored), Request(key, 1, 6, Sent)];
    assert s.requests[0] in s.requests;
  }

  /** The notification has come and gone between the first request's check and its store. */
  lemma StoreWindowMidway(key: CacheKey)
    requires key.method_ == ToolsList
    ensures var stamped := Stamped(ZERO_EPOCHS, Methods(ToolsChanged), 3);
            Run(key.namespace, StoreWindow(key), 4) ==
            State(key.namespace, ZERO_EPOCHS.(discover := 1, tools := 1), map[],
                  [Request(key, 0, 1, Checked)], [], 5, stamped, map[])
  {
    var ns, actions := key.namespace, StoreWindow(key);
    var q := Request(key, 0, 1, Sent);
    BumpTools();
    assert Run(ns, actions, 0) == Initial(ns);
    hide Run;
    hide Bumped;
    hide Stamped;
    RunStep(ns, actions, 0);
    assert Run(ns, actions, 1) == State(ns, ZERO_EPOCHS, map[], [q], [], 2, ZERO_EPOCHS, map[]);
    RunStep(ns, actions, 1);
    RunStep(ns, actions, 2);
    RunStep(ns, actions, 3);
    assert Remove(map[], NoticeSelector(ns, ToolsChanged)) == map[];
  }

  ghost function BumpWindow(key: CacheKey): seq<Action> {
    [Begin(key), CheckEpoch(0, key), Store(0), CheckAgain(0), Bump(ToolsChanged), Begin(key)]
  }

  /** Between a bump and its invalidation, with no store under way, a request begun after the bump finds the stale entry and accepts it. */
  lemma BumpWindowCanHit(key: CacheKey)
    requires key.method_ == ToolsList
    ensures var s := Run(key.namespace, BumpWindow(key), 6);
            && s.bumped == [ToolsChanged]
            && |s.requests| == 2 && s.requests[0].stage == Done && s.requests[1].stage == Sent
            && Hits(s, key, s.requests[1].startEpoch)
            && s.changed.Of(ToolsList) < s.requests[1].begun
            && Stale(s, key, s.cache[key].begun)
  {
    var ns, actions := key.namespace, BumpWindow(key);
    var q := Request(key, 0, 1, Sent);
    BumpTools();
    assert Run(ns, actions, 0) == Initial(ns);
    hide Run;
    RunStep(ns, actions, 0);
    RunStep(ns, actions, 1);
    RunStep(ns, actions, 2);
    RunStep(ns, actions, 3);
    assert Run(ns, actions, 4) == State(ns, ZERO_EPOCHS, map[key := Entry(1)], [q.(stage := Done)], [], 5, ZERO_EPOCHS, map[]);
    RunStep(ns, actions, 4);
    RunStep(ns, actions, 5);
    var s := Run(ns, actions, 6);
    assert s.cache == map[key := Entry(1)];
    assert s.requests == [q.(stage := Done), Request(key, 1, 6, Sent)];
  }

  lemma BumpTools()
    ensures Bumped(ZERO_EPOCHS, Methods(ToolsChanged)) == ZERO_EPOCHS.(discover := 1, tools := 1)
  {
    assert [ToolsList, ServerDiscover][..1] == [ToolsList];
    assert [ToolsList][..0] == [];
  }

  // ----- which answers are kept -----

  /** The notification advances the epoch of every method it may have changed, an update of any resource that of reads. */
  predicate Advances(a: Action, m: Method) {
    a.Bump? &&
    match a.notice
    case ToolsChanged => m == ToolsList || m == ServerDiscover
    case PromptsChanged => m == PromptsList || m == ServerDiscover
    case ResourcesChanged => m == ResourcesList || m == ResourceTemplatesList || m == ServerDiscover
    case ResourceUpdated(_) => m == ResourcesRead
  }

  /** No notification that advances the method since the request began. */
  predicate Undisturbed(actions: seq<Action>, begun: nat, n: nat, m: Method)
    requires n <= |actions|
  {
    forall j: nat :: begun <= j + 1 && j < n ==> !Advances(actions[j], m)
  }

  lemma ChangedByStep(s: State, a: Action, m: Method)
    ensures Step(s, a).changed.Of(m) == if Advances(a, m) then s.clock else s.changed.Of(m)
  {
    hide Bumped;
    hide Remove;
  }

  lemma {:induction false} ChangedExact(namespace: JsString, actions: seq<Action>, n: nat, m: Method, begun: nat)
    requires n <= |actions| && 1 <= begun
    ensures Run(namespace, actions, n).changed.Of(m) < begun <==> Undisturbed(actions, begun, n, m)
  {
    hide Step;
    hide Advances;
    if n > 0 {
      ChangedExact(namespace, actions, n - 1, m, begun);
      RunClock(namespace, actions, n - 1);
      ChangedByStep(Run(namespace, actions, n - 1), actions[n - 1], m);
    }
  }

  lemma EpochTells(namespace: JsString, actions: seq<Action>, n: nat, r: nat)
    requires n <= |actions| && r < |Run(namespace, actions, n).requests|
    ensures var s := Run(namespace, actions, n);
            var q := s.requests[r];
            q.startEpoch == s.epochs.Of(q.key.method_) <==> Undisturbed(actions, q.begun, n, q.key.method_)
  {
    RunInv(namespace, actions, n);
    RunBegun(namespace, actions, n);
    var s := Run(namespace, actions, n);
    assert RequestFits(s, s.requests[r]);
    ChangedExact(namespace, actions, n, s.requests[r].key.method_, s.requests[r].begun);
  }

  lemma CheckedIsStored(s: State, r: nat, key: CacheKey)
    requires r < |s.requests| && s.requests[r].stage == Sent && key.namespace == s.namespace
    requires key.method_ == s.requests[r].key.method_ && key.params == s.requests[r].key.params
    ensures Step(Step(s, CheckEpoch(r, key)), Store(r)).cache ==
            if s.requests[r].startEpoch == s.epochs.Of(key.method_) then s.cache[key := Entry(s.requests[r].begun)] else s.cache
  {
  }

  /** After any run, an answer that arrives is cached exactly when no notification advanced its method since its request began. */
  lemma AnswerIsStored(namespace: JsString, actions: seq<Action>, n: nat, r: nat, key: CacheKey)
    requires n <= |actions| && r < |Run(namespace, actions, n).requests| && Run(namespace, actions, n).requests[r].stage == Sent
    requires var q := Run(namespace, actions, n).requests[r];
             key.namespace == Run(namespace, actions, n).namespace && key.method_ == q.key.method_ && key.params == q.key.params
    ensures var s := Run(namespace, actions, n);
            var begun := s.requests[r].begun;
            Step(Step(s, CheckEpoch(r, key)), Store(r)).cache ==
            if Undisturbed(actions, begun, n, key.method_) then s.cache[key := Entry(begun)] else s.cache
  {
    hide *;
    EpochTells(namespace, actions, n, r);
    CheckedIsStored(Run(namespace, actions, n), r, key);
  }

  /** The same namespace and method, and for a read of a resource with a URI the same URI. */
  ghost predicate SameSubject(a: CacheKey, b: CacheKey) {
    && a.namespace == b.namespace && a.method_ == b.method_
    && (b.method_ == ResourcesRead ==>
          forall uri :: Property(b.params, Ascii("uri")) == Some(Str(uri)) ==> Property(a.params, Ascii("uri")) == Some(Str(uri)))
  }

  lemma KeySelectorExact(a: CacheKey, b: CacheKey)
    ensures Matches(KeySelector(b), a) <==> SameSubject(a, b)
  {
  }

  lemma CheckedAgain(s: State, r: nat)
    requires r < |s.requests| && s.requests[r].stage == Stored
    ensures var q := s.requests[r];
            Step(Step(s, CheckAgain(r)), InvalidateOwn(r)).cache ==
            if q.startEpoch == s.epochs.Of(q.key.method_) then s.cache else Remove(s.cache, KeySelector(q.key))
  {
    hide Remove;
    hide KeySelector;
  }

  /** After any run, the second check keeps the cache as it is exactly when nothing disturbed the request, and otherwise removes every entry of its subject. */
  lemma LateStoreIsUndone(namespace: JsString, actions: seq<Action>, n: nat, r: nat, key: CacheKey)
    requires n <= |actions| && r < |Run(namespace, actions, n).requests| && Run(namespace, actions, n).requests[r].stage == Stored
    ensures var s := Run(namespace, actions, n);
            var q := s.requests[r];
            var t := Step(Step(s, CheckAgain(r)), InvalidateOwn(r));
            && (Undisturbed(actions, q.begun, n, q.key.method_) ==> t.cache == s.cache)
            && (!Undisturbed(actions, q.begun, n, q.key.method_) ==>
                  (key in t.cache <==> key in s.cache && !SameSubject(key, q.key)) && (key in t.cache ==> t.cache[key] == s.cache[key]))
  {
    EpochTells(namespace, actions, n, r);
    var s := Run(namespace, actions, n);
    CheckedAgain(s, r);
    KeySelectorExact(key, s.requests[r].key);
    hide Run;
    hide Step;
    hide Matches;
    hide KeySelector;
    hide SameSubject;
    hide Undisturbed;
  }
}
