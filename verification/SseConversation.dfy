/**
 Which conversations an event-stream response may hold (validateSseMessage and
 nextSseFrame of src/transport/StreamableHttpClientTransport.ts): messages are judged one
 by one against two flags and the acknowledged filter.
 */
module SseConversation {
  import opened Common
  import HttpRetries
  import opened SubscriptionFilters

  /** A decoded message; `id` is the subscription id a notification carries, `sound` what its payload codec says. */
  datatype Message =
    | RequestMessage
    | AckMessage(id: Option<nat>, filter: Option<Filter>, sound: bool)
    | CancelledMessage
    | ChangeMessage(change: Change, id: Option<nat>, sound: bool)
    | OtherNote(n: nat, id: Option<nat>, sound: bool)
    | ResponseMessage(answers: nat, success: bool, valid: bool)

  /** The request a response belongs to: its id and, for subscriptions/listen, the requested filter. */
  datatype Request = Request(id: nat, listen: Option<Filter>)

  datatype State = State(terminal: bool, acknowledged: Option<Filter>)

  /** A message passed on, with the state after it; None for a failure. */
  function JudgeOrdinary(r: Request, s: State, m: Message): Option<State> {
    match m
    case OtherNote(_, id, sound) => if id.None? && sound then Some(s) else None
    case ResponseMessage(id, _, _) => if id == r.id then Some(s.(terminal := true)) else None
    case _ => None
  }

  function JudgeSubscription(r: Request, requested: Filter, s: State, m: Message): Option<State> {
    match s.acknowledged
    case None =>
      if m.AckMessage? && m.id == Some(r.id) && m.sound && m.filter.Some? && Subset(m.filter.value, requested)
      then Some(s.(acknowledged := m.filter)) else None
    case Some(filter) =>
      match m
      case ChangeMessage(change, id, sound) => if id == Some(r.id) && Selects(filter, change) && sound then Some(s) else None
      case ResponseMessage(id, success, valid) => if success && id == r.id && valid then Some(s.(terminal := true)) else None
      case _ => None
  }

  /** `validateSseMessage`. */
  function Judge(r: Request, s: State, m: Message): Option<State> {
    if m.RequestMessage? || s.terminal then None
    else if r.listen.None? then JudgeOrdinary(r, s, m)
    else JudgeSubscription(r, r.listen.value, s, m)
  }

  /** The state as the source holds it. */
  class Validator {
    const request: Request
    var terminal: bool
    var acknowledged: bool
    var acknowledgedFilter: Option<Filter>

    function View(): State
      reads this
    {
      State(terminal, acknowledgedFilter)
    }

    predicate Valid()
      reads this
    {
      acknowledged == acknowledgedFilter.Some?
    }

    constructor (request: Request)
      ensures this.request == request && Valid() && View() == State(false, None)
    {
      this.request := request;
      terminal, acknowledged, acknowledgedFilter := false, false, None;
    }

    /** `validateSseMessage`: whether the message is passed on. */
    method Validate(m: Message) returns (passed: bool)
      requires Valid()
      modifies this
      ensures Valid()
      ensures var judged := Judge(request, old(View()), m);
              passed == judged.Some? && View() == if passed then judged.value else old(View())
    {
      if m.RequestMessage? || terminal {
        return false;
      }
      if request.listen.None? {
        if m.ResponseMessage? {
          if m.answers != request.id {
            return false;
          }
          terminal := true;
          return true;
        }
        return m.OtherNote? && m.id.None? && m.sound;
      }
      if !acknowledged {
        if !m.AckMessage? || m.id != Some(request.id) || !m.sound {
          return false;
        }
        if m.filter.None? || !Subset(m.filter.value, request.listen.value) {
          return false;
        }
        acknowledged, acknowledgedFilter := true, m.filter;
        return true;
      }
      if m.ResponseMessage? {
        if !m.success || m.answers != request.id || !m.valid {
          return false;
        }
        terminal := true;
        return true;
      }
      return m.ChangeMessage? && m.id == Some(request.id) && Selects(acknowledgedFilter.value, m.change) && m.sound;
    }
  }

  // ----- whole streams -----

  /** What a response stream passes on, and whether it then fails: a bad message, a broken body (`clean` false), or an end before the terminal response. */
  datatype Reading = Reading(passed: seq<Message>, failed: bool)

  function Read(r: Request, s: State, messages: seq<Message>, clean: bool): Reading
    decreases |messages|
  {
    if messages == [] then Reading([], !clean || !s.terminal)
    else
      match Judge(r, s, messages[0])
      case None => Reading([], true)
      case Some(next) =>
        var rest := Read(r, next, messages[1..], clean);
        Reading([messages[0]] + rest.passed, rest.failed)
  }

  const START := State(false, None)

  // ----- the conversations themselves -----

  predicate PlainNote(m: Message) {
    m.OtherNote? && m.id.None? && m.sound
  }

  predicate Opens(r: Request, requested: Filter, m: Message) {
    m.AckMessage? && m.id == Some(r.id) && m.sound && m.filter.Some? && Subset(m.filter.value, requested)
  }

  predicate Chosen(r: Request, filter: Filter, m: Message) {
    m.ChangeMessage? && m.id == Some(r.id) && m.sound && Selects(filter, m.change)
  }

  /** Notifications without subscription ids, then the response to this request. */
  predicate Ordinary(r: Request, messages: seq<Message>) {
    && messages != []
    && (forall i :: 0 <= i < |messages| - 1 ==> PlainNote(messages[i]))
    && var last := messages[|messages| - 1]; last.ResponseMessage? && last.answers == r.id
  }

  /** Changes the filter selects, then the successful, valid result for this request. */
  predicate Flow(r: Request, filter: Filter, messages: seq<Message>) {
    && messages != []
    && (forall i :: 0 <= i < |messages| - 1 ==> Chosen(r, filter, messages[i]))
    && var last := messages[|messages| - 1]; last.ResponseMessage? && last.success && last.answers == r.id && last.valid
  }

  /** The whole grammar of a response. */
  predicate Conversation(r: Request, messages: seq<Message>) {
    match r.listen
    case None => Ordinary(r, messages)
    case Some(requested) => messages != [] && Opens(r, requested, messages[0]) && Flow(r, messages[0].filter.value, messages[1..])
  }

  lemma OrdinaryStep(r: Request, messages: seq<Message>)
    requires |messages| >= 2
    ensures Ordinary(r, messages) <==> PlainNote(messages[0]) && Ordinary(r, messages[1..])
  {
    if PlainNote(messages[0]) && Ordinary(r, messages[1..]) {
      forall i | 0 <= i < |messages| - 1 ensures PlainNote(messages[i]) {
        if i > 0 { assert messages[1..][i - 1] == messages[i]; }
      }
    }
  }

  lemma FlowStep(r: Request, filter: Filter, messages: seq<Message>)
    requires |messages| >= 2
    ensures Flow(r, filter, messages) <==> Chosen(r, filter, messages[0]) && Flow(r, filter, messages[1..])
  {
    hide Selects;
    if Chosen(r, filter, messages[0]) && Flow(r, filter, messages[1..]) {
      forall i | 0 <= i < |messages| - 1 ensures Chosen(r, filter, messages[i]) {
        if i > 0 { assert messages[1..][i - 1] == messages[i]; }
      }
    }
  }

  /** After the terminal response nothing more is passed on. */
  lemma AfterTerminal(r: Request, s: State, messages: seq<Message>, clean: bool)
    requires s.terminal
    ensures Read(r, s, messages, clean) == Reading([], !clean || messages != [])
  {
  }

  lemma {:induction false} ReadOrdinary(r: Request, s: State, messages: seq<Message>)
    requires r.listen.None? && !s.terminal
    ensures !Read(r, s, messages, true).failed <==> Ordinary(r, messages)
    decreases |messages|
  {
    if messages != [] {
      var next := Judge(r, s, messages[0]);
      if next.Some? {
        if next.value.terminal { AfterTerminal(r, next.value, messages[1..], true); } else { ReadOrdinary(r, next.value, messages[1..]); }
      }
      if |messages| >= 2 { OrdinaryStep(r, messages); }
      hide Read;
      assert |messages| == 1 ==> messages[1..] == [];
    }
  }

  lemma {:induction false} ReadFlow(r: Request, s: State, filter: Filter, messages: seq<Message>)
    requires r.listen.Some? && !s.terminal && s.acknowledged == Some(filter)
    ensures !Read(r, s, messages, true).failed <==> Flow(r, filter, messages)
    decreases |messages|
  {
    hide Selects;
    if messages != [] {
      var next := Judge(r, s, messages[0]);
      if next.Some? {
        if next.value.terminal { AfterTerminal(r, next.value, messages[1..], true); } else { ReadFlow(r, next.value, filter, messages[1..]); }
      }
      if |messages| >= 2 { FlowStep(r, filter, messages); }
      assert |messages| == 1 ==> messages[1..] == [];
    }
  }

  /** A response whose body ends cleanly is read without failure exactly when it is a conversation of its request, and then every message is passed on. */
  lemma ReadExact(r: Request, messages: seq<Message>)
    ensures !Read(r, START, messages, true).failed <==> Conversation(r, messages)
    ensures Conversation(r, messages) ==> Read(r, START, messages, true).passed == messages
  {
    if r.listen.None? {
      ReadOrdinary(r, START, messages);
    } else if messages != [] && Opens(r, r.listen.value, messages[0]) {
      hide Subset;
      ReadFlow(r, State(false, messages[0].filter), messages[0].filter.value, messages[1..]);
    }
    AllPassed(r, START, messages, true);
    hide Ordinary;
    hide Flow;
  }

  /** What is passed on is a prefix of the messages, all of them when nothing fails. */
  lemma {:induction false} AllPassed(r: Request, s: State, messages: seq<Message>, clean: bool)
    ensures Read(r, s, messages, clean).passed <= messages
    ensures !Read(r, s, messages, clean).failed ==> Read(r, s, messages, clean).passed == messages
    decreases |messages|
  {
    hide Judge;
    if messages != [] {
      Head(messages);
      var next := Judge(r, s, messages[0]);
      if next.Some? { AllPassed(r, next.value, messages[1..], clean); }
    }
  }

  // ----- the grammar the retry policy relies on -----

  predicate TerminalMessage(m: Message) {
    m.ResponseMessage?
  }

  lemma {:induction false} TerminalLast(r: Request, s: State, messages: seq<Message>, clean: bool)
    ensures var reading := Read(r, s, messages, clean);
            && (forall i :: 0 <= i < |reading.passed| - 1 ==> !TerminalMessage(reading.passed[i]))
            && (!reading.failed && !s.terminal ==> reading.passed != [] && TerminalMessage(reading.passed[|reading.passed| - 1]))
            && (s.terminal ==> reading.passed == [])
    decreases |messages|
  {
    hide Subset;
    hide Selects;
    if messages != [] {
      var next := Judge(r, s, messages[0]);
      if next.Some? {
        TerminalLast(r, next.value, messages[1..], clean);
        JudgedTerminal(r, s, messages[0]);
        hide Judge;
        var rest := Read(r, next.value, messages[1..], clean);
        var passed := [messages[0]] + rest.passed;
        assert Read(r, s, messages, clean).passed == passed;
        forall i | 0 <= i < |passed| - 1 ensures !TerminalMessage(passed[i]) {
          if i > 0 { assert passed[i] == rest.passed[i - 1]; }
        }
      }
    }
  }

  lemma JudgedTerminal(r: Request, s: State, m: Message)
    requires Judge(r, s, m).Some?
    ensures !s.terminal && (Judge(r, s, m).value.terminal <==> TerminalMessage(m))
  {
    hide Subset;
    hide Selects;
  }

  /** The frames of the messages passed on; what a result holds plays no part. */
  function FrameOf(m: Message): HttpRetries.Frame<nat> {
    match m
    case ResponseMessage(_, success, _) => if success then HttpRetries.Success(0, false) else HttpRetries.ErrorFrame(0, false, false)
    case _ => HttpRetries.Note(0)
  }

  function Frames(messages: seq<Message>): seq<HttpRetries.Frame<nat>> {
    seq(|messages|, i requires 0 <= i < |messages| => FrameOf(messages[i]))
  }

  /** Whatever the server sends, the stream passed on is notifications, then at most one terminal frame, and fails if it has none. */
  lemma StreamsAreGrammatical(r: Request, messages: seq<Message>, clean: bool)
    ensures var reading := Read(r, START, messages, clean);
            HttpRetries.Grammatical(HttpRetries.Stream(Frames(reading.passed), reading.failed))
  {
    TerminalLast(r, START, messages, clean);
    hide Read;
  }

  /** A subscription passes on its acknowledgement first and after it only changes selected by the acknowledged and the requested filter, up to its result. */
  lemma {:induction false} SubscriptionPasses(r: Request, s: State, messages: seq<Message>, clean: bool)
    requires r.listen.Some? && !s.terminal && (s.acknowledged.Some? ==> Subset(s.acknowledged.value, r.listen.value))
    ensures var passed := Read(r, s, messages, clean).passed;
            && (s.acknowledged.None? && passed != [] ==> Opens(r, r.listen.value, passed[0]))
            && forall i :: (if s.acknowledged.None? then 1 else 0) <= i < |passed| && !TerminalMessage(passed[i]) ==>
                 Chosen(r, r.listen.value, passed[i])
    decreases |messages|
  {
    if messages != [] {
      var m := messages[0];
      var next := Judge(r, s, m);
      if next.Some? && !next.value.terminal {
        if s.acknowledged.Some? && m.ChangeMessage? { SubsetIsSelection(s.acknowledged.value, r.listen.value); }
        SubscriptionPasses(r, next.value, messages[1..], clean);
        var rest := Read(r, next.value, messages[1..], clean).passed;
        assert Read(r, s, messages, clean).passed == [m] + rest;
        hide Read;
        hide Subset;
        hide Selects;
      } else if next.Some? {
        AfterTerminal(r, next.value, messages[1..], clean);
      }
    }
  }
}
