/**
 The multi-round loop of src/McpClient.ts over the HTTP retry policy: while the server
 answers input_required, the handlers are asked and the original call is sent again.
 */
module MultiRound {
  import opened Common
  import opened CanonicalJson
  import HttpRetries

  /** Numbers play no part here. */
  type Number(==, !new)

  type Value = Json<Number>

  type Params = seq<Field<Number>>

  /** A decoded result; None for input requests that are not plain own data. */
  datatype Reply = Complete(value: Value) | InputRequired(requests: Option<Params>, requestState: Option<Value>)

  datatype Reason = RequestFailed | InvalidInputRequest | RoundLimit | Overloaded | HandlerFailed

  /** `inputRequiredPolicy`, and whether the method admits input_required at all. */
  datatype Settings = Settings(manual: bool, permitted: bool, maxRounds: nat, maxRequestsPerRound: nat, authorizes: bool, recover: bool)

  type Server = HttpRetries.Server<Reply>

  /** What the registered handler answers to a key's request in a round. */
  type Handlers = (nat, JsString, Value) -> Option<Value>

  const RESPONSES: JsString := Ascii("inputResponses")
  const STATE: JsString := Ascii("requestState")
  const META: JsString := Ascii("_meta")

  predicate Continuation(name: JsString) {
    name == RESPONSES || name == STATE || name == META
  }

  function Base(params: Params): Params {
    if params == [] then [] else (if Continuation(params[0].name) then [] else [params[0]]) + Base(params[1..])
  }

  function Optional(name: JsString, value: Option<Value>): Params {
    if value.Some? then [Field(name, value.value)] else []
  }

  /** `continuationPayload`. */
  function Next(base: Params, responses: Option<Params>, requestState: Option<Value>): Params {
    base + Optional(RESPONSES, if responses.Some? then Some(Obj(responses.value)) else None) + Optional(STATE, requestState)
  }

  /** The responses, keyed as the requests are and in their order; None when a handler fails. */
  function Resolve(handlers: Handlers, round: nat, requests: Params): Option<Params> {
    if requests == [] then Some([])
    else
      match handlers(round, requests[0].name, requests[0].value)
      case None => None
      case Some(answer) =>
        match Resolve(handlers, round, requests[1..])
        case None => None
        case Some(rest) => Some([Field(requests[0].name, answer)] + rest)
  }

  /** One transport request: the payload sent, the result read, and the responses prepared for the next. */
  datatype Exchange = Exchange(payload: Params, reply: Option<Reply>, responses: Option<Params>)

  datatype Outcome = Value(reply: Reply) | Failed(reason: Reason)

  datatype Answered = Answered(outcome: Outcome, log: seq<Exchange>, posts: nat)

  /** The result of one transport request: the success its stream ends in, if it ends well. */
  function ResultOf(stream: HttpRetries.Stream<Reply>): Option<Reply> {
    if stream.failed || stream.frames == [] then None
    else
      match stream.frames[|stream.frames| - 1]
      case Success(reply, _) => Some(reply)
      case _ => None
  }

  function SendRequest(server: Server, s: Settings, posts: nat): (Option<Reply>, nat) {
    var (stream, after) := HttpRetries.WithPolicy(server, s.authorizes, s.recover, HttpRetries.Context(false, false, posts));
    (ResultOf(stream), after.posts)
  }

  /** What the loop does with a reply: stop, or go on with these responses. */
  datatype Decision = Stop(outcome: Outcome) | Again(responses: Params, requestState: Option<Value>)

  function Decide(s: Settings, handlers: Handlers, round: nat, reply: Option<Reply>): Decision {
    if reply.None? then Stop(Failed(RequestFailed))
    else if reply.value.Complete? || s.manual then Stop(Value(reply.value))
    else if !s.permitted then Stop(Failed(InvalidInputRequest))
    else if round >= s.maxRounds then Stop(Failed(RoundLimit))
    else if reply.value.requests.None? then Stop(Failed(InvalidInputRequest))
    else if |reply.value.requests.value| > s.maxRequestsPerRound then Stop(Failed(Overloaded))
    else
      match Resolve(handlers, round + 1, reply.value.requests.value)
      case None => Stop(Failed(HandlerFailed))
      case Some(responses) => Again(responses, reply.value.requestState)
  }

  /** `loop`. */
  function Loop(server: Server, handlers: Handlers, s: Settings, base: Params, payload: Params, round: nat, posts: nat): Answered
    decreases s.maxRounds - round
  {
    var (reply, after) := SendRequest(server, s, posts);
    match Decide(s, handlers, round, reply)
    case Stop(outcome) => Answered(outcome, [Exchange(payload, reply, None)], after)
    case Again(responses, requestState) =>
      if round >= s.maxRounds then Answered(Failed(RoundLimit), [Exchange(payload, reply, None)], after)
      else
        var next := Next(base, if responses == [] then None else Some(responses), requestState);
        var rest := Loop(server, handlers, s, base, next, round + 1, after);
        Answered(rest.outcome, [Exchange(payload, reply, Some(responses))] + rest.log, rest.posts)
  }

  /** `sendWithMrtr`. */
  function Call(server: Server, handlers: Handlers, s: Settings, params: Params): Answered {
    Loop(server, handlers, s, Base(params), params, 0, 0)
  }

  // ----- the bounds -----

  lemma SendBound(server: Server, s: Settings, posts: nat)
    ensures posts < SendRequest(server, s, posts).1 <= posts + 5
  {
    HttpRetries.AtMostFivePosts(server, s.authorizes, s.recover, posts);
    hide HttpRetries.WithPolicy;
  }

  lemma {:induction false} LoopBound(server: Server, handlers: Handlers, s: Settings, base: Params, payload: Params, round: nat, posts: nat)
    requires round <= s.maxRounds
    ensures var r := Loop(server, handlers, s, base, payload, round, posts);
            && 1 <= |r.log| <= s.maxRounds - round + 1
            && posts + |r.log| <= r.posts <= posts + 5 * |r.log|
            && (r.outcome == Failed(RoundLimit) ==> |r.log| == s.maxRounds - round + 1)
    decreases s.maxRounds - round
  {
    SendBound(server, s, posts);
    var (reply, after) := SendRequest(server, s, posts);
    var decision := Decide(s, handlers, round, reply);
    DecisionShape(s, handlers, round, reply);
    hide SendRequest;
    hide Decide;
    hide Next;
    if decision.Again? && round < s.maxRounds {
      LoopBound(server, handlers, s, base, Next(base, if decision.responses == [] then None else Some(decision.responses), decision.requestState), round + 1, after);
    }
  }

  lemma DecisionShape(s: Settings, handlers: Handlers, round: nat, reply: Option<Reply>)
    ensures var d := Decide(s, handlers, round, reply);
            && (d == Stop(Failed(RoundLimit)) ==> round >= s.maxRounds)
            && (d.Again? ==> round < s.maxRounds && reply.Some? && reply.value.InputRequired? && !s.manual && s.permitted
                             && reply.value.requests.Some? && |reply.value.requests.value| <= s.maxRequestsPerRound
                             && Resolve(handlers, round + 1, reply.value.requests.value) == Some(d.responses)
                             && d.requestState == reply.value.requestState)
            && (d.Stop? && d.outcome.Value? ==> reply == Some(d.outcome.reply) && (d.outcome.reply.Complete? || s.manual))
  {
    hide Resolve;
  }

  /** Whatever the server answers, one call ends: at most maxRounds + 1 requests, at most five POSTs each. */
  lemma CallIsBounded(server: Server, handlers: Handlers, s: Settings, params: Params)
    ensures var r := Call(server, handlers, s, params);
            |r.log| <= s.maxRounds + 1 && r.posts <= 5 * |r.log| <= 5 * (s.maxRounds + 1)
  {
    LoopBound(server, handlers, s, Base(params), params, 0, 0);
    hide Loop;
  }

  // ----- what is sent again -----

  lemma {:induction false} GetConcat(a: Params, b: Params, name: JsString)
    ensures Property(a + b, name) == if Property(a, name).Some? then Property(a, name) else Property(b, name)
  {
    if a == [] {
      assert a + b == b;
    } else {
      assert (a + b)[1..] == a[1..] + b;
      GetConcat(a[1..], b, name);
    }
  }

  lemma {:induction false} GetBase(params: Params, name: JsString)
    ensures Property(Base(params), name) == if Continuation(name) then None else Property(params, name)
  {
    if params != [] {
      GetBase(params[1..], name);
      GetConcat(if Continuation(params[0].name) then [] else [params[0]], Base(params[1..]), name);
    }
  }

  /** What a re-sent payload holds under each name. */
  ghost predicate Resent(original: Params, payload: Params, responses: Params, requestState: Option<Value>) {
    && (forall name :: !Continuation(name) ==> Property(payload, name) == Property(original, name))
    && Property(payload, RESPONSES) == (if responses == [] then None else Some(Obj(responses)))
    && Property(payload, STATE) == requestState
    && Property(payload, META) == None
  }

  lemma NextIsResent(original: Params, responses: Params, requestState: Option<Value>)
    ensures Resent(original, Next(Base(original), if responses == [] then None else Some(responses), requestState), responses, requestState)
  {
    var base := Base(original);
    var some: Option<Value> := if responses == [] then None else Some(Obj(responses));
    var middle, last := Optional(RESPONSES, some), Optional(STATE, requestState);
    forall name ensures Property(base + middle + last, name) ==
                        if !Continuation(name) then Property(original, name) else if name == RESPONSES then some else if name == STATE then requestState else None {
      GetConcat(base + middle, last, name);
      GetConcat(base, middle, name);
      GetBase(original, name);
      hide Base;
    }
    hide Property;
    hide Base;
  }

  predicate SameKeys(a: Params, b: Params) {
    |a| == |b| && forall i :: 0 <= i < |a| ==> a[i].name == b[i].name
  }

  lemma {:induction false} ResolveKeys(handlers: Handlers, round: nat, requests: Params)
    requires Resolve(handlers, round, requests).Some?
    ensures var responses := Resolve(handlers, round, requests).value;
            && SameKeys(requests, responses)
            && forall i :: 0 <= i < |requests| ==> handlers(round, requests[i].name, requests[i].value) == Some(responses[i].value)
  {
    if requests != [] {
      ResolveKeys(handlers, round, requests[1..]);
      Head(requests);
    }
  }

  /** One exchange answered input_required, and the payload of the next. */
  ghost predicate Continues(original: Params, here: Exchange, next: Exchange, handlers: Handlers, round: nat) {
    && here.reply.Some? && here.reply.value.InputRequired? && here.reply.value.requests.Some? && here.responses.Some?
    && SameKeys(here.reply.value.requests.value, here.responses.value)
    && (forall i :: 0 <= i < |here.responses.value| ==>
          var request := here.reply.value.requests.value[i];
          handlers(round, request.name, request.value) == Some(here.responses.value[i].value))
    && Resent(original, next.payload, here.responses.value, here.reply.value.requestState)
  }

  /** Every exchange of a log is followed by its continuation. */
  ghost predicate Chain(original: Params, log: seq<Exchange>, handlers: Handlers, round: nat) {
    forall k :: 0 <= k < |log| - 1 ==> Continues(original, log[k], log[k + 1], handlers, round + k + 1)
  }

  lemma ChainCons(original: Params, first: Exchange, rest: seq<Exchange>, handlers: Handlers, round: nat)
    requires Chain(original, rest, handlers, round + 1) && rest != [] && Continues(original, first, rest[0], handlers, round + 1)
    ensures Chain(original, [first] + rest, handlers, round)
  {
    hide Continues;
    var log := [first] + rest;
    forall k | 0 <= k < |log| - 1 ensures Continues(original, log[k], log[k + 1], handlers, round + k + 1) {
      if k > 0 { assert Continues(original, rest[k - 1], rest[k], handlers, round + 1 + (k - 1) + 1); }
    }
  }

  lemma AgainContinues(s: Settings, handlers: Handlers, original: Params, payload: Params, round: nat, reply: Option<Reply>, next: Exchange)
    requires Decide(s, handlers, round, reply).Again?
    requires var d := Decide(s, handlers, round, reply);
             next.payload == Next(Base(original), if d.responses == [] then None else Some(d.responses), d.requestState)
    ensures Continues(original, Exchange(payload, reply, Some(Decide(s, handlers, round, reply).responses)), next, handlers, round + 1)
  {
    var d := Decide(s, handlers, round, reply);
    DecisionShape(s, handlers, round, reply);
    NextIsResent(original, d.responses, d.requestState);
    ResolveKeys(handlers, round + 1, reply.value.requests.value);
    hide Decide;
    hide Resent;
    hide SameKeys;
    hide Resolve;
    hide Next;
  }

  lemma {:induction false} LoopContinues(server: Server, handlers: Handlers, s: Settings, original: Params, payload: Params, round: nat, posts: nat)
    ensures var log := Loop(server, handlers, s, Base(original), payload, round, posts).log;
            log != [] && log[0].payload == payload && Chain(original, log, handlers, round)
    decreases s.maxRounds - round
  {
    var (reply, after) := SendRequest(server, s, posts);
    var decision := Decide(s, handlers, round, reply);
    DecisionShape(s, handlers, round, reply);
    if decision.Again? && round < s.maxRounds {
      var next := Next(Base(original), if decision.responses == [] then None else Some(decision.responses), decision.requestState);
      LoopContinues(server, handlers, s, original, next, round + 1, after);
      var rest := Loop(server, handlers, s, Base(original), next, round + 1, after).log;
      AgainContinues(s, handlers, original, payload, round, reply, rest[0]);
      ChainCons(original, Exchange(payload, reply, Some(decision.responses)), rest, handlers, round);
    }
    hide SendRequest;
    hide Decide;
    hide Next;
    hide Continues;
  }

  /** The first payload is the original; every later one is the original without continuation and metadata, plus responses keyed exactly as the last requests and the latest state. */
  lemma PayloadsFollow(server: Server, handlers: Handlers, s: Settings, params: Params)
    ensures var log := Call(server, handlers, s, params).log;
            && log != [] && log[0].payload == params
            && forall k :: 0 <= k < |log| - 1 ==> Continues(params, log[k], log[k + 1], handlers, k + 1)
  {
    LoopContinues(server, handlers, s, params, params, 0, 0);
    hide Loop;
    hide Continues;
    var log := Call(server, handlers, s, params).log;
    forall k | 0 <= k < |log| - 1 ensures Continues(params, log[k], log[k + 1], handlers, k + 1) {
      assert Continues(params, log[k], log[k + 1], handlers, 0 + k + 1);
    }
  }

  // ----- the outcome, from what the server answered -----

  /** The result a stream ends in. */
  predicate EndsIn(stream: HttpRetries.Stream<Reply>, reply: Option<Reply>) {
    match HttpRetries.Last(stream)
    case Some(Success(value, _)) => reply == if stream.failed then None else Some(value)
    case _ => reply == None
  }

  /**
   The result of one transport request: what its own stream ends in; for a header mismatch
   that a refresh of the tools cures, what the retried call ends in.
   */
  lemma SendExactly(server: Server, s: Settings, posts: nat)
    ensures var (first, c1) := HttpRetries.JsonRequest(server, s.authorizes, HttpRetries.Context(false, false, posts));
            var (refresh, c2) := HttpRetries.JsonRequest(server, s.authorizes, c1);
            var (retry, c3) := HttpRetries.JsonRequest(server, s.authorizes, c2);
            var (reply, after) := SendRequest(server, s, posts);
            var failed := HttpRetries.Last(first);
            var cured := HttpRetries.Last(refresh);
            if !s.recover || failed.None? || !failed.value.ErrorFrame? || !failed.value.mismatch then EndsIn(first, reply) && after == c1.posts
            else if refresh.failed || cured.None? || !cured.value.Success? || !cured.value.restores then reply == None && after == c2.posts
            else
              // every stream that is passed on has a frame or fails
              after == c3.posts && (retry.frames != [] || retry.failed ==> EndsIn(retry.(failed := retry.failed || first.failed), reply))
  {
    var c := HttpRetries.Context(false, false, posts);
    HttpRetries.PolicyExact(server, s.authorizes, s.recover, c);
    var retry := HttpRetries.JsonRequest(server, s.authorizes, HttpRetries.JsonRequest(server, s.authorizes, HttpRetries.JsonRequest(server, s.authorizes, c).1).1).0;
    var stream := HttpRetries.WithPolicy(server, s.authorizes, s.recover, c).0;
    hide HttpRetries.JsonRequest;
    hide HttpRetries.WithPolicy;
  }

  /** How many POSTs were made before the k-th transport request of a call. */
  function PostsBefore(server: Server, s: Settings, posts: nat, k: nat): nat
    decreases k
  {
    if k == 0 then posts else PostsBefore(server, s, SendRequest(server, s, posts).1, k - 1)
  }

  /** The server asks for input that the call may give. */
  predicate Asked(s: Settings, reply: Option<Reply>) {
    reply.Some? && reply.value.InputRequired? && !s.manual && s.permitted
  }

  /** A round that every handler of answers. */
  ghost predicate GoesOn(s: Settings, handlers: Handlers, round: nat, reply: Option<Reply>) {
    && Asked(s, reply) && round < s.maxRounds && reply.value.requests.Some? && |reply.value.requests.value| <= s.maxRequestsPerRound
    && forall i :: 0 <= i < |reply.value.requests.value| ==> !Fails(handlers, round + 1, reply.value.requests.value[i])
  }

  predicate Fails(handlers: Handlers, round: nat, request: Field<Number>) {
    handlers(round, request.name, request.value).None?
  }

  /** Which outcome the last reply of a call gives, case by case. */
  ghost predicate Concludes(s: Settings, handlers: Handlers, round: nat, reply: Option<Reply>, outcome: Outcome) {
    var pending := Asked(s, reply) && round < s.maxRounds;
    && (outcome == Failed(RequestFailed) <==> reply.None?)
    && (outcome.Value? <==> reply.Some? && (reply.value.Complete? || s.manual))
    && (outcome.Value? ==> reply == Some(outcome.reply))
    && (outcome == Failed(InvalidInputRequest) <==>
          reply.Some? && reply.value.InputRequired? && !s.manual && (!s.permitted || (round < s.maxRounds && reply.value.requests.None?)))
    && (outcome == Failed(RoundLimit) <==> Asked(s, reply) && round >= s.maxRounds)
    && (outcome == Failed(Overloaded) <==> pending && reply.value.requests.Some? && |reply.value.requests.value| > s.maxRequestsPerRound)
    && (outcome == Failed(HandlerFailed) <==>
          pending && reply.value.requests.Some? && |reply.value.requests.value| <= s.maxRequestsPerRound
          && exists i :: 0 <= i < |reply.value.requests.value| && Fails(handlers, round + 1, reply.value.requests.value[i]))
  }

  lemma {:induction false} ResolveFails(handlers: Handlers, round: nat, requests: Params)
    ensures Resolve(handlers, round, requests).None? <==> exists i :: 0 <= i < |requests| && Fails(handlers, round, requests[i])
  {
    if requests != [] {
      ResolveFails(handlers, round, requests[1..]);
      if i :| 0 <= i < |requests[1..]| && Fails(handlers, round, requests[1..][i]) {
        assert requests[i + 1] == requests[1..][i];
      }
      if i :| 0 <= i < |requests| && Fails(handlers, round, requests[i]) {
        assert i > 0 ==> requests[1..][i - 1] == requests[i];
      }
    }
  }

  lemma DecidesExactly(s: Settings, handlers: Handlers, round: nat, reply: Option<Reply>)
    ensures var d := Decide(s, handlers, round, reply);
            && (d.Again? <==> GoesOn(s, handlers, round, reply))
            && (d.Stop? ==> Concludes(s, handlers, round, reply, d.outcome))
  {
    if reply.Some? && reply.value.InputRequired? && reply.value.requests.Some? {
      ResolveFails(handlers, round + 1, reply.value.requests.value);
    }
    hide Resolve;
    hide Fails;
  }

  /** The replies of a log are the server's, in turn; each but the last is a round that goes on, and the last one decides. */
  ghost predicate Settles(server: Server, handlers: Handlers, s: Settings, log: seq<Exchange>, round: nat, posts: nat, outcome: Outcome) {
    && log != []
    && (forall k :: 0 <= k < |log| ==> Reads(server, s, PostsBefore(server, s, posts, k), log[k].reply))
    && (forall k :: 0 <= k < |log| - 1 ==> GoesOn(s, handlers, round + k, log[k].reply))
    && Concludes(s, handlers, round + |log| - 1, log[|log| - 1].reply, outcome)
  }

  predicate Reads(server: Server, s: Settings, posts: nat, reply: Option<Reply>) {
    SendRequest(server, s, posts).0 == reply
  }

  lemma SettlesCons(server: Server, handlers: Handlers, s: Settings, first: Exchange, rest: seq<Exchange>, round: nat, posts: nat, outcome: Outcome)
    requires Settles(server, handlers, s, rest, round + 1, SendRequest(server, s, posts).1, outcome)
    requires GoesOn(s, handlers, round, first.reply) && Reads(server, s, posts, first.reply)
    ensures Settles(server, handlers, s, [first] + rest, round, posts, outcome)
  {
    hide SendRequest;
    hide GoesOn;
    hide Concludes;
    hide Reads;
    var log, after := [first] + rest, SendRequest(server, s, posts).1;
    forall k | 0 <= k < |log| ensures Reads(server, s, PostsBefore(server, s, posts, k), log[k].reply) {
      if k > 0 { assert Reads(server, s, PostsBefore(server, s, after, k - 1), rest[k - 1].reply); }
    }
    forall k | 0 <= k < |log| - 1 ensures GoesOn(s, handlers, round + k, log[k].reply) {
      if k > 0 { assert GoesOn(s, handlers, round + 1 + (k - 1), rest[k - 1].reply); }
    }
  }

  lemma {:induction false} LoopSettles(server: Server, handlers: Handlers, s: Settings, base: Params, payload: Params, round: nat, posts: nat)
    ensures var r := Loop(server, handlers, s, base, payload, round, posts);
            Settles(server, handlers, s, r.log, round, posts, r.outcome) && (s.manual ==> |r.log| == 1)
    decreases s.maxRounds - round
  {
    var (reply, after) := SendRequest(server, s, posts);
    var decision := Decide(s, handlers, round, reply);
    DecidesExactly(s, handlers, round, reply);
    hide SendRequest;
    hide Decide;
    hide Next;
    hide Concludes;
    if decision.Again? {
      var next := Next(base, if decision.responses == [] then None else Some(decision.responses), decision.requestState);
      LoopSettles(server, handlers, s, base, next, round + 1, after);
      var rest := Loop(server, handlers, s, base, next, round + 1, after);
      hide Settles;
      SettlesCons(server, handlers, s, Exchange(payload, reply, Some(decision.responses)), rest.log, round, posts, rest.outcome);
    }
  }

  /**
   The outcome of a call, from the server's answers: the k-th reply is the result of the k-th
   transport request; every reply but the last asks for input that all handlers give within
   the limits; and the last reply alone decides, each outcome having its exact condition.
   */
  lemma ValueIsLastReply(server: Server, handlers: Handlers, s: Settings, params: Params)
    ensures var r := Call(server, handlers, s, params);
            && Settles(server, handlers, s, r.log, 0, 0, r.outcome)
            && (r.outcome.Value? <==> r.log[|r.log| - 1].reply.Some? && (r.log[|r.log| - 1].reply.value.Complete? || s.manual))
            && (r.outcome.Value? ==> r.log[|r.log| - 1].reply == Some(r.outcome.reply))
            && (s.manual ==> |r.log| == 1)
  {
    LoopSettles(server, handlers, s, Base(params), params, 0, 0);
    hide Loop;
    hide GoesOn;
    hide Reads;
  }

  /** A complete first answer, unchallenged, is returned after one POST. */
  lemma CompleteIsReturned(server: Server, handlers: Handlers, s: Settings, params: Params, value: Value, restores: bool)
    requires var a := server(0);
             && a.Answer? && !a.challenged && !a.denied
             && (a.body == HttpRetries.JsonBody(Some(HttpRetries.Success(Complete(value), restores)))
                 || (a.body.EventStream? && a.ok && !a.body.stream.failed && HttpRetries.Last(a.body.stream) == Some(HttpRetries.Success(Complete(value), restores))))
    ensures var r := Call(server, handlers, s, params);
            r.outcome == Value(Complete(value)) && r.posts == 1 && r.log == [Exchange(params, Some(Complete(value)), None)]
  {
    HttpRetries.JsonRequestExact(server, s.authorizes, HttpRetries.Context(false, false, 0));
    SendExactly(server, s, 0);
    hide HttpRetries.JsonRequest;
    hide HttpRetries.WithPolicy;
    hide SendRequest;
    assert SendRequest(server, s, 0) == (Some(Complete(value)), 1);
  }

  // ----- the loops of the source -----

  /** `withoutContinuation`. */
  method WithoutContinuation(params: Params) returns (output: Params)
    ensures output == Base(params)
  {
    output := [];
    assert params[0..] == params;
    for index := 0 to |params|
      invariant output + Base(params[index..]) == Base(params)
    {
      var field := params[index];
      assert params[index..][0] == field && params[index..][1..] == params[index + 1..];
      if field.name != RESPONSES && field.name != STATE && field.name != META {
        Assoc(output, [field], Base(params[index + 1..]));
        output := output + [field];
      }
    }
  }

  /** `continuationPayload`. */
  method ContinuationPayload(base: Params, responses: Option<Params>, requestState: Option<Value>) returns (output: Params)
    ensures output == Next(base, responses, requestState)
  {
    output := [];
    for index := 0 to |base|
      invariant output == base[..index]
    {
      assert base[..index + 1] == base[..index] + [base[index]];
      output := output + [base[index]];
    }
    assert base[..|base|] == base;
    if responses.Some? {
      output := output + [Field(RESPONSES, Obj(responses.value))];
    }
    if requestState.Some? {
      output := output + [Field(STATE, requestState.value)];
    }
  }
}
