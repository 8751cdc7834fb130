/**
 The retry policy of src/transport/StreamableHttpClientTransport.ts: one authorization
 retry and one version retry per request, shared by the request, the tools/list refresh
 and the retried call. The server is any function from the number of the POST to its answer.
 */
module HttpRetries {
  import opened Common

  /** A frame as the policy sees it. `restores`: after this tools/list result the local plans know the tool. */
  datatype Frame<R> =
    | Note(n: nat)
    | Success(result: R, restores: bool)
    | ErrorFrame(error: nat, mismatch: bool, version: bool)

  /** What a response stream yields, and whether it then fails. */
  datatype Stream<R> = Stream(frames: seq<Frame<R>>, failed: bool)

  /** None for a body that does not decode as a message for this request. */
  datatype Body<R> = Unsupported | EventStream(stream: Stream<R>) | JsonBody(frame: Option<Frame<R>>)

  /** The outcome of one POST; `granted` is what responding to its challenge would give. */
  datatype Answer<R> = NoAnswer | Answer(challenged: bool, granted: bool, denied: bool, ok: bool, body: Body<R>)

  type Server<!R> = nat -> Answer<R>

  /** The flags of one transport request, and how many POSTs were made so far. */
  datatype Context = Context(authRetried: bool, versionRetried: bool, posts: nat)

  function Broken<R>(): Stream<R> {
    Stream([], true)
  }

  function Used(flag: bool): nat {
    if flag then 1 else 0
  }

  /** `jsonRequest` up to the response that counts: the second one after a challenge that was met. */
  function Respond<R>(server: Server<R>, authorizes: bool, c: Context): (Answer<R>, Context) {
    var a := server(c.posts);
    var sent := c.(posts := c.posts + 1);
    if a.NoAnswer? || !a.challenged || !authorizes then (a, sent)
    else if c.authRetried then (a, sent)
    else if !a.granted then (NoAnswer, sent.(authRetried := true))
    else (server(sent.posts), sent.(authRetried := true, posts := sent.posts + 1))
  }

  /** `jsonRequest`. */
  function JsonRequest<R>(server: Server<R>, authorizes: bool, c: Context): (Stream<R>, Context)
    decreases Used(!c.versionRetried)
  {
    var (a, sent) := Respond(server, authorizes, c);
    if a.NoAnswer? || a.denied then (Broken(), sent)
    else
      match a.body
      case Unsupported => (Broken(), sent)
      case EventStream(stream) => (if a.ok then stream else Broken(), sent)
      case JsonBody(None) => (Broken(), sent)
      case JsonBody(Some(frame)) =>
        if frame.ErrorFrame? && frame.version && !sent.versionRetried then
          JsonRequest(server, authorizes, sent.(versionRetried := true))
        else (Stream([frame], false), sent)
  }

  /** `preserveOriginalRetryFailure`: the retry's success stands, its failure becomes the original error. */
  function Preserve<R>(retry: Stream<R>, original: Frame<R>): Stream<R> {
    var mapped := Mapped(retry.frames, original);
    var last := LastTerminal(retry.frames);
    if !retry.failed then Stream(mapped, false)
    else if last.Some? && last.value.Success? then Stream(mapped, true)
    else if last.Some? then Stream(mapped, false)
    else Stream(mapped + [original], false)
  }

  function Mapped<R>(frames: seq<Frame<R>>, original: Frame<R>): seq<Frame<R>> {
    seq(|frames|, i requires 0 <= i < |frames| => if frames[i].ErrorFrame? then original else frames[i])
  }

  /** The last frame that is no notification. */
  function LastTerminal<R>(frames: seq<Frame<R>>): Option<Frame<R>> {
    if frames == [] then None
    else if !frames[|frames| - 1].Note? then Some(frames[|frames| - 1])
    else LastTerminal(frames[..|frames| - 1])
  }

  /** Whether a refresh lets the call be retried. */
  predicate Restored<R>(refresh: Stream<R>) {
    !refresh.failed && refresh.frames != [] && var last := refresh.frames[|refresh.frames| - 1]; last.Success? && last.restores
  }

  /** `requestWithPolicy` on a tools/call; without recovery it is one `jsonRequest`. */
  function WithPolicy<R>(server: Server<R>, authorizes: bool, recover: bool, c: Context): (Stream<R>, Context) {
    var (first, c1) := JsonRequest(server, authorizes, c);
    if !recover || !EndsInMismatch(first) then (first, c1)
    else
      var original := first.frames[|first.frames| - 1];
      var (refresh, c2) := JsonRequest(server, authorizes, c1);
      if !Restored(refresh) then (first, c2)
      else
        var (retry, c3) := JsonRequest(server, authorizes, c2);
        var kept := Preserve(retry, original);
        (Stream(first.frames[..|first.frames| - 1] + kept.frames, kept.failed || first.failed), c3)
  }

  predicate EndsInMismatch<R>(s: Stream<R>) {
    s.frames != [] && var last := s.frames[|s.frames| - 1]; last.ErrorFrame? && last.mismatch
  }

  // ----- one answer at a time -----

  predicate VersionError<R>(a: Answer<R>) {
    a.Answer? && a.body.JsonBody? && a.body.frame.Some? && a.body.frame.value.ErrorFrame? && a.body.frame.value.version
  }

  /** A challenge that may still be met. */
  predicate Challenges<R>(a: Answer<R>, authorizes: bool, c: Context) {
    a.Answer? && a.challenged && authorizes && !c.authRetried
  }

  /** What an answer leads to: another POST with one more flag used, or the end of the request. */
  function Again<R>(a: Answer<R>, authorizes: bool, c: Context): Option<Context> {
    if a.NoAnswer? then None
    else if Challenges(a, authorizes, c) then if a.granted then Some(c.(authRetried := true)) else None
    else if !a.denied && VersionError(a) && !c.versionRetried then Some(c.(versionRetried := true))
    else None
  }

  /** The flags with which the last POST of a request is made, and its number. */
  function LastPost<R>(server: Server<R>, authorizes: bool, c: Context): Context
    decreases Used(!c.authRetried) + Used(!c.versionRetried)
  {
    match Again(server(c.posts), authorizes, c)
    case None => c
    case Some(next) => LastPost(server, authorizes, next.(posts := c.posts + 1))
  }

  /** What the last answer is passed on as: the stream or the frame it carries, unless it was refused. */
  function PassedOn<R>(a: Answer<R>, authorizes: bool, c: Context): Stream<R> {
    if a.NoAnswer? || Challenges(a, authorizes, c) || a.denied then Stream([], true)
    else
      match a.body
      case EventStream(stream) => if a.ok then stream else Stream([], true)
      case JsonBody(Some(frame)) => Stream([frame], false)
      case _ => Stream([], true)
  }

  /** A request reads exactly what its last answer carries, after the POSTs that its answers lead to. */
  lemma {:induction false} JsonRequestExact<R>(server: Server<R>, authorizes: bool, c: Context)
    ensures var last := LastPost(server, authorizes, c);
            var a := server(last.posts);
            JsonRequest(server, authorizes, c) ==
            (PassedOn(a, authorizes, last), last.(posts := last.posts + 1, authRetried := last.authRetried || Challenges(a, authorizes, last)))
    decreases Used(!c.authRetried) + Used(!c.versionRetried)
  {
    var a := server(c.posts);
    var next := Again(a, authorizes, c);
    if next.Some? {
      JsonRequestExact(server, authorizes, next.value.(posts := c.posts + 1));
    }
  }

  // ----- the bound -----

  /** Every POST beyond the first uses up one of the two retry flags. */
  lemma {:induction false} JsonRequestBudget<R>(server: Server<R>, authorizes: bool, c: Context)
    ensures var after := JsonRequest(server, authorizes, c).1;
            && (c.authRetried ==> after.authRetried) && (c.versionRetried ==> after.versionRetried)
            && c.posts < after.posts
            && after.posts <= c.posts + 1 + (Used(after.authRetried) - Used(c.authRetried)) + (Used(after.versionRetried) - Used(c.versionRetried))
    decreases Used(!c.versionRetried)
  {
    var (a, sent) := Respond(server, authorizes, c);
    assert sent.posts <= c.posts + 1 + (Used(sent.authRetried) - Used(c.authRetried));
    if !sent.versionRetried {
      JsonRequestBudget(server, authorizes, sent.(versionRetried := true));
    }
    hide Respond;
  }

  /** At most five POSTs for one transport request, whatever the server answers. */
  lemma AtMostFivePosts<R>(server: Server<R>, authorizes: bool, recover: bool, posts: nat)
    ensures var after := WithPolicy(server, authorizes, recover, Context(false, false, posts)).1;
            posts < after.posts <= posts + (if recover then 5 else 3)
  {
    var c := Context(false, false, posts);
    var (first, c1) := JsonRequest(server, authorizes, c);
    JsonRequestBudget(server, authorizes, c);
    var (refresh, c2) := JsonRequest(server, authorizes, c1);
    JsonRequestBudget(server, authorizes, c1);
    JsonRequestBudget(server, authorizes, c2);
    hide JsonRequest;
    hide Preserve;
    hide Restored;
    hide EndsInMismatch;
  }

  /** A server that makes the client use all five. */
  function Stubborn(n: nat): Answer<nat> {
    var plain := Answer(false, false, false, true, Unsupported);
    if n == 0 then plain.(challenged := true, granted := true)
    else if n == 1 then plain.(body := JsonBody(Some(ErrorFrame(0, false, true))))
    else if n == 2 then plain.(body := JsonBody(Some(ErrorFrame(1, true, false))))
    else plain.(body := JsonBody(Some(Success(n, true))))
  }

  /** The bound is reached. */
  lemma FivePostsHappen()
    ensures WithPolicy(Stubborn, true, true, Context(false, false, 0)) == (Stream([Success(4, true)], false), Context(true, true, 5))
  {
    var c1 := Context(true, false, 2);
    assert Respond(Stubborn, true, Context(false, false, 0)) == (Stubborn(1), c1);
    assert Respond(Stubborn, true, Context(true, true, 2)) == (Stubborn(2), Context(true, true, 3));
    assert JsonRequest(Stubborn, true, Context(true, true, 2)) == (Stream([ErrorFrame(1, true, false)], false), Context(true, true, 3));
    assert JsonRequest(Stubborn, true, Context(false, false, 0)) == JsonRequest(Stubborn, true, Context(true, true, 2));
    assert JsonRequest(Stubborn, true, Context(true, true, 3)) == (Stream([Success(3, true)], false), Context(true, true, 4));
    assert JsonRequest(Stubborn, true, Context(true, true, 4)) == (Stream([Success(4, true)], false), Context(true, true, 5));
    var retry: Stream<nat> := Stream([Success(4, true)], false);
    assert Mapped(retry.frames, ErrorFrame(1, true, false)) == retry.frames;
    assert Preserve(retry, ErrorFrame(1, true, false)) == retry;
    var first: Stream<nat> := Stream([ErrorFrame(1, true, false)], false);
    assert first.frames[..0] + retry.frames == retry.frames;
    hide JsonRequest;
    hide Respond;
  }

  // ----- what the caller reads -----

  /** Notifications, then one terminal frame; a stream without a terminal frame fails. */
  predicate Grammatical<R>(s: Stream<R>) {
    && (forall i :: 0 <= i < |s.frames| - 1 ==> s.frames[i].Note?)
    && (!s.failed ==> s.frames != [] && !s.frames[|s.frames| - 1].Note?)
  }

  /** The event-stream reader enforces the grammar on every stream it passes on, and a JSON body is one terminal frame. */
  ghost predicate WellBehaved<R>(server: Server<R>) {
    forall n :: server(n).Answer? ==>
      match server(n).body
      case Unsupported => true
      case EventStream(stream) => Grammatical(stream)
      case JsonBody(frame) => frame.Some? ==> !frame.value.Note?
  }

  lemma {:induction false} JsonRequestGrammatical<R>(server: Server<R>, authorizes: bool, c: Context)
    requires WellBehaved(server)
    ensures Grammatical(JsonRequest(server, authorizes, c).0)
    decreases Used(!c.versionRetried)
  {
    hide Grammatical;
    BrokenIsGrammatical<R>();
    var (a, sent) := Respond(server, authorizes, c);
    assert a.NoAnswer? || a == server(c.posts) || a == server(c.posts + 1);
    if a.Answer? && a.body.JsonBody? && a.body.frame.Some? {
      SingleIsGrammatical(a.body.frame.value);
    }
    if !sent.versionRetried {
      JsonRequestGrammatical(server, authorizes, sent.(versionRetried := true));
    }
    hide Respond;
  }

  lemma BrokenIsGrammatical<R>()
    ensures Grammatical(Broken<R>())
  {
  }

  lemma SingleIsGrammatical<R>(frame: Frame<R>)
    requires !frame.Note?
    ensures Grammatical(Stream([frame], false))
  {
  }

  lemma GrammaticalLast<R>(s: Stream<R>)
    requires Grammatical(s) && s.frames != []
    ensures LastTerminal(s.frames) == if s.frames[|s.frames| - 1].Note? then None else Some(s.frames[|s.frames| - 1])
  {
    if s.frames[|s.frames| - 1].Note? {
      NotesOnly(s.frames);
    }
  }

  lemma {:induction false} NotesOnly<R>(frames: seq<Frame<R>>)
    requires forall i :: 0 <= i < |frames| ==> frames[i].Note?
    ensures LastTerminal(frames) == None
  {
    if frames != [] {
      NotesOnly(frames[..|frames| - 1]);
    }
  }

  /** A retry ends in its own success or in the original error, never in an error of its own, and never in silence. */
  lemma RetryKeepsOriginalError<R>(retry: Stream<R>, original: Frame<R>)
    requires Grammatical(retry) && original.ErrorFrame?
    ensures var kept := Preserve(retry, original);
            && Grammatical(kept) && kept.frames != []
            && var last := kept.frames[|kept.frames| - 1];
               && (last == original || (last.Success? && retry.frames != [] && last == retry.frames[|retry.frames| - 1]))
               && (last == original ==> !kept.failed)
  {
    if retry.frames != [] { GrammaticalLast(retry); }
    hide LastTerminal;
  }

  /** The whole policy keeps the grammar; an error the caller sees is the answer to its own first call. */
  lemma PolicyIsGrammatical<R>(server: Server<R>, authorizes: bool, recover: bool, c: Context)
    requires WellBehaved(server)
    ensures var (s, _) := WithPolicy(server, authorizes, recover, c);
            && Grammatical(s)
            && (s.frames != [] && s.frames[|s.frames| - 1].ErrorFrame? ==>
                  var first := JsonRequest(server, authorizes, c).0;
                  first.frames != [] && s.frames[|s.frames| - 1] == first.frames[|first.frames| - 1])
  {
    hide *;
    var first := JsonRequest(server, authorizes, c).0;
    var refresh := JsonRequest(server, authorizes, JsonRequest(server, authorizes, c).1).0;
    var retry := JsonRequest(server, authorizes, JsonRequest(server, authorizes, JsonRequest(server, authorizes, c).1).1).0;
    JsonRequestGrammatical(server, authorizes, c);
    PolicyByCases(server, authorizes, recover, c);
    if recover && EndsInMismatch(first) && Restored(refresh) {
      JsonRequestGrammatical(server, authorizes, JsonRequest(server, authorizes, JsonRequest(server, authorizes, c).1).1);
      MismatchIsError(first);
      var original := first.frames[|first.frames| - 1];
      RetryKeepsOriginalError(retry, original);
      ReplacedTerminal(first, Preserve(retry, original));
    }
  }

  lemma MismatchIsError<R>(s: Stream<R>)
    requires EndsInMismatch(s)
    ensures s.frames != [] && s.frames[|s.frames| - 1].ErrorFrame?
  {
  }

  lemma PolicyByCases<R>(server: Server<R>, authorizes: bool, recover: bool, c: Context)
    ensures var (first, c1) := JsonRequest(server, authorizes, c);
            var (refresh, c2) := JsonRequest(server, authorizes, c1);
            var retry := JsonRequest(server, authorizes, c2).0;
            WithPolicy(server, authorizes, recover, c).0 ==
            if recover && EndsInMismatch(first) && Restored(refresh) then
              var kept := Preserve(retry, first.frames[|first.frames| - 1]);
              Stream(first.frames[..|first.frames| - 1] + kept.frames, kept.failed || first.failed)
            else first
  {
    hide JsonRequest;
    hide Preserve;
    hide Restored;
  }

  lemma ReplacedTerminal<R>(first: Stream<R>, kept: Stream<R>)
    requires Grammatical(first) && first.frames != [] && Grammatical(kept) && kept.frames != []
    ensures var frames := first.frames[..|first.frames| - 1] + kept.frames;
            && Grammatical(Stream(frames, kept.failed || first.failed))
            && frames != [] && frames[|frames| - 1] == kept.frames[|kept.frames| - 1]
  {
  }

  /** The last frame of a stream. */
  function Last<R>(s: Stream<R>): Option<Frame<R>> {
    if s.frames == [] then None else Some(s.frames[|s.frames| - 1])
  }

  /** A retry as it is passed on: every error is the original one, and the original one again if the retry failed with no terminal frame. */
  ghost predicate Kept<R>(retry: Stream<R>, original: Frame<R>, frames: seq<Frame<R>>, failed: bool) {
    && |retry.frames| <= |frames| <= |retry.frames| + 1
    && (forall i :: 0 <= i < |retry.frames| ==> frames[i] == if retry.frames[i].ErrorFrame? then original else retry.frames[i])
    && (|frames| > |retry.frames| ==> frames[|retry.frames|] == original && retry.failed)
    && (!retry.failed ==> |frames| == |retry.frames| && !failed)
    && (retry.failed && (Last(retry).None? || Last(retry).value.ErrorFrame?) ==> frames != [] && frames[|frames| - 1] == original && !failed)
    && (Last(retry).Some? && Last(retry).value.Success? ==> |frames| == |retry.frames| && failed == retry.failed)
  }

  /** What the caller reads of a cured mismatch: the first request up to its error and the retry as it is passed on. */
  ghost predicate Cured<R>(first: Stream<R>, retry: Stream<R>, s: Stream<R>)
    requires first.frames != []
  {
    var n, original := |first.frames| - 1, first.frames[|first.frames| - 1];
    && n <= |s.frames| && s.frames[..n] == first.frames[..n]
    && exists failed :: Kept(retry, original, s.frames[n..], failed) && s.failed == (failed || first.failed)
  }

  lemma CuredExact<R>(first: Stream<R>, retry: Stream<R>)
    requires first.frames != [] && first.frames[|first.frames| - 1].ErrorFrame?
    ensures var kept := Preserve(retry, first.frames[|first.frames| - 1]);
            Cured(first, retry, Stream(first.frames[..|first.frames| - 1] + kept.frames, kept.failed || first.failed))
  {
    var n, original := |first.frames| - 1, first.frames[|first.frames| - 1];
    var kept := Preserve(retry, original);
    PreserveExact(retry, original);
    hide Preserve;
    hide Kept;
    var frames := first.frames[..n] + kept.frames;
    assert frames[..n] == first.frames[..n] && frames[n..] == kept.frames;
  }

  /**
   The policy in terms of its up to three requests: only a mismatch in the last frame leads
   to a refresh, only a refresh that ends well in a restoring success leads to a retry; the
   caller reads the cured mismatch then, and otherwise just the first request.
   */
  lemma PolicyExact<R>(server: Server<R>, authorizes: bool, recover: bool, c: Context)
    ensures var (first, c1) := JsonRequest(server, authorizes, c);
            var (refresh, c2) := JsonRequest(server, authorizes, c1);
            var (retry, c3) := JsonRequest(server, authorizes, c2);
            var (s, after) := WithPolicy(server, authorizes, recover, c);
            var original := Last(first);
            if !recover || original.None? || !original.value.ErrorFrame? || !original.value.mismatch then s == first && after == c1
            else if refresh.failed || Last(refresh).None? || !Last(refresh).value.Success? || !Last(refresh).value.restores then s == first && after == c2
            else after == c3 && Cured(first, retry, s)
  {
    PolicyParts(server, authorizes, recover, c);
    var first := JsonRequest(server, authorizes, c).0;
    var retry := JsonRequest(server, authorizes, JsonRequest(server, authorizes, JsonRequest(server, authorizes, c).1).1).0;
    hide JsonRequest;
    hide WithPolicy;
    hide Preserve;
    hide Cured;
    if EndsInMismatch(first) {
      CuredExact(first, retry);
    }
  }

  lemma PreserveExact<R>(retry: Stream<R>, original: Frame<R>)
    requires original.ErrorFrame?
    ensures var kept := Preserve(retry, original);
            Kept(retry, original, kept.frames, kept.failed)
  {
    if retry.frames != [] && !retry.frames[|retry.frames| - 1].Note? {
      assert LastTerminal(retry.frames) == Some(retry.frames[|retry.frames| - 1]);
    }
    hide LastTerminal;
  }

  lemma PolicyParts<R>(server: Server<R>, authorizes: bool, recover: bool, c: Context)
    ensures var (first, c1) := JsonRequest(server, authorizes, c);
            var (refresh, c2) := JsonRequest(server, authorizes, c1);
            var (retry, c3) := JsonRequest(server, authorizes, c2);
            WithPolicy(server, authorizes, recover, c) ==
            if !recover || !EndsInMismatch(first) then (first, c1)
            else if !Restored(refresh) then (first, c2)
            else
              var kept := Preserve(retry, first.frames[|first.frames| - 1]);
              (Stream(first.frames[..|first.frames| - 1] + kept.frames, kept.failed || first.failed), c3)
  {
    hide JsonRequest;
    hide Preserve;
    hide Restored;
  }

  // ----- the flags as the source holds them -----

  /** The request context: two flags that are read and set in one step. */
  class RequestContext {
    var authRetried: bool
    var versionRetried: bool
    var posts: nat

    function View(): Context
      reads this
    {
      Context(authRetried, versionRetried, posts)
    }

    constructor (posts: nat)
      ensures View() == Context(false, false, posts)
    {
      authRetried, versionRetried := false, false;
      this.posts := posts;
    }

    method Post<R>(server: Server<R>) returns (answer: Answer<R>)
      modifies this
      ensures View() == old(View()).(posts := old(posts) + 1) && answer == server(old(posts))
    {
      answer := server(posts);
      posts := posts + 1;
    }

    /** The POST and, after a challenge, at most one more. */
    method AnsweredPost<R>(server: Server<R>, authorizes: bool) returns (answer: Answer<R>)
      modifies this
      ensures (answer, View()) == Respond(server, authorizes, old(View()))
    {
      answer := Post(server);
      if answer.Answer? && answer.challenged && authorizes {
        var used := authRetried;
        authRetried := true;
        if !used {
          if !answer.granted {
            return NoAnswer;
          }
          answer := Post(server);
        }
      }
    }

    /** `jsonRequest`. */
    method Request<R>(server: Server<R>, authorizes: bool) returns (stream: Stream<R>)
      modifies this
      ensures (stream, View()) == JsonRequest(server, authorizes, old(View()))
      decreases Used(!versionRetried)
    {
      var answer := AnsweredPost(server, authorizes);
      if answer.NoAnswer? || answer.denied || answer.body.Unsupported? {
        return Broken();
      }
      if answer.body.EventStream? {
        return if answer.ok then answer.body.stream else Broken();
      }
      if answer.body.frame.None? {
        return Broken();
      }
      var frame := answer.body.frame.value;
      if frame.ErrorFrame? && frame.version {
        var used := versionRetried;
        versionRetried := true;
        if !used {
          stream := Request(server, authorizes);
          return;
        }
      }
      return Stream([frame], false);
    }

    /** `requestWithPolicy`. */
    method RequestWithPolicy<R>(server: Server<R>, authorizes: bool, recover: bool) returns (stream: Stream<R>)
      modifies this
      ensures (stream, View()) == WithPolicy(server, authorizes, recover, old(View()))
    {
      hide JsonRequest;
      stream := Request(server, authorizes);
      if !recover || !EndsInMismatch(stream) {
        return;
      }
      var original := stream.frames[|stream.frames| - 1];
      var refresh := Request(server, authorizes);
      if !Restored(refresh) {
        return;
      }
      var retry := Request(server, authorizes);
      var kept := PreserveOriginal(retry, original);
      stream := Stream(stream.frames[..|stream.frames| - 1] + kept.frames, kept.failed || stream.failed);
    }
  }

  datatype Seen = Nothing | Original | Succeeded

  function SeenOf<R>(last: Option<Frame<R>>): Seen {
    match last
    case None => Nothing
    case Some(frame) => if frame.Success? then Succeeded else Original
  }

  /** `preserveOriginalRetryFailure`: one variable remembers the last terminal frame passed on. */
  method PreserveOriginal<R>(retry: Stream<R>, original: Frame<R>) returns (kept: Stream<R>)
    ensures kept == Preserve(retry, original)
  {
    var terminal := Nothing;
    var frames: seq<Frame<R>> := [];
    for index := 0 to |retry.frames|
      invariant frames == Mapped(retry.frames[..index], original)
      invariant terminal == SeenOf(LastTerminal(retry.frames[..index]))
    {
      var frame := retry.frames[index];
      assert retry.frames[..index + 1] == retry.frames[..index] + [frame];
      assert retry.frames[..index + 1][..index] == retry.frames[..index];
      if frame.Success? {
        terminal := Succeeded;
        frames := frames + [frame];
      } else if frame.ErrorFrame? {
        terminal := Original;
        frames := frames + [original];
      } else {
        frames := frames + [frame];
      }
    }
    assert retry.frames[..|retry.frames|] == retry.frames;
    if !retry.failed {
      return Stream(frames, false);
    }
    LastIsTerminal(retry.frames);
    kept := if terminal.Succeeded? then Stream(frames, true)
            else if terminal.Original? then Stream(frames, false)
            else Stream(frames + [original], false);
  }

  lemma {:induction false} LastIsTerminal<R>(frames: seq<Frame<R>>)
    ensures LastTerminal(frames).Some? ==> !LastTerminal(frames).value.Note?
  {
    if frames != [] {
      LastIsTerminal(frames[..|frames| - 1]);
    }
  }
}
