/**
 The worklist of src/JsonSchemaRuntime.ts that fetches every document a schema refers to,
 breadth first, within its budgets of depth, bytes and redirects.
 */
module SchemaResolution {
  import opened Common
  import opened CanonicalJson
  import opened SchemaReferences

  /** The document name of a root without `$id`. */
  const ROOT_URI: Uri := Ascii("urn:mcp-effect-sdk:json-schema:root")

  datatype Budget = Budget(maxDepth: nat, maxBytes: nat, maxRedirects: nat)

  /** What the resolver returns; `content` is None when the bytes do not decode as a schema. */
  datatype Response = Response(length: nat, finalUri: Uri, redirects: seq<Uri>, content: Option<Schema>)

  type Resolver = Uri -> Option<Response>

  datatype Pending = Pending(uri: Uri, depth: nat)

  /** A resolved document with what its acceptance computed. */
  datatype Fetched = Fetched(
    requestUri: Uri, aliases: seq<Uri>, schema: Schema, response: Response, base: Option<Uri>, references: seq<Uri>, depth: nat)

  function Names(d: Fetched): set<Uri> {
    {d.requestUri} + set a | a in d.aliases
  }

  predicate AllAllowed(u: Urls, uris: seq<Uri>) {
    forall i :: 0 <= i < |uris| ==> u.allowed(uris[i])
  }

  function DocumentsOf(u: Urls, uris: seq<Uri>): seq<Uri> {
    seq(|uris|, i requires 0 <= i < |uris| => u.document(uris[i]))
  }

  function Except(uris: seq<Uri>, uri: Uri): seq<Uri> {
    if uris == [] then [] else (if uris[0] == uri then [] else [uris[0]]) + Except(uris[1..], uri)
  }

  /** The other names a document answers to, each once. */
  function Aliases(u: Urls, requestUri: Uri, response: Response, base: Option<Uri>): seq<Uri> {
    Merge([], Except(DocumentsOf(u, response.redirects + [response.finalUri] + (if base.Some? then [base.value] else [])), requestUri))
  }

  /** A text of no bytes is not JSON. */
  function Decoded(response: Response): Option<Schema> {
    if response.length == 0 then None else response.content
  }

  /** Everything the loop does with one response before it goes on: the checks in their order, the aliases, the references. */
  function Accept(u: Urls, b: Budget, next: Pending, response: Response, totalBytes: nat, totalRedirects: nat): Result<Fetched, Failure> {
    if !AllAllowed(u, response.redirects) || !u.allowed(response.finalUri) then Err(UriNotAllowed)
    else if totalRedirects + |response.redirects| > b.maxRedirects then Err(RedirectsExceeded)
    else if totalBytes + response.length > b.maxBytes then Err(BytesExceeded)
    else
      match Decoded(response)
      case None => Err(BadDocument)
      case Some(schema) =>
        match SchemaBase(u, schema, Some(response.finalUri))
        case Err(failure) => Err(failure)
        case Ok(base) =>
          match References(u, schema, base, Within(u, base, u.document(response.finalUri)))
          case Err(failure) => Err(failure)
          case Ok(references) =>
            Ok(Fetched(next.uri, Aliases(u, next.uri, response, base), schema, response, base, references, next.depth))
  }

  // ----- the worklist -----

  datatype Work = Work(queue: seq<Pending>, seen: set<Uri>, documents: seq<Fetched>)

  function PendingAt(uris: seq<Uri>, depth: nat): seq<Pending> {
    seq(|uris|, i requires 0 <= i < |uris| => Pending(uris[i], depth))
  }

  function Start(roots: seq<Uri>): Work {
    Work(PendingAt(roots, 1), {}, [])
  }

  function Unseen(uris: seq<Uri>, seen: set<Uri>): (r: seq<Uri>)
    ensures forall x :: x in r <==> x in uris && x !in seen
  {
    if uris == [] then []
    else
      Head(uris);
      (if uris[0] in seen then [] else [uris[0]]) + Unseen(uris[1..], seen)
  }

  function Skip(w: Work): (next: Work)
    requires w.queue != []
    ensures |next.queue| == |w.queue| - 1 && next.documents == w.documents && next.seen == w.seen
  {
    w.(queue := w.queue[1..])
  }

  function Extend(w: Work, d: Fetched): (next: Work)
    requires w.queue != []
    ensures next.documents == w.documents + [d]
  {
    var seen := w.seen + Names(d);
    Work(w.queue[1..] + PendingAt(Unseen(d.references, seen), d.depth + 1), seen, w.documents + [d])
  }

  function Bytes(documents: seq<Fetched>): nat {
    if documents == [] then 0 else Bytes(documents[..|documents| - 1]) + documents[|documents| - 1].response.length
  }

  function Redirects(documents: seq<Fetched>): nat {
    if documents == [] then 0 else Redirects(documents[..|documents| - 1]) + |documents[|documents| - 1].response.redirects|
  }

  // ----- what the worklist keeps -----

  /** A document among the first fetched ones, no deeper than `depth`, answers to the name. */
  predicate Covered(documents: seq<Fetched>, uri: Uri, depth: nat) {
    exists i :: 0 <= i < |documents| && documents[i].depth <= depth && uri in Names(documents[i])
  }

  /** A name one level below the root or below some document. */
  predicate Justified(roots: seq<Uri>, documents: seq<Fetched>, uri: Uri, depth: nat) {
    || (depth == 1 && uri in roots)
    || exists i :: 0 <= i < |documents| && documents[i].depth + 1 == depth && uri in documents[i].references
  }

  predicate Known(w: Work, uri: Uri, depth: nat) {
    Covered(w.documents, uri, depth) || Pending(uri, depth) in w.queue
  }

  predicate Answered(documents: seq<Fetched>, uri: Uri) {
    exists i :: 0 <= i < |documents| && uri in Names(documents[i])
  }

  /** The seen names are those some document answers to. */
  predicate SeenFits(w: Work) {
    && (forall i :: 0 <= i < |w.documents| ==> Names(w.documents[i]) <= w.seen)
    && (forall x {:trigger Answered(w.documents, x)} :: x in w.seen ==> Answered(w.documents, x))
  }

  /** No document was requested under a name an earlier one answers to. */
  predicate Fresh(documents: seq<Fetched>) {
    forall i, j :: 0 <= i < j < |documents| ==> documents[j].requestUri !in Names(documents[i])
  }

  predicate Chained(roots: seq<Uri>, documents: seq<Fetched>) {
    forall j :: 0 <= j < |documents| ==> Justified(roots, documents[..j], documents[j].requestUri, documents[j].depth)
  }

  /** The document is what its bytes decode to; its names and references are those of the code. */
  predicate Faithful(u: Urls, d: Fetched) {
    && Decoded(d.response) == Some(d.schema)
    && SchemaBase(u, d.schema, Some(d.response.finalUri)) == Ok(d.base)
    && d.aliases == Aliases(u, d.requestUri, d.response, d.base)
    && References(u, d.schema, d.base, Within(u, d.base, u.document(d.response.finalUri))) == Ok(d.references)
    && AllAllowed(u, d.response.redirects) && u.allowed(d.response.finalUri)
  }

  predicate WithinBudget(u: Urls, b: Budget, documents: seq<Fetched>) {
    forall i :: 0 <= i < |documents| ==>
      1 <= documents[i].depth <= b.maxDepth && u.allowed(documents[i].requestUri) && documents[i].response.length >= 1 && Faithful(u, documents[i])
  }

  /** The queue is in order of depth, spans two levels, and no document is deeper than its head. */
  predicate QueueFits(roots: seq<Uri>, w: Work) {
    && (forall k {:trigger Justified(roots, w.documents, w.queue[k].uri, w.queue[k].depth)} ::
          0 <= k < |w.queue| ==> Justified(roots, w.documents, w.queue[k].uri, w.queue[k].depth))
    && (forall k :: 0 <= k < |w.queue| ==> w.queue[0].depth <= w.queue[k].depth <= w.queue[0].depth + 1)
    && (forall k, l :: 0 <= k < l < |w.queue| ==> w.queue[k].depth <= w.queue[l].depth)
    && (forall i, k :: 0 <= i < |w.documents| && 0 <= k < |w.queue| ==> w.documents[i].depth <= w.queue[k].depth)
  }

  /** Every reference met so far is answered or waits, one level below the document it is in. */
  predicate Followed(roots: seq<Uri>, w: Work) {
    && (forall x :: x in roots ==> Known(w, x, 1))
    && (forall i, x :: 0 <= i < |w.documents| && x in w.documents[i].references ==> Known(w, x, w.documents[i].depth + 1))
  }

  predicate Inv(u: Urls, b: Budget, roots: seq<Uri>, w: Work) {
    && SeenFits(w) && Fresh(w.documents) && Chained(roots, w.documents) && WithinBudget(u, b, w.documents)
    && QueueFits(roots, w) && Followed(roots, w)
  }

  lemma StartInv(u: Urls, b: Budget, roots: seq<Uri>)
    ensures Inv(u, b, roots, Start(roots))
  {
    hide Faithful;
    var w := Start(roots);
    forall x | x in roots ensures Known(w, x, 1) {
      var k :| 0 <= k < |roots| && roots[k] == x;
      assert w.queue[k] == Pending(x, 1);
    }
  }

  /** Dropping a name already answered loses no reference. */
  lemma SkipKeeps(u: Urls, b: Budget, roots: seq<Uri>, w: Work)
    requires Inv(u, b, roots, w) && w.queue != [] && w.queue[0].uri in w.seen
    ensures Inv(u, b, roots, Skip(w))
  {
    hide Faithful;
    hide Names;
    hide Justified;
    hide Known;
    SkipQueue(roots, w);
    forall x, depth: nat | Known(w, x, depth) ensures Known(Skip(w), x, depth) {
      SkipKnown(roots, w, x, depth);
    }
    hide QueueFits;
    hide Chained;
    hide WithinBudget;
  }

  lemma SkipQueue(roots: seq<Uri>, w: Work)
    requires QueueFits(roots, w) && w.queue != []
    ensures QueueFits(roots, Skip(w))
  {
    hide Justified;
    assert forall k :: 0 <= k < |w.queue[1..]| ==> w.queue[1..][k] == w.queue[k + 1];
  }

  lemma SkipKnown(roots: seq<Uri>, w: Work, uri: Uri, depth: nat)
    requires QueueFits(roots, w) && SeenFits(w) && w.queue != [] && w.queue[0].uri in w.seen && Known(w, uri, depth)
    ensures Known(Skip(w), uri, depth)
  {
    hide Justified;
    hide Names;
    if Pending(uri, depth) == w.queue[0] {
      assert Answered(w.documents, uri);
      var i :| 0 <= i < |w.documents| && uri in Names(w.documents[i]);
      assert w.documents[i].depth <= w.queue[0].depth;
    } else if Pending(uri, depth) in w.queue {
      Head(w.queue);
    }
  }

  lemma CoveredStill(documents: seq<Fetched>, d: Fetched, uri: Uri, depth: nat)
    requires Covered(documents, uri, depth)
    ensures Covered(documents + [d], uri, depth)
  {
    var i :| 0 <= i < |documents| && documents[i].depth <= depth && uri in Names(documents[i]);
    assert (documents + [d])[i] == documents[i];
  }

  lemma JustifiedStill(roots: seq<Uri>, documents: seq<Fetched>, d: Fetched, uri: Uri, depth: nat)
    requires Justified(roots, documents, uri, depth)
    ensures Justified(roots, documents + [d], uri, depth)
  {
    if !(depth == 1 && uri in roots) {
      var i :| 0 <= i < |documents| && documents[i].depth + 1 == depth && uri in documents[i].references;
      assert (documents + [d])[i] == documents[i];
    }
  }

  lemma NewIsCovered(documents: seq<Fetched>, d: Fetched, uri: Uri, depth: nat)
    requires uri in Names(d) && d.depth <= depth
    ensures Covered(documents + [d], uri, depth)
  {
    assert (documents + [d])[|documents|] == d;
  }

  lemma NewJustifies(roots: seq<Uri>, documents: seq<Fetched>, d: Fetched, uri: Uri)
    requires uri in d.references
    ensures Justified(roots, documents + [d], uri, d.depth + 1)
  {
    assert (documents + [d])[|documents|] == d;
  }

  lemma SeenGrows(w: Work, d: Fetched)
    requires SeenFits(w) && w.queue != []
    ensures SeenFits(Extend(w, d))
  {
    hide Names;
    var n := Extend(w, d);
    forall x | x in n.seen ensures Answered(n.documents, x) {
      if x in w.seen {
        assert Answered(w.documents, x);
        var i :| 0 <= i < |w.documents| && x in Names(w.documents[i]);
        assert n.documents[i] == w.documents[i];
      } else {
        assert n.documents[|w.documents|] == d;
      }
    }
  }

  lemma DocumentsGrow(u: Urls, b: Budget, roots: seq<Uri>, w: Work, d: Fetched)
    requires Inv(u, b, roots, w) && w.queue != [] && Accepted(u, b, w, d)
    ensures var documents := w.documents + [d];
            Fresh(documents) && Chained(roots, documents) && WithinBudget(u, b, documents)
  {
    hide Faithful;
    hide Names;
    hide Justified;
    var documents := w.documents + [d];
    forall j | 0 <= j < |documents| ensures Justified(roots, documents[..j], documents[j].requestUri, documents[j].depth) {
      if j < |w.documents| {
        assert documents[..j] == w.documents[..j];
      } else {
        assert documents[..j] == w.documents;
      }
    }
    forall i, j | 0 <= i < j < |documents| ensures documents[j].requestUri !in Names(documents[i]) {
      if j == |w.documents| { assert Names(w.documents[i]) <= w.seen; }
    }
  }

  lemma QueueGrows(roots: seq<Uri>, w: Work, d: Fetched)
    requires QueueFits(roots, w) && w.queue != [] && d.depth == w.queue[0].depth
    ensures QueueFits(roots, Extend(w, d))
  {
    var n := Extend(w, d);
    var rest, added := w.queue[1..], PendingAt(Unseen(d.references, w.seen + Names(d)), d.depth + 1);
    forall k | 0 <= k < |n.queue| ensures Justified(roots, n.documents, n.queue[k].uri, n.queue[k].depth) {
      if k < |rest| {
        assert n.queue[k] == w.queue[k + 1];
        JustifiedStill(roots, w.documents, d, n.queue[k].uri, n.queue[k].depth);
      } else {
        assert n.queue[k] == added[k - |rest|];
        NewJustifies(roots, w.documents, d, n.queue[k].uri);
      }
    }
    hide Justified;
    hide Unseen;
    assert forall k :: 0 <= k < |rest| ==> n.queue[k] == w.queue[k + 1];
    assert forall k :: |rest| <= k < |n.queue| ==> n.queue[k].depth == d.depth + 1;
  }

  lemma KnownStill(w: Work, d: Fetched, uri: Uri, depth: nat)
    requires w.queue != [] && Known(w, uri, depth) && d.depth == w.queue[0].depth && d.requestUri == w.queue[0].uri
    ensures Known(Extend(w, d), uri, depth)
  {
    if Covered(w.documents, uri, depth) {
      CoveredStill(w.documents, d, uri, depth);
    } else if Pending(uri, depth) == w.queue[0] {
      NewIsCovered(w.documents, d, uri, depth);
    } else {
      Head(w.queue);
      assert Pending(uri, depth) in w.queue[1..];
    }
  }

  lemma FollowedGrows(roots: seq<Uri>, w: Work, d: Fetched)
    requires Followed(roots, w) && SeenFits(w) && QueueFits(roots, w) && w.queue != []
    requires d.depth == w.queue[0].depth && d.requestUri == w.queue[0].uri
    ensures Followed(roots, Extend(w, d))
  {
    hide Known;
    hide Extend;
    hide QueueFits;
    hide SeenFits;
    var n := Extend(w, d);
    forall x | x in roots ensures Known(n, x, 1) {
      KnownStill(w, d, x, 1);
    }
    forall i, x | 0 <= i < |n.documents| && x in n.documents[i].references ensures Known(n, x, n.documents[i].depth + 1) {
      if i < |w.documents| {
        KnownStill(w, d, x, w.documents[i].depth + 1);
      } else {
        NewReferenceKnown(roots, w, d, x);
      }
    }
  }

  lemma NewReferenceKnown(roots: seq<Uri>, w: Work, d: Fetched, x: Uri)
    requires SeenFits(w) && QueueFits(roots, w) && w.queue != [] && d.depth == w.queue[0].depth && x in d.references
    ensures Known(Extend(w, d), x, d.depth + 1)
  {
    hide Names;
    hide SeenFits;
    hide QueueFits;
    hide Covered;
    hide Extend;
    if x in Names(d) {
      NewIsCovered(w.documents, d, x, d.depth + 1);
    } else if x in w.seen {
      SeenIsCovered(roots, w, x);
      CoveredDeeper(w.documents, x, w.queue[0].depth);
      CoveredStill(w.documents, d, x, d.depth + 1);
    } else {
      UnseenIsQueued(w, d, x);
    }
  }

  lemma SeenIsCovered(roots: seq<Uri>, w: Work, x: Uri)
    requires SeenFits(w) && QueueFits(roots, w) && w.queue != [] && x in w.seen
    ensures Covered(w.documents, x, w.queue[0].depth)
  {
    hide Names;
    hide Justified;
    assert Answered(w.documents, x);
    var i :| 0 <= i < |w.documents| && x in Names(w.documents[i]);
    assert w.documents[i].depth <= w.queue[0].depth;
  }

  lemma CoveredDeeper(documents: seq<Fetched>, x: Uri, depth: nat)
    requires Covered(documents, x, depth)
    ensures Covered(documents, x, depth + 1)
  {
    hide Names;
  }

  lemma UnseenIsQueued(w: Work, d: Fetched, x: Uri)
    requires w.queue != [] && x in d.references && x !in w.seen + Names(d)
    ensures Pending(x, d.depth + 1) in Extend(w, d).queue
  {
    hide Names;
    var added := Unseen(d.references, w.seen + Names(d));
    hide Unseen;
    var k :| 0 <= k < |added| && added[k] == x;
    assert PendingAt(added, d.depth + 1)[k] == Pending(x, d.depth + 1);
  }

  /** What the checks before the push guarantee about the next document. */
  predicate Accepted(u: Urls, b: Budget, w: Work, d: Fetched)
    requires w.queue != []
  {
    && d.requestUri == w.queue[0].uri && d.depth == w.queue[0].depth
    && d.requestUri !in w.seen && 1 <= d.depth <= b.maxDepth && u.allowed(d.requestUri) && d.response.length >= 1 && Faithful(u, d)
  }

  lemma ExtendKeeps(u: Urls, b: Budget, roots: seq<Uri>, w: Work, d: Fetched)
    requires Inv(u, b, roots, w) && w.queue != [] && Accepted(u, b, w, d)
    ensures Inv(u, b, roots, Extend(w, d))
  {
    SeenGrows(w, d);
    DocumentsGrow(u, b, roots, w, d);
    QueueGrows(roots, w, d);
    FollowedGrows(roots, w, d);
    hide SeenFits;
    hide Fresh;
    hide Chained;
    hide WithinBudget;
    hide QueueFits;
    hide Followed;
  }

  lemma PendingDepth(u: Urls, b: Budget, roots: seq<Uri>, w: Work)
    requires Inv(u, b, roots, w) && w.queue != []
    ensures w.queue[0].depth >= 1
  {
    assert Justified(roots, w.documents, w.queue[0].uri, w.queue[0].depth);
  }

  // ----- the result -----

  /** Every reference of the root, and of every document, is a name some document answers to, at most one level further down. */
  predicate Closed(roots: seq<Uri>, documents: seq<Fetched>) {
    && (forall x :: x in roots ==> Covered(documents, x, 1))
    && (forall i, x :: 0 <= i < |documents| && x in documents[i].references ==> Covered(documents, x, documents[i].depth + 1))
  }

  lemma EmptyQueueIsClosed(u: Urls, b: Budget, roots: seq<Uri>, w: Work)
    requires Inv(u, b, roots, w) && w.queue == []
    ensures Closed(roots, w.documents)
  {
    assert forall x, depth: nat :: Known(w, x, depth) ==> Covered(w.documents, x, depth);
    hide Known;
    hide Covered;
  }

  lemma {:induction false} EachTakesBytes(u: Urls, b: Budget, documents: seq<Fetched>)
    requires WithinBudget(u, b, documents)
    ensures |documents| <= Bytes(documents)
  {
    hide Faithful;
    if documents != [] {
      EachTakesBytes(u, b, documents[..|documents| - 1]);
    }
  }

  lemma Appended(documents: seq<Fetched>, d: Fetched)
    ensures Bytes(documents + [d]) == Bytes(documents) + d.response.length && Redirects(documents + [d]) == Redirects(documents) + |d.response.redirects|
  {
    assert (documents + [d])[..|documents|] == documents;
  }

  /** A request that may be made: new, allowed, and not too deep. */
  predicate Requestable(u: Urls, b: Budget, w: Work)
    requires w.queue != []
  {
    w.queue[0].uri !in w.seen && w.queue[0].depth <= b.maxDepth && u.allowed(w.queue[0].uri)
  }

  lemma AcceptShape(u: Urls, b: Budget, next: Pending, response: Response, totalBytes: nat, totalRedirects: nat)
    requires Accept(u, b, next, response, totalBytes, totalRedirects).Ok?
    ensures var d := Accept(u, b, next, response, totalBytes, totalRedirects).value;
            && d.requestUri == next.uri && d.depth == next.depth && d.response == response && d.response.length >= 1 && Faithful(u, d)
            && totalBytes + d.response.length <= b.maxBytes && totalRedirects + |d.response.redirects| <= b.maxRedirects
  {
    hide References;
    hide SchemaBase;
    hide Aliases;
    hide AllAllowed;
  }

  lemma AcceptedFits(u: Urls, b: Budget, roots: seq<Uri>, w: Work, response: Response, totalBytes: nat, totalRedirects: nat)
    requires Inv(u, b, roots, w) && w.queue != [] && Requestable(u, b, w)
    requires Accept(u, b, w.queue[0], response, totalBytes, totalRedirects).Ok?
    ensures var d := Accept(u, b, w.queue[0], response, totalBytes, totalRedirects).value;
            && Accepted(u, b, w, d) && d.requestUri == w.queue[0].uri && d.response == response
            && totalBytes + d.response.length <= b.maxBytes && totalRedirects + |d.response.redirects| <= b.maxRedirects
  {
    hide Faithful;
    hide Inv;
    hide Accept;
    PendingDepth(u, b, roots, w);
    AcceptShape(u, b, w.queue[0], response, totalBytes, totalRedirects);
  }

  /** The calls that brought the documents in hand. */
  function CallsOf(documents: seq<Fetched>): seq<Pending> {
    seq(|documents|, i requires 0 <= i < |documents| => Pending(documents[i].requestUri, documents[i].depth))
  }

  /** A URI the resolver may be asked for: allowed, within the depth, one level below the root or a document in hand. */
  predicate CallFits(u: Urls, b: Budget, roots: seq<Uri>, documents: seq<Fetched>, call: Pending) {
    u.allowed(call.uri) && 1 <= call.depth <= b.maxDepth && Justified(roots, documents, call.uri, call.depth)
  }

  /** No URI twice. */
  predicate NoRepeat(calls: seq<Pending>) {
    forall i, j :: 0 <= i < j < |calls| ==> calls[i].uri != calls[j].uri
  }

  /** Whenever resolution stops: the calls made, the last one possibly in vain, and the documents they brought. */
  predicate Journal(u: Urls, b: Budget, roots: seq<Uri>, rootBytes: nat, documents: seq<Fetched>, calls: seq<Pending>) {
    && CallsOf(documents) <= calls && |calls| <= |documents| + 1
    && NoRepeat(calls)
    && (forall k :: 0 <= k < |calls| ==> CallFits(u, b, roots, documents[..k], calls[k]))
    && Fresh(documents) && WithinBudget(u, b, documents)
    && rootBytes + |documents| <= rootBytes + Bytes(documents) <= b.maxBytes && Redirects(documents) <= b.maxRedirects
  }

  lemma JournalSoFar(u: Urls, b: Budget, roots: seq<Uri>, w: Work, rootBytes: nat)
    requires Inv(u, b, roots, w)
    requires rootBytes + Bytes(w.documents) <= b.maxBytes && Redirects(w.documents) <= b.maxRedirects
    ensures Journal(u, b, roots, rootBytes, w.documents, CallsOf(w.documents))
    ensures w.queue != [] && Requestable(u, b, w) ==> Journal(u, b, roots, rootBytes, w.documents, CallsOf(w.documents) + [w.queue[0]])
  {
    hide *;
    Parts(u, b, roots, w);
    CallsDiffer(w.documents);
    EachTakesBytes(u, b, w.documents);
    JournalOfDocuments(u, b, roots, rootBytes, w.documents);
    if w.queue != [] && Requestable(u, b, w) {
      NextCallFits(u, b, roots, w);
      JournalGrows(u, b, roots, rootBytes, w.documents, w.queue[0]);
    }
  }

  lemma JournalOfDocuments(u: Urls, b: Budget, roots: seq<Uri>, rootBytes: nat, documents: seq<Fetched>)
    requires Fresh(documents) && Chained(roots, documents) && WithinBudget(u, b, documents) && NoRepeat(CallsOf(documents))
    requires |documents| <= Bytes(documents) && rootBytes + Bytes(documents) <= b.maxBytes && Redirects(documents) <= b.maxRedirects
    ensures Journal(u, b, roots, rootBytes, documents, CallsOf(documents))
  {
    hide CallFits;
    hide WithinBudget;
    hide Fresh;
    hide Chained;
    hide Bytes;
    hide Redirects;
    forall k | 0 <= k < |documents| ensures CallFits(u, b, roots, documents[..k], CallsOf(documents)[k]) {
      CallOfDocument(u, b, roots, documents, k);
    }
  }

  lemma JournalGrows(u: Urls, b: Budget, roots: seq<Uri>, rootBytes: nat, documents: seq<Fetched>, call: Pending)
    requires Journal(u, b, roots, rootBytes, documents, CallsOf(documents))
    requires CallFits(u, b, roots, documents, call) && NoRepeat(CallsOf(documents) + [call])
    ensures Journal(u, b, roots, rootBytes, documents, CallsOf(documents) + [call])
  {
    hide CallFits;
    hide WithinBudget;
    hide Fresh;
    hide Bytes;
    hide Redirects;
    assert documents[..|documents|] == documents;
  }

  lemma CallsDiffer(documents: seq<Fetched>)
    requires Fresh(documents)
    ensures NoRepeat(CallsOf(documents))
  {
    forall i, j | 0 <= i < j < |documents| ensures documents[i].requestUri != documents[j].requestUri {
      assert documents[i].requestUri in Names(documents[i]);
    }
  }

  lemma CallOfDocument(u: Urls, b: Budget, roots: seq<Uri>, documents: seq<Fetched>, k: nat)
    requires Chained(roots, documents) && WithinBudget(u, b, documents) && k < |documents|
    ensures CallFits(u, b, roots, documents[..k], CallsOf(documents)[k])
  {
    hide Justified;
    hide Faithful;
    assert Justified(roots, documents[..k], documents[k].requestUri, documents[k].depth);
  }

  lemma NextCallFits(u: Urls, b: Budget, roots: seq<Uri>, w: Work)
    requires Inv(u, b, roots, w) && w.queue != [] && Requestable(u, b, w) && NoRepeat(CallsOf(w.documents))
    ensures CallFits(u, b, roots, w.documents, w.queue[0])
    ensures NoRepeat(CallsOf(w.documents) + [w.queue[0]])
  {
    PendingDepth(u, b, roots, w);
    Parts(u, b, roots, w);
    assert Justified(roots, w.documents, w.queue[0].uri, w.queue[0].depth);
    hide Justified;
    hide Inv;
    forall i | 0 <= i < |w.documents| ensures w.documents[i].requestUri != w.queue[0].uri {
      assert w.documents[i].requestUri in Names(w.documents[i]);
      assert Names(w.documents[i]) <= w.seen;
    }
    hide Names;
    hide SeenFits;
  }

  // ----- the loop -----

  /** How resolution ends: `calls` lists what the resolver was asked for, `documents` what was accepted. */
  datatype Outcome = Outcome(failure: Option<Failure>, documents: seq<Fetched>, calls: seq<Pending>)

  /** What the loop does with a reference not seen yet: it stops, before or after asking the resolver, or has a document to push. */
  datatype Turn = Stop(failure: Failure, asked: bool) | Push(document: Fetched)

  function Take(u: Urls, b: Budget, resolver: Option<Resolver>, next: Pending, totalBytes: nat, totalRedirects: nat): Turn {
    if next.depth > b.maxDepth then Stop(DepthExceeded, false)
    else if resolver.None? then Stop(ResolutionDisabled, false)
    else if !u.allowed(next.uri) then Stop(UriNotAllowed, false)
    else
      match resolver.value(next.uri)
      case None => Stop(ResolverFailed, true)
      case Some(response) =>
        match Accept(u, b, next, response, totalBytes, totalRedirects)
        case Err(failure) => Stop(failure, true)
        case Ok(document) => Push(document)
  }

  lemma TakeShape(u: Urls, b: Budget, resolver: Option<Resolver>, next: Pending, totalBytes: nat, totalRedirects: nat)
    requires Take(u, b, resolver, next, totalBytes, totalRedirects).Push?
    ensures var d := Take(u, b, resolver, next, totalBytes, totalRedirects).document;
            && resolver.Some? && resolver.value(next.uri) == Some(d.response) && u.allowed(next.uri) && next.depth <= b.maxDepth
            && Accept(u, b, next, d.response, totalBytes, totalRedirects) == Ok(d)
            && d.response.length >= 1 && totalBytes + d.response.length <= b.maxBytes
            && totalRedirects + |d.response.redirects| <= b.maxRedirects
  {
    AcceptShape(u, b, next, resolver.value(next.uri).value, totalBytes, totalRedirects);
    hide Accept;
    hide Faithful;
  }

  /** A document is pushed exactly when its reference is within depth and allowed, the resolver answers, every URI of the answer is allowed, both budgets hold, and its bytes are a schema in which everything joins. */
  lemma TakeExactly(u: Urls, b: Budget, resolver: Option<Resolver>, next: Pending, totalBytes: nat, totalRedirects: nat)
    ensures var turn := Take(u, b, resolver, next, totalBytes, totalRedirects);
            && (turn == Stop(DepthExceeded, false) <==> next.depth > b.maxDepth)
            && (turn == Stop(ResolutionDisabled, false) <==> next.depth <= b.maxDepth && resolver.None?)
            && (turn == Stop(UriNotAllowed, false) <==> next.depth <= b.maxDepth && resolver.Some? && !u.allowed(next.uri))
            && (turn == Stop(ResolverFailed, true) <==>
                  next.depth <= b.maxDepth && resolver.Some? && u.allowed(next.uri) && resolver.value(next.uri).None?)
            && (next.depth <= b.maxDepth && resolver.Some? && u.allowed(next.uri) && resolver.value(next.uri).Some? ==>
                  AnswerDecides(u, b, next, resolver.value(next.uri).value, totalBytes, totalRedirects, turn))
  {
    if next.depth <= b.maxDepth && resolver.Some? && u.allowed(next.uri) && resolver.value(next.uri).Some? {
      AcceptExactly(u, b, next, resolver.value(next.uri).value, totalBytes, totalRedirects);
      hide Accept;
      hide AnswerDecides;
    }
  }

  /** What an answer leads to, check by check. */
  ghost predicate AnswerDecides(u: Urls, b: Budget, next: Pending, response: Response, totalBytes: nat, totalRedirects: nat, turn: Turn) {
    var allowed := u.allowed(response.finalUri) && forall i :: 0 <= i < |response.redirects| ==> u.allowed(response.redirects[i]);
    var few := totalRedirects + |response.redirects| <= b.maxRedirects;
    var short := totalBytes + response.length <= b.maxBytes;
    var decodes := response.length > 0 && response.content.Some?;
    && (turn == Stop(UriNotAllowed, true) <==> !allowed)
    && (turn == Stop(RedirectsExceeded, true) <==> allowed && !few)
    && (turn == Stop(BytesExceeded, true) <==> allowed && few && !short)
    && (turn == Stop(BadDocument, true) <==> allowed && few && short && !decodes)
    && (allowed && few && short && decodes ==>
          var base := SchemaBase(u, response.content.value, Some(response.finalUri));
          if base.Err? || Breaks(u, response.content.value, base.value) then turn == Stop(BadReference, true)
          else turn.Push? && Describes(u, turn.document, next, response, base.value))
  }

  /** The document pushed is the answer itself, answers to the names of the redirects, the final URI and the base, and lists what its schema refers to. */
  ghost predicate Describes(u: Urls, d: Fetched, next: Pending, response: Response, base: Option<Uri>)
    requires response.content.Some?
  {
    && d.requestUri == next.uri && d.depth == next.depth && d.response == response && d.schema == response.content.value && d.base == base
    && (forall x :: x in Names(d) <==> x == next.uri || AnswersTo(u, response, base, x))
    && (forall x :: x in d.references <==> Refers(u, d.schema, base, Within(u, base, u.document(response.finalUri)), x))
  }

  predicate AnswersTo(u: Urls, response: Response, base: Option<Uri>, x: Uri) {
    || x == u.document(response.finalUri) || (base.Some? && x == u.document(base.value))
    || exists i :: 0 <= i < |response.redirects| && x == u.document(response.redirects[i])
  }

  lemma {:induction false} ExceptExact(uris: seq<Uri>, uri: Uri, x: Uri)
    ensures x in Except(uris, uri) <==> x in uris && x != uri
  {
    if uris != [] {
      ExceptExact(uris[1..], uri, x);
      Head(uris);
    }
  }

  lemma AliasesExact(u: Urls, requestUri: Uri, response: Response, base: Option<Uri>, x: Uri)
    ensures x in Aliases(u, requestUri, response, base) <==> x != requestUri && AnswersTo(u, response, base, x)
  {
    var uris := response.redirects + [response.finalUri] + (if base.Some? then [base.value] else []);
    var named := DocumentsOf(u, uris);
    MergeExact([], Except(named, requestUri));
    ExceptExact(named, requestUri, x);
    hide Merge;
    hide Except;
    if x in named {
      var i :| 0 <= i < |named| && named[i] == x;
      assert x == u.document(uris[i]);
      assert i < |response.redirects| ==> uris[i] == response.redirects[i];
    }
    if i :| 0 <= i < |response.redirects| && x == u.document(response.redirects[i]) { assert named[i] == x; }
    assert named[|response.redirects|] == u.document(response.finalUri);
    assert base.Some? ==> named[|response.redirects| + 1] == u.document(base.value);
  }

  lemma NamesExact(u: Urls, d: Fetched, x: Uri)
    requires d.aliases == Aliases(u, d.requestUri, d.response, d.base)
    ensures x in Names(d) <==> x == d.requestUri || AnswersTo(u, d.response, d.base, x)
  {
    AliasesExact(u, d.requestUri, d.response, d.base, x);
    hide Aliases;
    hide AnswersTo;
  }

  lemma AcceptedDescribes(u: Urls, next: Pending, response: Response, base: Option<Uri>, references: seq<Uri>)
    requires response.content.Some?
    requires References(u, response.content.value, base, Within(u, base, u.document(response.finalUri))) == Ok(references)
    ensures Describes(u, Fetched(next.uri, Aliases(u, next.uri, response, base), response.content.value, response, base, references, next.depth), next, response, base)
  {
    var d := Fetched(next.uri, Aliases(u, next.uri, response, base), response.content.value, response, base, references, next.depth);
    hide Aliases;
    hide Refers;
    hide Names;
    hide AnswersTo;
    ReferencesExact(u, d.schema, base, Within(u, base, u.document(response.finalUri)));
    hide References;
    forall x ensures x in Names(d) <==> x == next.uri || AnswersTo(u, response, base, x) {
      NamesExact(u, d, x);
    }
  }

  lemma BaseErrors(u: Urls, v: Schema, fallback: Option<Uri>)
    ensures SchemaBase(u, v, fallback).Err? ==> SchemaBase(u, v, fallback).error == BadReference
  {
    hide Property;
  }

  lemma AcceptExactly(u: Urls, b: Budget, next: Pending, response: Response, totalBytes: nat, totalRedirects: nat)
    ensures var accepted := Accept(u, b, next, response, totalBytes, totalRedirects);
            AnswerDecides(u, b, next, response, totalBytes, totalRedirects, if accepted.Err? then Stop(accepted.error, true) else Push(accepted.value))
  {
    hide Aliases;
    hide Describes;
    hide Breaks;
    hide References;
    hide SchemaBase;
    hide Within;
    if response.content.Some? {
      var schema := response.content.value;
      BaseErrors(u, schema, Some(response.finalUri));
      var base := SchemaBase(u, schema, Some(response.finalUri));
      if base.Ok? {
        var document := Within(u, base.value, u.document(response.finalUri));
        var references := References(u, schema, base.value, document);
        ReferencesFail(u, schema, base.value, document);
        if references.Ok? { AcceptedDescribes(u, next, response, base.value, references.value); }
      }
    }
  }

  lemma ReferencesFail(u: Urls, v: Schema, base: Option<Uri>, document: Uri)
    ensures References(u, v, base, document).Err? <==> Breaks(u, v, base)
    ensures References(u, v, base, document).Err? ==> References(u, v, base, document).error == BadReference
  {
    ReferencesExact(u, v, base, document);
    ReferenceErrors(u, v, base, document);
    hide *;
  }

  /** From a worklist to the end. It ends: every document pushed takes at least a byte. */
  function Resolve(u: Urls, b: Budget, resolver: Option<Resolver>, w: Work, calls: seq<Pending>, totalBytes: nat, totalRedirects: nat): Outcome
    requires totalBytes <= b.maxBytes
    decreases b.maxBytes - totalBytes, |w.queue|
  {
    if w.queue == [] then Outcome(None, w.documents, calls)
    else
      var next := w.queue[0];
      if next.uri in w.seen then Resolve(u, b, resolver, Skip(w), calls, totalBytes, totalRedirects)
      else
        match Take(u, b, resolver, next, totalBytes, totalRedirects)
        case Stop(failure, asked) => Outcome(Some(failure), w.documents, if asked then calls + [next] else calls)
        case Push(d) =>
          TakeShape(u, b, resolver, next, totalBytes, totalRedirects);
          Resolve(u, b, resolver, Extend(w, d), calls + [next], totalBytes + d.response.length, totalRedirects + |d.response.redirects|)
  }

  /** Every document is what the resolver answered when it was asked for it. */
  predicate Answers(resolver: Option<Resolver>, documents: seq<Fetched>) {
    forall i :: 0 <= i < |documents| ==> resolver.Some? && resolver.value(documents[i].requestUri) == Some(documents[i].response)
  }

  /** The reference at which a failing run stopped: one it had met and not answered, for which the loop stops with this failure and these calls. */
  predicate StopsAt(u: Urls, b: Budget, resolver: Option<Resolver>, roots: seq<Uri>, rootBytes: nat, o: Outcome, next: Pending) {
    && Justified(roots, o.documents, next.uri, next.depth) && !Answered(o.documents, next.uri)
    && match Take(u, b, resolver, next, rootBytes + Bytes(o.documents), Redirects(o.documents))
       case Push(_) => false
       case Stop(failure, asked) =>
         o.failure == Some(failure) && o.calls == CallsOf(o.documents) + if asked then [next] else []
  }

  ghost predicate Stops(u: Urls, b: Budget, resolver: Option<Resolver>, roots: seq<Uri>, rootBytes: nat, o: Outcome) {
    exists next: Pending :: StopsAt(u, b, resolver, roots, rootBytes, o, next)
  }

  /** What every run keeps, and how it ends. */
  ghost predicate Sound(u: Urls, b: Budget, resolver: Option<Resolver>, roots: seq<Uri>, rootBytes: nat, o: Outcome) {
    && Journal(u, b, roots, rootBytes, o.documents, o.calls) && Answers(resolver, o.documents)
    && (o.failure.None? ==> o.calls == CallsOf(o.documents) && Closed(roots, o.documents))
    && (o.failure.Some? ==> Stops(u, b, resolver, roots, rootBytes, o))
  }

  lemma HeadPending(u: Urls, b: Budget, roots: seq<Uri>, w: Work)
    requires Inv(u, b, roots, w) && w.queue != [] && w.queue[0].uri !in w.seen
    ensures Justified(roots, w.documents, w.queue[0].uri, w.queue[0].depth) && !Answered(w.documents, w.queue[0].uri)
  {
    hide Names;
    assert Justified(roots, w.documents, w.queue[0].uri, w.queue[0].depth);
    assert forall i :: 0 <= i < |w.documents| ==> Names(w.documents[i]) <= w.seen;
  }

  lemma StopsHere(u: Urls, b: Budget, resolver: Option<Resolver>, roots: seq<Uri>, rootBytes: nat, documents: seq<Fetched>, next: Pending, failure: Failure, asked: bool)
    requires Justified(roots, documents, next.uri, next.depth) && !Answered(documents, next.uri)
    requires Take(u, b, resolver, next, rootBytes + Bytes(documents), Redirects(documents)) == Stop(failure, asked)
    ensures StopsAt(u, b, resolver, roots, rootBytes, Outcome(Some(failure), documents, if asked then CallsOf(documents) + [next] else CallsOf(documents)), next)
  {
    hide Take;
    hide Justified;
    hide Answered;
    hide CallsOf;
    assert CallsOf(documents) + [] == CallsOf(documents);
  }

  lemma FailureIsSound(u: Urls, b: Budget, resolver: Option<Resolver>, roots: seq<Uri>, rootBytes: nat, o: Outcome, next: Pending)
    requires Journal(u, b, roots, rootBytes, o.documents, o.calls) && Answers(resolver, o.documents)
    requires o.failure.Some? && StopsAt(u, b, resolver, roots, rootBytes, o, next)
    ensures Sound(u, b, resolver, roots, rootBytes, o)
  {
    hide Journal;
    hide Answers;
    hide StopsAt;
  }

  lemma AskedMayRequest(u: Urls, b: Budget, resolver: Option<Resolver>, w: Work, totalBytes: nat, totalRedirects: nat)
    requires w.queue != [] && w.queue[0].uri !in w.seen
    requires var turn := Take(u, b, resolver, w.queue[0], totalBytes, totalRedirects); turn.Push? || turn.asked
    ensures Requestable(u, b, w)
  {
    hide Accept;
  }

  lemma StopIsSound(u: Urls, b: Budget, resolver: Option<Resolver>, roots: seq<Uri>, w: Work, rootBytes: nat, failure: Failure, asked: bool)
    requires Inv(u, b, roots, w) && Answers(resolver, w.documents) && w.queue != [] && w.queue[0].uri !in w.seen
    requires rootBytes + Bytes(w.documents) <= b.maxBytes && Redirects(w.documents) <= b.maxRedirects
    requires Take(u, b, resolver, w.queue[0], rootBytes + Bytes(w.documents), Redirects(w.documents)) == Stop(failure, asked)
    ensures Sound(u, b, resolver, roots, rootBytes,
                  Outcome(Some(failure), w.documents, if asked then CallsOf(w.documents) + [w.queue[0]] else CallsOf(w.documents)))
  {
    hide *;
    var next, calls := w.queue[0], CallsOf(w.documents);
    HeadPending(u, b, roots, w);
    if asked { AskedMayRequest(u, b, resolver, w, rootBytes + Bytes(w.documents), Redirects(w.documents)); }
    JournalSoFar(u, b, roots, w, rootBytes);
    StopsHere(u, b, resolver, roots, rootBytes, w.documents, next, failure, asked);
    FailureIsSound(u, b, resolver, roots, rootBytes, Outcome(Some(failure), w.documents, if asked then calls + [next] else calls), next);
  }

  lemma AnswersGrow(resolver: Option<Resolver>, documents: seq<Fetched>, d: Fetched)
    requires Answers(resolver, documents) && resolver.Some? && resolver.value(d.requestUri) == Some(d.response)
    ensures Answers(resolver, documents + [d])
  {
  }

  lemma CallsGrow(documents: seq<Fetched>, d: Fetched)
    ensures CallsOf(documents + [d]) == CallsOf(documents) + [Pending(d.requestUri, d.depth)]
  {
  }

  /** What one push keeps. */
  lemma PushKeeps(u: Urls, b: Budget, resolver: Option<Resolver>, roots: seq<Uri>, w: Work, rootBytes: nat, d: Fetched)
    requires Inv(u, b, roots, w) && Answers(resolver, w.documents) && w.queue != [] && w.queue[0].uri !in w.seen
    requires Take(u, b, resolver, w.queue[0], rootBytes + Bytes(w.documents), Redirects(w.documents)) == Push(d)
    ensures var n := Extend(w, d);
            && Inv(u, b, roots, n) && Answers(resolver, n.documents)
            && rootBytes + Bytes(n.documents) == rootBytes + Bytes(w.documents) + d.response.length <= b.maxBytes
            && Redirects(n.documents) == Redirects(w.documents) + |d.response.redirects| <= b.maxRedirects
            && CallsOf(n.documents) == CallsOf(w.documents) + [w.queue[0]]
  {
    var totalBytes, totalRedirects := rootBytes + Bytes(w.documents), Redirects(w.documents);
    hide *;
    TakeShape(u, b, resolver, w.queue[0], totalBytes, totalRedirects);
    MayRequest(u, b, w);
    AcceptedFits(u, b, roots, w, d.response, totalBytes, totalRedirects);
    ExtendKeeps(u, b, roots, w, d);
    AcceptShape(u, b, w.queue[0], d.response, totalBytes, totalRedirects);
    AnswersGrow(resolver, w.documents, d);
    CallsGrow(w.documents, d);
    Appended(w.documents, d);
  }

  lemma MayRequest(u: Urls, b: Budget, w: Work)
    requires w.queue != [] && w.queue[0].uri !in w.seen && w.queue[0].depth <= b.maxDepth && u.allowed(w.queue[0].uri)
    ensures Requestable(u, b, w)
  {
  }

  /** Every run from a worklist that keeps the invariant is sound. */
  lemma {:induction false} ResolveIsSound(u: Urls, b: Budget, resolver: Option<Resolver>, roots: seq<Uri>, w: Work, rootBytes: nat)
    requires Inv(u, b, roots, w) && Answers(resolver, w.documents)
    requires rootBytes + Bytes(w.documents) <= b.maxBytes && Redirects(w.documents) <= b.maxRedirects
    ensures Sound(u, b, resolver, roots, rootBytes,
                  Resolve(u, b, resolver, w, CallsOf(w.documents), rootBytes + Bytes(w.documents), Redirects(w.documents)))
    decreases b.maxBytes - rootBytes - Bytes(w.documents), |w.queue|
  {
    var totalBytes, totalRedirects := rootBytes + Bytes(w.documents), Redirects(w.documents);
    hide Inv;
    hide Sound;
    hide Take;
    hide Answers;
    hide CallsOf;
    hide Bytes;
    hide Redirects;
    hide Extend;
    if w.queue == [] {
      JournalSoFar(u, b, roots, w, rootBytes);
      EmptyQueueIsClosed(u, b, roots, w);
      DoneIsSound(u, b, resolver, roots, rootBytes, w.documents);
    } else if w.queue[0].uri in w.seen {
      SkipKeeps(u, b, roots, w);
      ResolveIsSound(u, b, resolver, roots, Skip(w), rootBytes);
    } else {
      match Take(u, b, resolver, w.queue[0], totalBytes, totalRedirects) {
        case Stop(failure, asked) => StopIsSound(u, b, resolver, roots, w, rootBytes, failure, asked);
        case Push(d) =>
          PushKeeps(u, b, resolver, roots, w, rootBytes, d);
          TakeShape(u, b, resolver, w.queue[0], totalBytes, totalRedirects);
          ResolveIsSound(u, b, resolver, roots, Extend(w, d), rootBytes);
      }
    }
  }

  lemma DoneIsSound(u: Urls, b: Budget, resolver: Option<Resolver>, roots: seq<Uri>, rootBytes: nat, documents: seq<Fetched>)
    requires Journal(u, b, roots, rootBytes, documents, CallsOf(documents)) && Answers(resolver, documents) && Closed(roots, documents)
    ensures Sound(u, b, resolver, roots, rootBytes, Outcome(None, documents, CallsOf(documents)))
  {
    hide Journal;
    hide Answers;
    hide Closed;
    hide CallsOf;
  }

  lemma StartIsEmpty(resolver: Option<Resolver>, roots: seq<Uri>)
    ensures Answers(resolver, Start(roots).documents) && CallsOf(Start(roots).documents) == []
    ensures Bytes(Start(roots).documents) == 0 && Redirects(Start(roots).documents) == 0
  {
  }

  /** Every run of the loop is sound. Nothing external succeeds without a resolver. */
  lemma StartedIsSound(u: Urls, b: Budget, resolver: Option<Resolver>, roots: seq<Uri>, rootBytes: nat)
    requires rootBytes <= b.maxBytes
    ensures var o := Resolve(u, b, resolver, Start(roots), [], rootBytes, 0);
            && Sound(u, b, resolver, roots, rootBytes, o)
            && (resolver.None? ==> o.calls == [] && (o.failure.None? <==> roots == []))
  {
    StartInv(u, b, roots);
    StartIsEmpty(resolver, roots);
    hide Inv;
    hide Sound;
    hide Answers;
    hide CallsOf;
    hide Bytes;
    hide Redirects;
    hide Accept;
    ResolveIsSound(u, b, resolver, roots, Start(roots), rootBytes);
  }

  /** The loop of `resolveDocuments`. */
  method Drain(u: Urls, b: Budget, resolver: Option<Resolver>, roots: seq<Uri>, rootBytes: nat) returns (outcome: Outcome)
    requires rootBytes <= b.maxBytes
    ensures outcome == Resolve(u, b, resolver, Start(roots), [], rootBytes, 0)
    ensures Sound(u, b, resolver, roots, rootBytes, outcome)
    ensures resolver.None? ==> outcome.calls == [] && (outcome.failure.None? <==> roots == [])
  {
    hide Accept;
    hide Extend;
    hide Faithful;
    hide Sound;
    StartedIsSound(u, b, resolver, roots, rootBytes);
    var w := Work(PendingAt(roots, 1), {}, []);
    var calls: seq<Pending> := [];
    var totalBytes: nat, totalRedirects: nat := rootBytes, 0;
    while w.queue != []
      invariant totalBytes <= b.maxBytes
      invariant Resolve(u, b, resolver, w, calls, totalBytes, totalRedirects) == Resolve(u, b, resolver, Start(roots), [], rootBytes, 0)
      decreases b.maxBytes - totalBytes, |w.queue|
    {
      var next := w.queue[0];
      if next.uri in w.seen {
        w := Skip(w);
        continue;
      }
      if next.depth > b.maxDepth {
        return Outcome(Some(DepthExceeded), w.documents, calls);
      }
      if resolver.None? {
        return Outcome(Some(ResolutionDisabled), w.documents, calls);
      }
      if !u.allowed(next.uri) {
        return Outcome(Some(UriNotAllowed), w.documents, calls);
      }
      calls := calls + [next];
      var response := resolver.value(next.uri);
      if response.None? {
        return Outcome(Some(ResolverFailed), w.documents, calls);
      }
      var accepted := Accept(u, b, next, response.value, totalBytes, totalRedirects);
      if accepted.Err? {
        return Outcome(Some(accepted.error), w.documents, calls);
      }
      AcceptShape(u, b, next, response.value, totalBytes, totalRedirects);
      w := Extended(w, accepted.value);
      totalBytes, totalRedirects := totalBytes + response.value.length, totalRedirects + |response.value.redirects|;
    }
    return Outcome(None, w.documents, calls);
  }

  /** The documents the root refers to. */
  function Roots(u: Urls, root: Schema): Result<seq<Uri>, Failure> {
    match SchemaBase(u, root, None)
    case Err(failure) => Err(failure)
    case Ok(base) => References(u, root, base, Within(u, base, ROOT_URI))
  }

  // ----- closed under what the references mean -----

  /** What a document refers to: its `$id` joined once to the URI it was fetched from. */
  function MeantBy(u: Urls, d: Fetched): Result<seq<Uri>, Failure> {
    References(u, d.schema, Some(d.response.finalUri), u.document(d.response.finalUri))
  }

  /** Everything a schema refers to is a name some document answers to, and everything in it joins. */
  ghost predicate Resolved(u: Urls, v: Schema, base: Option<Uri>, document: Uri, documents: seq<Fetched>, depth: nat) {
    !Breaks(u, v, base) && forall x :: Refers(u, v, base, document, x) ==> Covered(documents, x, depth)
  }

  lemma ResolvedExact(u: Urls, v: Schema, base: Option<Uri>, document: Uri, documents: seq<Fetched>, depth: nat)
    ensures Resolved(u, v, base, document, documents, depth) <==>
            References(u, v, base, document).Ok? && forall x :: x in References(u, v, base, document).value ==> Covered(documents, x, depth)
  {
    ReferencesExact(u, v, base, document);
    hide Refers;
    hide Breaks;
    hide References;
    hide Covered;
  }

  /** Closed under the references as the loop takes them: each schema from the base that already holds its `$id`. */
  ghost predicate ClosedUnderWalk(u: Urls, root: Schema, documents: seq<Fetched>) {
    && SchemaBase(u, root, None).Ok?
    && Resolved(u, root, SchemaBase(u, root, None).value, Within(u, SchemaBase(u, root, None).value, ROOT_URI), documents, 1)
    && forall i :: 0 <= i < |documents| ==> DocumentWalked(u, documents, documents[i])
  }

  ghost predicate DocumentWalked(u: Urls, documents: seq<Fetched>, d: Fetched) {
    Resolved(u, d.schema, d.base, Within(u, d.base, u.document(d.response.finalUri)), documents, d.depth + 1)
  }

  /** Every reference of the root and of each document, taken as it is meant, is a name some document answers to. */
  ghost predicate ClosedAsMeant(u: Urls, root: Schema, documents: seq<Fetched>) {
    && Resolved(u, root, None, ROOT_URI, documents, 1)
    && forall i :: 0 <= i < |documents| ==> DocumentClosed(u, documents, documents[i])
  }

  ghost predicate DocumentClosed(u: Urls, documents: seq<Fetched>, d: Fetched) {
    Resolved(u, d.schema, Some(d.response.finalUri), u.document(d.response.finalUri), documents, d.depth + 1)
  }

  lemma MeantExact(u: Urls, documents: seq<Fetched>, d: Fetched)
    ensures DocumentClosed(u, documents, d) <==> MeantBy(u, d).Ok? && forall x :: x in MeantBy(u, d).value ==> Covered(documents, x, d.depth + 1)
  {
    ResolvedExact(u, d.schema, Some(d.response.finalUri), u.document(d.response.finalUri), documents, d.depth + 1);
    hide Resolved;
    hide References;
    hide Covered;
  }

  /** What the loop's own lists are closed under. */
  lemma ClosedIsWalked(u: Urls, root: Schema, documents: seq<Fetched>)
    requires Roots(u, root).Ok? && Closed(Roots(u, root).value, documents)
    requires forall i :: 0 <= i < |documents| ==> Faithful(u, documents[i])
    ensures ClosedUnderWalk(u, root, documents)
  {
    hide References;
    hide Covered;
    hide Aliases;
    hide Resolved;
    var base := SchemaBase(u, root, None).value;
    ResolvedExact(u, root, base, Within(u, base, ROOT_URI), documents, 1);
    forall i | 0 <= i < |documents| ensures DocumentWalked(u, documents, documents[i]) {
      var d := documents[i];
      assert Faithful(u, d);
      ResolvedExact(u, d.schema, d.base, Within(u, d.base, u.document(d.response.finalUri)), documents, d.depth + 1);
    }
  }

  /** No `$id` of the root or a document changes its base when it is joined again. */
  ghost predicate AllStable(u: Urls, root: Schema, documents: seq<Fetched>) {
    && SchemaBase(u, root, None).Ok? && Stable(u, root, SchemaBase(u, root, None).value)
    && forall i :: 0 <= i < |documents| ==> Stable(u, documents[i].schema, documents[i].base)
  }

  /** The walk of the root and of every document lists what they mean. */
  ghost predicate AllAgree(u: Urls, root: Schema, documents: seq<Fetched>) {
    && WalkAgrees(u, root, None, ROOT_URI)
    && forall i :: 0 <= i < |documents| ==>
         WalkAgrees(u, documents[i].schema, Some(documents[i].response.finalUri), u.document(documents[i].response.finalUri))
  }

  lemma StableAgrees(u: Urls, root: Schema, documents: seq<Fetched>)
    requires AllStable(u, root, documents) && forall i :: 0 <= i < |documents| ==> Faithful(u, documents[i])
    ensures AllAgree(u, root, documents)
  {
    StableIdIsHarmless(u, root, None, ROOT_URI);
    forall i | 0 <= i < |documents|
      ensures WalkAgrees(u, documents[i].schema, Some(documents[i].response.finalUri), u.document(documents[i].response.finalUri))
    {
      var d := documents[i];
      assert Faithful(u, d);
      StableIdIsHarmless(u, d.schema, Some(d.response.finalUri), u.document(d.response.finalUri));
    }
    hide WalkAgrees;
  }

  lemma AgreementCloses(u: Urls, root: Schema, documents: seq<Fetched>)
    requires Roots(u, root).Ok? && Closed(Roots(u, root).value, documents) && AllAgree(u, root, documents)
    requires forall i :: 0 <= i < |documents| ==> Faithful(u, documents[i])
    ensures ClosedAsMeant(u, root, documents)
  {
    hide References;
    hide Covered;
    hide Aliases;
    hide Resolved;
    ResolvedExact(u, root, None, ROOT_URI, documents, 1);
    forall i | 0 <= i < |documents| ensures DocumentClosed(u, documents, documents[i]) {
      assert Faithful(u, documents[i]);
      MeantExact(u, documents, documents[i]);
    }
  }

  /** A successful resolution is closed under the references as walked, and under the meant ones whenever every `$id` is stable. */
  lemma StableResultIsClosed(u: Urls, b: Budget, root: Schema, rootBytes: nat, documents: seq<Fetched>, calls: seq<Pending>)
    requires Roots(u, root).Ok? && Closed(Roots(u, root).value, documents) && Journal(u, b, Roots(u, root).value, rootBytes, documents, calls)
    ensures ClosedUnderWalk(u, root, documents)
    ensures AllStable(u, root, documents) ==> ClosedAsMeant(u, root, documents)
  {
    hide Faithful;
    assert forall i :: 0 <= i < |documents| ==> Faithful(u, documents[i]);
    hide *;
    ClosedIsWalked(u, root, documents);
    if !AllStable(u, root, documents) { return; }
    StableAgrees(u, root, documents);
    AgreementCloses(u, root, documents);
  }

  /** `resolveDocuments`; the root's own size was checked before. */
  function Resolution(u: Urls, b: Budget, resolver: Option<Resolver>, root: Schema, rootBytes: nat): Outcome
    requires rootBytes <= b.maxBytes
  {
    match Roots(u, root)
    case Err(failure) => Outcome(Some(failure), [], [])
    case Ok(roots) => Resolve(u, b, resolver, Start(roots), [], rootBytes, 0)
  }

  lemma RootsResolve(u: Urls, b: Budget, resolver: Option<Resolver>, root: Schema, rootBytes: nat)
    requires rootBytes <= b.maxBytes && Roots(u, root).Ok?
    ensures Resolution(u, b, resolver, root, rootBytes) == Resolve(u, b, resolver, Start(Roots(u, root).value), [], rootBytes, 0)
  {
    hide Roots;
    hide Resolve;
  }

  /**
   `resolveDocuments`. The documents are the resolver's own answers. A success is closed
   under the references the walk lists, and under those meant when no `$id` changes its base
   on a second join; a failure names the reference it stopped at.
   */
  method ResolveDocuments(u: Urls, b: Budget, resolver: Option<Resolver>, root: Schema, rootBytes: nat) returns (outcome: Outcome)
    requires rootBytes <= b.maxBytes
    ensures outcome == Resolution(u, b, resolver, root, rootBytes)
    ensures Roots(u, root).Err? ==> outcome == Outcome(Some(Roots(u, root).error), [], [])
    ensures Roots(u, root).Ok? ==> Sound(u, b, resolver, Roots(u, root).value, rootBytes, outcome)
    ensures outcome.failure.None? ==> Roots(u, root).Ok? && outcome.calls == CallsOf(outcome.documents) && Closed(Roots(u, root).value, outcome.documents)
    ensures outcome.failure.None? ==> ClosedUnderWalk(u, root, outcome.documents)
    ensures outcome.failure.None? && AllStable(u, root, outcome.documents) ==> ClosedAsMeant(u, root, outcome.documents)
    ensures resolver.None? ==> outcome.calls == [] && (outcome.failure.None? <==> Roots(u, root) == Ok([]))
  {
    hide References;
    hide Journal;
    hide Closed;
    hide ClosedAsMeant;
    hide ClosedUnderWalk;
    hide Breaks;
    hide Refers;
    hide AllStable;
    hide CallsOf;
    hide Resolve;
    hide Stops;
    hide Answers;
    var base := SchemaBase(u, root, None);
    if base.Err? {
      return Outcome(Some(base.error), [], []);
    }
    var roots := ReferencesIn(u, root, base.value, Within(u, base.value, ROOT_URI));
    if roots.Err? {
      return Outcome(Some(roots.error), [], []);
    }
    outcome := Drain(u, b, resolver, roots.value, rootBytes);
    RootsResolve(u, b, resolver, root, rootBytes);
    if outcome.failure.None? {
      StableResultIsClosed(u, b, root, rootBytes, outcome.documents, outcome.calls);
    }
  }

  lemma Parts(u: Urls, b: Budget, roots: seq<Uri>, w: Work)
    requires Inv(u, b, roots, w)
    ensures SeenFits(w) && Fresh(w.documents) && Chained(roots, w.documents) && WithinBudget(u, b, w.documents)
  {
  }

  /** `for (const alias of aliases) seen.add(alias)`. */
  method AddNames(seen: set<Uri>, d: Fetched) returns (next: set<Uri>)
    ensures next == seen + Names(d)
  {
    next := seen + {d.requestUri};
    for index := 0 to |d.aliases|
      invariant next == seen + {d.requestUri} + set a | a in d.aliases[..index]
    {
      assert d.aliases[..index + 1] == d.aliases[..index] + [d.aliases[index]];
      next := next + {d.aliases[index]};
    }
    assert d.aliases[..|d.aliases|] == d.aliases;
  }

  lemma UnseenStep(references: seq<Uri>, index: nat, seen: set<Uri>, depth: nat)
    requires index < |references|
    ensures PendingAt(Unseen(references[index..], seen), depth) ==
            (if references[index] in seen then [] else [Pending(references[index], depth)]) + PendingAt(Unseen(references[index + 1..], seen), depth)
  {
    assert references[index..][0] == references[index] && references[index..][1..] == references[index + 1..];
  }

  /** The unseen references join the queue. */
  method Enqueue(queue: seq<Pending>, references: seq<Uri>, seen: set<Uri>, depth: nat) returns (next: seq<Pending>)
    ensures next == queue + PendingAt(Unseen(references, seen), depth)
  {
    next := queue;
    assert references[0..] == references;
    for index := 0 to |references|
      invariant next + PendingAt(Unseen(references[index..], seen), depth) == queue + PendingAt(Unseen(references, seen), depth)
    {
      hide Unseen;
      hide PendingAt;
      var uri := references[index];
      UnseenStep(references, index, seen, depth);
      var rest := PendingAt(Unseen(references[index + 1..], seen), depth);
      if uri !in seen {
        Assoc(next, [Pending(uri, depth)], rest);
        next := next + [Pending(uri, depth)];
      } else {
        assert [] + rest == rest;
      }
    }
    assert next + [] == next;
  }

  /** The document is pushed, its names become seen, and its unseen references join the queue. */
  method Extended(w: Work, d: Fetched) returns (next: Work)
    requires w.queue != []
    ensures next == Extend(w, d)
  {
    var seen := AddNames(w.seen, d);
    var queue := Enqueue(w.queue[1..], d.references, seen, d.depth + 1);
    next := Work(queue, seen, w.documents + [d]);
  }

  // ----- a run whose result is not closed as meant -----

  /** The document at `h/f`: its `$id` is `d/s` and it refers to `t`. */
  function Reading(d: Uri, s: JsString, t: JsString): Schema {
    Obj(Referring(d + s, t))
  }

  /** A resolver that knows this document and the one its walk asks for. */
  function Misleading(h: Uri, f: JsString, d: Uri, s: JsString, t: JsString, length: nat): Resolver {
    uri =>
      if uri == h + f then Some(Response(length, h + f, [], Some(Reading(d, s, t))))
      else if uri == h + d + d + t then Some(Response(length, uri, [], Some(Bool(true))))
      else None
  }

  /** The two documents as the loop pushes them. */
  function Misread(h: Uri, f: JsString, d: Uri, s: JsString, t: JsString, length: nat): (Fetched, Fetched) {
    var asked := h + d + d + t;
    (Fetched(h + f, [h + d + s], Reading(d, s, t), Response(length, h + f, [], Some(Reading(d, s, t))), Some(h + d + s), [asked], 1),
     Fetched(asked, [], Bool(true), Response(length, asked, [], Some(Bool(true))), Some(asked), [], 2))
  }

  /** A root that only refers to `uri`. */
  function ReferringRoot(uri: Uri): Schema {
    Obj([Field(REF, Str(uri))])
  }

  lemma AliasesOf(u: Urls, response: Response, base: Uri)
    requires response.redirects == [] && u.document(response.finalUri) == response.finalUri && u.document(base) == base
    ensures Aliases(u, response.finalUri, response, Some(base)) == if response.finalUri == base then [] else [base]
  {
    var a := response.finalUri;
    assert response.redirects + [a] + [base] == [a, base];
    assert DocumentsOf(u, [a, base]) == [a, base];
    assert [a, base][1..] == [base] && [base][1..] == [];
    var left := if a == base then [] else [base];
    assert Except([base], a) == left + Except([], a) == left;
    assert Except([a, base], a) == [] + Except([base], a) == left;
    if a != base {
      assert Merge([base], []) == [base] && [] + [base] == [base];
      assert Merge([], [base]) == Merge([base], []);
    }
  }

  /** A path with a directory in it is no sibling of the directory it starts from. */
  lemma NotSibling(p: Uri, d: Uri, x: JsString, n: JsString)
    requires IsDirectory(d) && SLASH !in n
    ensures p + d + x != p + n
  {
    assert (d + x)[|d| - 1] == SLASH && (d + x)[|d| - 1] in d + x;
    Assoc(p, d, x);
    SameDirectory(p, d + x, n);
  }

  /** The path parts of the example. */
  predicate Example(h: Uri, f: JsString, d: Uri, s: JsString, t: JsString) {
    && IsDirectory(h) && COLON in h && IsName(f) && IsDirectory(d) && IsName(s) && PlainPath(d + s)
    && IsName(t) && PlainPath(t) && t != [] && t != s
  }

  /** A document that is what the code computes from its response is accepted when it fits the budgets. */
  lemma FaithfulIsAccepted(u: Urls, b: Budget, d: Fetched, totalBytes: nat, totalRedirects: nat)
    requires Faithful(u, d) && totalBytes + d.response.length <= b.maxBytes && totalRedirects + |d.response.redirects| <= b.maxRedirects
    ensures Accept(u, b, Pending(d.requestUri, d.depth), d.response, totalBytes, totalRedirects) == Ok(d)
  {
    hide References;
    hide SchemaBase;
    hide Aliases;
    hide AllAllowed;
  }

  /** What the first document means, and what its walk lists. */
  lemma MisreadReading(h: Uri, f: JsString, d: Uri, s: JsString, t: JsString, length: nat)
    requires Example(h, f, d, s, t) && length >= 1
    ensures var document := Misread(h, f, d, s, t, length).0;
            Faithful(Paths(), document) && MeantBy(Paths(), document) == Ok([h + d + t])
  {
    var document := Misread(h, f, d, s, t, length).0;
    RelativeIdAppliesTwice(h, f, d, s, t);
    NotSibling(h, d, s, f);
    AliasesOf(Paths(), document.response, h + d + s);
    hide References;
    hide SchemaBase;
    hide Aliases;
    hide Referring;
    hide Sibling;
  }

  lemma PlainDocument(asked: Uri, length: nat)
    requires length >= 1
    ensures Faithful(Paths(), Fetched(asked, [], Bool(true), Response(length, asked, [], Some(Bool(true))), Some(asked), [], 2))
  {
    AliasesOf(Paths(), Response(length, asked, [], Some(Bool(true))), asked);
    assert References(Paths(), Bool(true), Some(asked), asked) == Ok([]);
    hide References;
    hide Aliases;
    hide Sibling;
  }

  lemma MisreadNames(h: Uri, f: JsString, d: Uri, s: JsString, t: JsString, length: nat)
    requires Example(h, f, d, s, t)
    ensures var (first, second) := Misread(h, f, d, s, t, length);
            && Names(first) == {h + f, h + d + s} && Names(second) == {h + d + d + t}
            && h + d + d + t !in Names(first)
            && h + d + t !in Names(first) && h + d + t !in Names(second)
  {
    NotSibling(h, d, t, f);
    NotSibling(h, d, d + t, f);
    Assoc(h + d, d, t);
    NotSibling(h + d, d, t, s);
    SameDirectory(h + d, s, t);
    assert |h + d + d + t| > |h + d + t|;
    hide Reading;
  }

  lemma PlainRoot(h: Uri, f: JsString)
    requires IsDirectory(h) && COLON in h
    ensures Roots(Paths(), ReferringRoot(h + f)) == Ok([h + f])
  {
    var fields := [Field(REF, Str(h + f))];
    StringsHoldNoSchema(fields, SINGLE, AsSingle);
    StringsHoldNoSchema(fields, MAPS, AsMap);
    StringsHoldNoSchema(fields, ARRAYS, AsArray);
    hide UnderAll;
    assert (h + f)[|h| - 1] == SLASH && (h + f)[0] == h[0];
    NoSlashInRoot();
    assert Property(fields, REF) == Some(Str(h + f)) && Property(fields, ID) == None && Property(fields, DYNAMIC_REF) == None;
    hide Property;
    assert h[0] in h && COLON in h + f && SLASH in h + f;
    assert Mention(Paths(), fields, REF, None, ROOT_URI) == Ok([h + f]);
    assert Children(fields) == [];
    hide Sibling;
    hide Mention;
    assert [h + f] + [] == [h + f];
    hide Children;
    assert Mentions(Paths(), Obj(fields), None, ROOT_URI) == Ok([h + f]);
    hide Mentions;
    MergeOne(Ok([h + f]));
  }

  lemma NoSlashInRoot()
    ensures SLASH !in ROOT_URI
  {
  }

  lemma TakeOne(u: Urls, b: Budget, resolver: Resolver, d: Fetched, totalBytes: nat, totalRedirects: nat)
    requires totalBytes + d.response.length <= b.maxBytes && totalRedirects + |d.response.redirects| <= b.maxRedirects
    requires u.allowed(d.requestUri) && d.depth <= b.maxDepth && Faithful(u, d) && resolver(d.requestUri) == Some(d.response)
    ensures Take(u, b, Some(resolver), Pending(d.requestUri, d.depth), totalBytes, totalRedirects) == Push(d)
  {
    FaithfulIsAccepted(u, b, d, totalBytes, totalRedirects);
    hide Accept;
    hide Faithful;
  }

  /** One accepted document at the head of the queue. */
  lemma ResolveOne(u: Urls, b: Budget, resolver: Resolver, w: Work, calls: seq<Pending>, totalBytes: nat, totalRedirects: nat, d: Fetched)
    requires totalBytes + d.response.length <= b.maxBytes && totalRedirects + |d.response.redirects| <= b.maxRedirects
    requires w.queue != [] && w.queue[0] == Pending(d.requestUri, d.depth) && d.requestUri !in w.seen
    requires u.allowed(d.requestUri) && d.depth <= b.maxDepth && Faithful(u, d) && resolver(d.requestUri) == Some(d.response)
    ensures Resolve(u, b, Some(resolver), w, calls, totalBytes, totalRedirects) ==
            Resolve(u, b, Some(resolver), Extend(w, d), calls + [w.queue[0]], totalBytes + d.response.length, totalRedirects + |d.response.redirects|)
  {
    hide *;
    TakeOne(u, b, resolver, d, totalBytes, totalRedirects);
    ResolvePush(u, b, Some(resolver), w, calls, totalBytes, totalRedirects, d);
  }

  lemma ResolvePush(u: Urls, b: Budget, resolver: Option<Resolver>, w: Work, calls: seq<Pending>, totalBytes: nat, totalRedirects: nat, d: Fetched)
    requires totalBytes + d.response.length <= b.maxBytes
    requires w.queue != [] && w.queue[0].uri !in w.seen && Take(u, b, resolver, w.queue[0], totalBytes, totalRedirects) == Push(d)
    ensures Resolve(u, b, resolver, w, calls, totalBytes, totalRedirects) ==
            Resolve(u, b, resolver, Extend(w, d), calls + [w.queue[0]], totalBytes + d.response.length, totalRedirects + |d.response.redirects|)
  {
    hide Take;
    hide Extend;
  }

  /** Pushing a document whose one reference nobody answers, or that has none. */
  lemma ExtendShape(w: Work, d: Fetched)
    requires |w.queue| == 1 && |d.references| <= 1 && forall x :: x in d.references ==> x !in w.seen + Names(d)
    ensures Extend(w, d) == Work(PendingAt(d.references, d.depth + 1), w.seen + Names(d), w.documents + [d])
  {
    hide Names;
    var seen := w.seen + Names(d);
    if d.references != [] {
      assert d.references[0] in d.references;
      assert Unseen(d.references, seen) == [d.references[0]] + Unseen(d.references[1..], seen) && d.references[1..] == [];
    }
    assert Unseen(d.references, seen) == d.references;
    assert w.queue[1..] == [];
  }

  /**
   A run that succeeds without resolving what its documents mean: the root refers to `h/f`,
   the resolver answers both requests, and the reference `h/d/t` meant there is answered by
   no document.
   */
  lemma ResolvedButNotAsMeant(b: Budget, h: Uri, f: JsString, d: Uri, s: JsString, t: JsString, length: nat, rootBytes: nat)
    requires Example(h, f, d, s, t) && length >= 1 && b.maxDepth >= 2 && rootBytes + length + length <= b.maxBytes
    ensures var root := ReferringRoot(h + f);
            var (first, second) := Misread(h, f, d, s, t, length);
            && Resolution(Paths(), b, Some(Misleading(h, f, d, s, t, length)), root, rootBytes) ==
               Outcome(None, [first, second], [Pending(h + f, 1), Pending(h + d + d + t, 2)])
            && MeantBy(Paths(), first) == Ok([h + d + t]) && !Answered([first, second], h + d + t)
            && !ClosedAsMeant(Paths(), root, [first, second])
  {
    hide *;
    var (first, second) := Misread(h, f, d, s, t, length);
    MisreadRuns(b, h, f, d, s, t, length, rootBytes);
    MisreadReading(h, f, d, s, t, length);
    MisreadNames(h, f, d, s, t, length);
    Unmet(Paths(), ReferringRoot(h + f), [first, second], first, h + d + t);
  }

  lemma Unmet(u: Urls, root: Schema, documents: seq<Fetched>, d: Fetched, x: Uri)
    requires |documents| == 2 && d == documents[0] && MeantBy(u, d) == Ok([x])
    requires x !in Names(documents[0]) && x !in Names(documents[1])
    ensures !Answered(documents, x) && !ClosedAsMeant(u, root, documents)
  {
    MeantExact(u, documents, d);
    hide Names;
    hide MeantBy;
    hide Resolved;
    assert x in MeantBy(u, d).value && !Covered(documents, x, d.depth + 1);
    hide Covered;
    assert !DocumentClosed(u, documents, documents[0]);
  }

  lemma MisreadRuns(b: Budget, h: Uri, f: JsString, d: Uri, s: JsString, t: JsString, length: nat, rootBytes: nat)
    requires Example(h, f, d, s, t) && length >= 1 && b.maxDepth >= 2 && rootBytes + length + length <= b.maxBytes
    ensures var (first, second) := Misread(h, f, d, s, t, length);
            Resolution(Paths(), b, Some(Misleading(h, f, d, s, t, length)), ReferringRoot(h + f), rootBytes) ==
            Outcome(None, [first, second], [Pending(h + f, 1), Pending(h + d + d + t, 2)])
  {
    assert IsDirectory(h) && COLON in h;
    hide *;
    var resolver := Misleading(h, f, d, s, t, length);
    var (first, second) := Misread(h, f, d, s, t, length);
    var asked := h + d + d + t;
    PlainRoot(h, f);
    MisreadReading(h, f, d, s, t, length);
    PlainDocument(asked, length);
    MisreadNames(h, f, d, s, t, length);
    MisreadParts(h, f, d, s, t, length);
    var w0, w1 := Start([h + f]), Work([Pending(asked, 2)], Names(first), [first]);
    ResolveTwo(b, resolver, h + f, first, second, rootBytes);
    RootsResolve(Paths(), b, Some(resolver), ReferringRoot(h + f), rootBytes);
  }

  /** What the example's documents hold, and what the resolver answers. */
  lemma MisreadParts(h: Uri, f: JsString, d: Uri, s: JsString, t: JsString, length: nat)
    requires h + d + d + t != h + f
    ensures var (first, second) := Misread(h, f, d, s, t, length);
            var asked := h + d + d + t;
            var resolver := Misleading(h, f, d, s, t, length);
            && first.requestUri == h + f && first.references == [asked] && first.depth == 1
            && second.requestUri == asked && second.references == [] && second.depth == 2
            && resolver(h + f) == Some(first.response) && resolver(asked) == Some(second.response)
            && first.response.length == length && second.response.length == length
            && first.response.redirects == [] && second.response.redirects == []
            && second == Fetched(asked, [], Bool(true), Response(length, asked, [], Some(Bool(true))), Some(asked), [], 2)
  {
    hide Reading;
  }

  /** A root with one reference, to a document with one reference, to a document with none. */
  lemma ResolveTwo(b: Budget, resolver: Resolver, uri: Uri, first: Fetched, second: Fetched, rootBytes: nat)
    requires first.requestUri == uri && first.depth == 1 && second.depth == 2 && b.maxDepth >= 2
    requires first.references == [second.requestUri] && second.references == [] && second.requestUri !in Names(first)
    requires rootBytes + first.response.length + second.response.length <= b.maxBytes
    requires first.response.redirects == [] && second.response.redirects == []
    requires Faithful(Paths(), first) && Faithful(Paths(), second)
    requires resolver(uri) == Some(first.response) && resolver(second.requestUri) == Some(second.response)
    ensures Resolve(Paths(), b, Some(resolver), Start([uri]), [], rootBytes, 0) ==
            Outcome(None, [first, second], [Pending(uri, 1), Pending(second.requestUri, 2)])
  {
    hide Names;
    hide Faithful;
    hide Extend;
    hide Sibling;
    hide Resolve;
    var w0, w1 := Start([uri]), Work([Pending(second.requestUri, 2)], Names(first), [first]);
    assert w0.queue == [Pending(uri, 1)];
    ExtendShape(w0, first);
    assert Extend(w0, first) == w1 by {
      assert PendingAt(first.references, 2) == [Pending(second.requestUri, 2)];
      assert {} + Names(first) == Names(first);
    }
    ResolveOne(Paths(), b, resolver, w0, [], rootBytes, 0, first);
    ExtendShape(w1, second);
    var w2 := Extend(w1, second);
    assert [] + [Pending(uri, 1)] == [Pending(uri, 1)] && w2.queue == [] && w2.documents == [first] + [second] == [first, second];
    ResolveOne(Paths(), b, resolver, w1, [Pending(uri, 1)], rootBytes + first.response.length, 0, second);
    ResolveNone(Paths(), b, resolver, w2, [Pending(uri, 1)] + [Pending(second.requestUri, 2)], rootBytes + first.response.length + second.response.length, 0);
  }

  lemma ResolveNone(u: Urls, b: Budget, resolver: Resolver, w: Work, calls: seq<Pending>, totalBytes: nat, totalRedirects: nat)
    requires w.queue == [] && totalBytes <= b.maxBytes
    ensures Resolve(u, b, Some(resolver), w, calls, totalBytes, totalRedirects) == Outcome(None, w.documents, calls)
  {
  }
}
