/**
 Stdio framing of src/transport/StdioTransport.ts: one JSON-RPC message per
 line, decoded from arbitrary chunks and written one line at a time. The JSON-RPC
 codec is a pair of functions on messages and bytes.
 */
module StdioFraming {
  import opened Common

  type Message(==, !new)

  datatype Stage = Write | Decode | FrameTooLarge | Eof | Closed

  const LF: Byte := 0x0a
  const CR: Byte := 0x0d

  // ----- the line-by-line reference -----

  /** All messages of the stream before its end or first bad line, and how it ended. */
  datatype Outcome = Outcome(messages: seq<Message>, failure: Option<Stage>)

  /** `chunk.indexOf(lineFeed)`, with the length for "absent". */
  function IndexOfLF(s: Bytes): (n: nat)
    ensures n <= |s|
    ensures n < |s| ==> s[n] == LF
    ensures forall i :: 0 <= i < n ==> s[i] != LF
  {
    if s == [] || s[0] == LF then 0 else 1 + IndexOfLF(s[1..])
  }

  predicate NoLF(s: Bytes) {
    forall i :: 0 <= i < |s| ==> s[i] != LF
  }

  predicate EndsWithCR(s: Bytes) {
    s != [] && s[|s| - 1] == CR
  }

  /** A line's content: one trailing CR belongs to the terminator. */
  function Content(line: Bytes): Bytes {
    if EndsWithCR(line) then line[..|line| - 1] else line
  }

  /** An unterminated line that no continuation can bring within the limit. */
  predicate Hopeless(partial: Bytes, max: nat) {
    |partial| > max + 1 || (|partial| == max + 1 && !EndsWithCR(partial))
  }

  function DecodeLine(decode: Bytes -> Option<Message>, line: Bytes, max: nat): Result<Message, Stage> {
    if |Content(line)| > max then Err(FrameTooLarge)
    else
      match decode(Content(line))
      case None => Err(Decode)
      case Some(m) => Ok(m)
  }

  function After(messages: seq<Message>, rest: Outcome): Outcome {
    Outcome(messages + rest.messages, rest.failure)
  }

  /** A bad line ends the reading; a good one is followed by the rest. */
  function LineThen(line: Result<Message, Stage>, rest: Outcome): Outcome {
    match line
    case Err(stage) => Outcome([], Some(stage))
    case Ok(m) => After([m], rest)
  }

  /** Read a whole byte stream line by line. */
  function Reference(decode: Bytes -> Option<Message>, stream: Bytes, max: nat): Outcome
    decreases |stream|
  {
    var n := IndexOfLF(stream);
    if n == |stream| then
      Outcome([], if Hopeless(stream, max) then Some(FrameTooLarge) else if stream == [] then None else Some(Eof))
    else
      LineThen(DecodeLine(decode, stream[..n], max), Reference(decode, stream[n + 1..], max))
  }

  // ----- one chunk -----

  datatype Fed = Fed(buffered: Bytes, messages: seq<Message>)

  /** The result of the rest of the chunk put behind the messages already read. */
  function Prepend(messages: seq<Message>, rest: Result<Fed, Stage>): Result<Fed, Stage> {
    match rest
    case Err(stage) => Err(stage)
    case Ok(fed) => Ok(Fed(fed.buffered, messages + fed.messages))
  }

  function FeedThen(line: Result<Message, Stage>, rest: Result<Fed, Stage>): Result<Fed, Stage> {
    match line
    case Err(stage) => Err(stage)
    case Ok(m) => Prepend([m], rest)
  }

  /** What one chunk does to the bytes of the unfinished line. */
  function Feed(decode: Bytes -> Option<Message>, buffered: Bytes, chunk: Bytes, max: nat): Result<Fed, Stage>
    decreases |chunk|
  {
    if chunk == [] then Ok(Fed(buffered, []))
    else
      var n := IndexOfLF(chunk);
      if n == |chunk| then
        if Hopeless(buffered + chunk, max) then Err(FrameTooLarge) else Ok(Fed(buffered + chunk, []))
      else
        FeedThen(DecodeLine(decode, buffered + chunk[..n], max), Feed(decode, [], chunk[n + 1..], max))
  }

  /** Bytes with no line feed in front of the next line feed belong to its line. */
  lemma IndexOfPrefixed(a: Bytes, b: Bytes)
    requires NoLF(a)
    ensures IndexOfLF(a + b) == |a| + IndexOfLF(b)
  {
    var n := IndexOfLF(a + b);
    var k := IndexOfLF(b);
    assert n < |a + b| ==> n >= |a| && b[n - |a|] == LF;
    assert k < |b| ==> (a + b)[|a| + k] == LF;
    assert forall i :: 0 <= i < |a| + k ==> (a + b)[i] != LF;
  }

  lemma ReferenceLine(decode: Bytes -> Option<Message>, line: Bytes, rest: Bytes, max: nat)
    requires NoLF(line)
    ensures Reference(decode, line + [LF] + rest, max) ==
            LineThen(DecodeLine(decode, line, max), Reference(decode, rest, max))
  {
    var s := line + [LF] + rest;
    assert s == line + ([LF] + rest);
    IndexOfPrefixed(line, [LF] + rest);
    assert s[..|line|] == line;
    assert s[|line| + 1..] == rest;
  }

  /** No continuation of a hopeless partial line is accepted. */
  lemma HopelessStays(decode: Bytes -> Option<Message>, partial: Bytes, more: Bytes, max: nat)
    requires NoLF(partial) && Hopeless(partial, max)
    ensures Reference(decode, partial + more, max) == Outcome([], Some(FrameTooLarge))
  {
    IndexOfPrefixed(partial, more);
    var n := IndexOfLF(partial + more);
    var line := (partial + more)[..n];
    assert |line| >= |partial|;
    assert |line| == |partial| ==> line == partial;
  }

  lemma LineFirst(buffered: Bytes, chunk: Bytes, more: Bytes, n: nat)
    requires n < |chunk| && chunk[n] == LF
    ensures buffered + (chunk + more) == (buffered + chunk[..n]) + [LF] + (chunk[n + 1..] + more)
  {
    var head, rest := chunk[..n], chunk[n + 1..];
    assert chunk == head + ([LF] + rest);
    Assoc(head, [LF] + rest, more);
    Assoc([LF], rest, more);
    Assoc(buffered, head, [LF] + (rest + more));
    Assoc(buffered + head, [LF], rest + more);
  }

  /** Feeding a chunk peels exactly its complete lines off the reference reading. */
  lemma {:induction false} FeedAgrees(decode: Bytes -> Option<Message>, buffered: Bytes, chunk: Bytes, more: Bytes, max: nat)
    requires NoLF(buffered) && !Hopeless(buffered, max)
    ensures var whole := Reference(decode, buffered + (chunk + more), max);
            match Feed(decode, buffered, chunk, max) {
              case Ok(fed) =>
                && NoLF(fed.buffered) && !Hopeless(fed.buffered, max)
                && whole == After(fed.messages, Reference(decode, fed.buffered + more, max))
              case Err(stage) => whole.failure == Some(stage)
            }
    decreases |chunk|
  {
    hide Reference;
    hide DecodeLine;
    if chunk == [] {
      assert chunk + more == more;
    } else {
      var n := IndexOfLF(chunk);
      if n == |chunk| {
        Assoc(buffered, chunk, more);
        if Hopeless(buffered + chunk, max) {
          HopelessStays(decode, buffered + chunk, more, max);
        } else {
          var whole := Reference(decode, buffered + (chunk + more), max);
          assert [] + whole.messages == whole.messages;
        }
      } else {
        var line, rest := buffered + chunk[..n], chunk[n + 1..];
        LineFirst(buffered, chunk, more, n);
        ReferenceLine(decode, line, rest + more, max);
        assert [] + (rest + more) == rest + more;
        FeedAgrees(decode, [], rest, more, max);
        match DecodeLine(decode, line, max) {
          case Err(_) =>
          case Ok(m) =>
            if Feed(decode, [], rest, max).Ok? {
              var fed := Feed(decode, [], rest, max).value;
              Assoc([m], fed.messages, Reference(decode, fed.buffered + more, max).messages);
            }
        }
      }
    }
  }

  // ----- the chunk loop and the stream loop as the source runs them -----

  /** `append`. */
  function Append(left: Bytes, right: Bytes): (r: Bytes)
    ensures r == left + right
  {
    if |left| == 0 then right else if |right| == 0 then left else left + right
  }

  lemma FeedLine(decode: Bytes -> Option<Message>, buffered: Bytes, chunk: Bytes, max: nat, offset: nat, end: nat)
    requires offset < |chunk| && end == offset + IndexOfLF(chunk[offset..]) && end < |chunk|
    ensures Feed(decode, buffered, chunk[offset..], max) ==
            FeedThen(DecodeLine(decode, buffered + chunk[offset..end], max), Feed(decode, [], chunk[end + 1..], max))
  {
    hide DecodeLine;
    hide FeedThen;
    hide Prepend;
    hide IndexOfLF;
    var rest, n := chunk[offset..], end - offset;
    assert rest != [];
    assert rest[..n] == chunk[offset..end] && rest[n + 1..] == chunk[end + 1..];
  }

  lemma FeedTail(decode: Bytes -> Option<Message>, buffered: Bytes, chunk: Bytes, max: nat, offset: nat)
    requires offset < |chunk| && offset + IndexOfLF(chunk[offset..]) == |chunk|
    ensures Feed(decode, buffered, chunk[offset..], max) ==
            if Hopeless(buffered + chunk[offset..], max) then Err(FrameTooLarge) else Ok(Fed(buffered + chunk[offset..], []))
  {
  }

  lemma PrependAppend(messages: seq<Message>, line: Result<Message, Stage>, rest: Result<Fed, Stage>)
    ensures line.Ok? ==> Prepend(messages, FeedThen(line, rest)) == Prepend(messages + [line.value], rest)
    ensures line.Err? ==> Prepend(messages, FeedThen(line, rest)) == Err(line.error)
    ensures Prepend([], rest) == rest
  {
    if rest.Ok? {
      assert [] + rest.value.messages == rest.value.messages;
      if line.Ok? {
        Assoc(messages, [line.value], rest.value.messages);
      }
    }
  }

  /** The last byte of the unfinished line, found without joining its parts. */
  lemma LastByte(buffered: Bytes, segment: Bytes)
    ensures EndsWithCR(buffered + segment) ==
            if |segment| > 0 then segment[|segment| - 1] == CR else EndsWithCR(buffered)
  {
    if segment == [] {
      assert buffered + segment == buffered;
    }
  }

  /** What the branch without a newline must return or store. */
  lemma TailOutcome(decode: Bytes -> Option<Message>, buffered: Bytes, chunk: Bytes, max: nat, offset: nat, messages: seq<Message>)
    requires offset < |chunk| && offset + IndexOfLF(chunk[offset..]) == |chunk|
    ensures var partial := buffered + chunk[offset..];
            Prepend(messages, Feed(decode, buffered, chunk[offset..], max)) ==
            if Hopeless(partial, max) then Err(FrameTooLarge) else Prepend(messages, Feed(decode, partial, [], max))
  {
    FeedTail(decode, buffered, chunk, max, offset);
  }

  /** The newline branch: strip one CR, check the length, join the parts, decode. */
  method ReadLine(decode: Bytes -> Option<Message>, buffered: Bytes, segment: Bytes, max: nat) returns (r: Result<Message, Stage>)
    ensures r == DecodeLine(decode, buffered + segment, max)
  {
    LastByte(buffered, segment);
    var hasCr := if |segment| > 0 then segment[|segment| - 1] == CR else EndsWithCR(buffered);
    var contentLength := |buffered| + |segment| - if hasCr then 1 else 0;
    if contentLength > max {
      return Err(FrameTooLarge);
    }
    var framed := Append(buffered, segment);
    var line := if hasCr then framed[..|framed| - 1] else framed;
    var decoded := decode(line);
    return if decoded.None? then Err(Decode) else Ok(decoded.value);
  }

  /** The branch without a newline: the rest of the chunk joins the unfinished line. */
  method KeepTail(buffered: Bytes, segment: Bytes, max: nat) returns (r: Result<Bytes, Stage>)
    ensures r == if Hopeless(buffered + segment, max) then Err(FrameTooLarge) else Ok(buffered + segment)
  {
    LastByte(buffered, segment);
    var combinedLength := |buffered| + |segment|;
    var endsWithCr := if |segment| > 0 then segment[|segment| - 1] == CR else EndsWithCR(buffered);
    if combinedLength > max + 1 || (combinedLength == max + 1 && !endsWithCr) {
      return Err(FrameTooLarge);
    }
    r := Ok(Append(buffered, segment));
  }

  /** `consumeChunk`. */
  method ConsumeChunk(decode: Bytes -> Option<Message>, state: Bytes, chunk: Bytes, max: nat) returns (r: Result<Fed, Stage>)
    ensures r == Feed(decode, state, chunk, max)
  {
    hide IndexOfLF;
    hide Hopeless;
    hide FeedThen;
    hide DecodeLine;
    var buffered := state;
    var offset := 0;
    var messages: seq<Message> := [];
    assert chunk[0..] == chunk;
    PrependAppend([], Err(Decode), Feed(decode, state, chunk, max));
    while offset < |chunk|
      invariant 0 <= offset <= |chunk|
      invariant Feed(decode, state, chunk, max) == Prepend(messages, Feed(decode, buffered, chunk[offset..], max))
      decreases |chunk| - offset
    {
      hide Feed;
      hide Prepend;
      var newline := offset + IndexOfLF(chunk[offset..]);
      var segment := chunk[offset..newline];
      if newline == |chunk| {
        TailOutcome(decode, buffered, chunk, max, offset, messages);
        assert segment == chunk[offset..];
        var kept := KeepTail(buffered, segment, max);
        if kept.Err? {
          return Err(kept.error);
        }
        buffered := kept.value;
        offset := newline;
        assert chunk[offset..] == [];
        continue;
      }
      FeedLine(decode, buffered, chunk, max, offset, newline);
      var line := ReadLine(decode, buffered, segment, max);
      PrependAppend(messages, line, Feed(decode, [], chunk[newline + 1..], max));
      if line.Err? {
        return Err(line.error);
      }
      messages := messages + [line.value];
      buffered := [];
      offset := newline + 1;
    }
    FeedNothing(decode, buffered, chunk[offset..], max);
    assert messages + [] == messages;
    return Ok(Fed(buffered, messages));
  }

  lemma FeedNothing(decode: Bytes -> Option<Message>, buffered: Bytes, rest: Bytes, max: nat)
    requires rest == []
    ensures Feed(decode, buffered, rest, max) == Ok(Fed(buffered, []))
  {
  }

  function Flatten(chunks: seq<Bytes>): Bytes {
    if chunks == [] then [] else chunks[0] + Flatten(chunks[1..])
  }

  lemma FlattenSnoc(chunks: seq<Bytes>, chunk: Bytes)
    ensures Flatten(chunks + [chunk]) == Flatten(chunks) + chunk
  {
    if chunks == [] {
      assert chunks + [chunk] == [chunk] && [chunk][1..] == [] && chunk + [] == chunk && [] + chunk == chunk;
    } else {
      assert (chunks + [chunk])[0] == chunks[0] && (chunks + [chunk])[1..] == chunks[1..] + [chunk];
      FlattenSnoc(chunks[1..], chunk);
      Assoc(chunks[0], Flatten(chunks[1..]), chunk);
    }
  }

  /** The bytes behind the last line feed. */
  function LastLine(stream: Bytes): Bytes {
    if stream == [] || stream[|stream| - 1] == LF then [] else LastLine(stream[..|stream| - 1]) + [stream[|stream| - 1]]
  }

  lemma {:induction false} LastLineConcat(a: Bytes, b: Bytes)
    ensures LastLine(a + b) == if LF in b then LastLine(b) else LastLine(a) + b
  {
    if b == [] {
      assert a + b == a && LastLine(a) + b == LastLine(a);
    } else {
      var init, last := b[..|b| - 1], b[|b| - 1];
      assert b == init + [last] && (a + b)[..|a + b| - 1] == a + init;
      LastLineConcat(a, init);
      Assoc(LastLine(a), init, [last]);
    }
  }

  lemma LastLineTwice(a: Bytes, b: Bytes)
    ensures LastLine(LastLine(a) + b) == LastLine(a + b)
  {
    LastLineConcat(a, b);
    LastLineConcat(LastLine(a), b);
    LastLineNoLF(a);
    LastLineConcat([], LastLine(a));
    assert [] + LastLine(a) == LastLine(a);
  }

  lemma {:induction false} LastLineNoLF(a: Bytes)
    ensures NoLF(LastLine(a))
  {
    if a != [] { LastLineNoLF(a[..|a| - 1]); }
  }

  /** A chunk leaves its last line unfinished. */
  lemma {:induction false} FeedKeepsLastLine(decode: Bytes -> Option<Message>, buffered: Bytes, chunk: Bytes, max: nat)
    requires NoLF(buffered) && Feed(decode, buffered, chunk, max).Ok?
    ensures Feed(decode, buffered, chunk, max).value.buffered == LastLine(buffered + chunk)
    decreases |chunk|
  {
    hide DecodeLine;
    hide Hopeless;
    hide LastLine;
    LastLineConcat([], buffered + chunk);
    assert [] + (buffered + chunk) == buffered + chunk;
    assert LastLine([]) == [] by { LastLineOfNothing(); }
    var n := IndexOfLF(chunk);
    if chunk == [] {
      assert buffered + chunk == buffered;
    } else if n < |chunk| {
      var line, rest := buffered + chunk[..n], chunk[n + 1..];
      FeedKeepsLastLine(decode, [], rest, max);
      LineFirst(buffered, chunk, [], n);
      assert chunk + [] == chunk && rest + [] == rest && [] + rest == rest;
      LastLineConcat(line + [LF], rest);
      LastLineConcat(line, [LF]);
      LastLineOfNothing();
      LastLineConcat([], rest);
    }
  }

  lemma LastLineOfNothing()
    ensures LastLine([]) == [] && LastLine([LF]) == []
  {
  }

  /** The first line that a chunk completes is bad, or it completes none. */
  predicate BadFirstLine(decode: Bytes -> Option<Message>, buffered: Bytes, chunk: Bytes, max: nat) {
    var n := IndexOfLF(chunk);
    n == |chunk| || DecodeLine(decode, buffered + chunk[..n], max).Err?
  }

  /** A failing chunk completes no good line exactly when its own first line is the bad one. */
  lemma FirstLineDecides(decode: Bytes -> Option<Message>, buffered: Bytes, chunk: Bytes, more: Bytes, max: nat)
    requires NoLF(buffered) && Feed(decode, buffered, chunk, max).Err?
    ensures Reference(decode, buffered + (chunk + more), max).messages == [] <==> BadFirstLine(decode, buffered, chunk, max)
  {
    hide DecodeLine;
    var n := IndexOfLF(chunk);
    if n < |chunk| {
      hide Feed;
      LineFirst(buffered, chunk, more, n);
      ReferenceLine(decode, buffered + chunk[..n], chunk[n + 1..] + more, max);
      hide Reference;
    } else {
      HopelessStays(decode, buffered + chunk, more, max);
      Assoc(buffered, chunk, more);
      hide Reference;
    }
  }

  lemma {:induction false} FeedFails(decode: Bytes -> Option<Message>, buffered: Bytes, chunk: Bytes, max: nat)
    requires Feed(decode, buffered, chunk, max).Err?
    ensures Feed(decode, buffered, chunk, max).error in {Decode, FrameTooLarge}
    decreases |chunk|
  {
    hide IndexOfLF;
    hide Hopeless;
    var n := IndexOfLF(chunk);
    if n < |chunk| && Feed(decode, [], chunk[n + 1..], max).Err? {
      FeedFails(decode, [], chunk[n + 1..], max);
    }
  }

  /** After some bytes: what was emitted is their complete lines, what is buffered their last line, and whatever follows is read on from there. */
  ghost predicate Progress(decode: Bytes -> Option<Message>, read: Bytes, emitted: seq<Message>, buffered: Bytes, max: nat) {
    && NoLF(buffered) && !Hopeless(buffered, max) && buffered == LastLine(read)
    && forall rest: Bytes :: Reference(decode, read + rest, max) == After(emitted, Reference(decode, buffered + rest, max))
  }

  lemma ProgressStart(decode: Bytes -> Option<Message>, max: nat)
    ensures Progress(decode, [], [], [], max)
  {
    forall rest: Bytes ensures Reference(decode, [] + rest, max) == After([], Reference(decode, [] + rest, max)) {
      var r := Reference(decode, [] + rest, max);
      assert [] + r.messages == r.messages;
    }
  }

  lemma ProgressAt(decode: Bytes -> Option<Message>, read: Bytes, emitted: seq<Message>, buffered: Bytes, rest: Bytes, max: nat)
    requires Progress(decode, read, emitted, buffered, max)
    ensures Reference(decode, read + rest, max) == After(emitted, Reference(decode, buffered + rest, max))
  {
    hide Reference;
    hide After;
  }

  lemma ChunkReadsOn(decode: Bytes -> Option<Message>, read: Bytes, emitted: seq<Message>, buffered: Bytes, chunk: Bytes, rest: Bytes, max: nat)
    requires Progress(decode, read, emitted, buffered, max) && NoLF(buffered) && !Hopeless(buffered, max)
    requires Feed(decode, buffered, chunk, max).Ok?
    ensures var fed := Feed(decode, buffered, chunk, max).value;
            Reference(decode, (read + chunk) + rest, max) == After(emitted + fed.messages, Reference(decode, fed.buffered + rest, max))
  {
    hide *;
    ProgressAt(decode, read, emitted, buffered, chunk + rest, max);
    FeedAgrees(decode, buffered, chunk, rest, max);
    Assoc(read, chunk, rest);
    var fed := Feed(decode, buffered, chunk, max).value;
    AfterAfter(emitted, fed.messages, Reference(decode, fed.buffered + rest, max));
  }

  lemma AfterAfter(a: seq<Message>, b: seq<Message>, rest: Outcome)
    ensures After(a, After(b, rest)) == After(a + b, rest)
  {
    Assoc(a, b, rest.messages);
  }

  lemma ProgressChunk(decode: Bytes -> Option<Message>, read: Bytes, emitted: seq<Message>, buffered: Bytes, chunk: Bytes, max: nat)
    requires Progress(decode, read, emitted, buffered, max) && Feed(decode, buffered, chunk, max).Ok?
    ensures var fed := Feed(decode, buffered, chunk, max).value;
            Progress(decode, read + chunk, emitted + fed.messages, fed.buffered, max)
  {
    var fed := Feed(decode, buffered, chunk, max).value;
    FeedAgrees(decode, buffered, chunk, [], max);
    FeedKeepsLastLine(decode, buffered, chunk, max);
    LastLineTwice(read, chunk);
    forall rest: Bytes
      ensures Reference(decode, (read + chunk) + rest, max) == After(emitted + fed.messages, Reference(decode, fed.buffered + rest, max))
    {
      ChunkReadsOn(decode, read, emitted, buffered, chunk, rest, max);
    }
    hide Reference;
    hide LastLine;
    hide Feed;
    hide Hopeless;
    hide After;
  }

  lemma ProgressFails(decode: Bytes -> Option<Message>, read: Bytes, emitted: seq<Message>, buffered: Bytes, chunk: Bytes, more: Bytes, max: nat)
    requires Progress(decode, read, emitted, buffered, max) && Feed(decode, buffered, chunk, max).Err?
    ensures var whole := Reference(decode, read + (chunk + more), max);
            && whole.failure == Some(Feed(decode, buffered, chunk, max).error)
            && emitted <= whole.messages && (emitted == whole.messages <==> BadFirstLine(decode, buffered, chunk, max))
  {
    hide Reference;
    hide LastLine;
    hide Feed;
    hide Hopeless;
    hide BadFirstLine;
    FeedAgrees(decode, buffered, chunk, more, max);
    FirstLineDecides(decode, buffered, chunk, more, max);
    var rest := Reference(decode, buffered + (chunk + more), max).messages;
    assert emitted + rest == emitted <==> rest == [];
  }

  lemma ProgressEnds(decode: Bytes -> Option<Message>, read: Bytes, emitted: seq<Message>, buffered: Bytes, max: nat)
    requires Progress(decode, read, emitted, buffered, max)
    ensures Reference(decode, read, max) == Outcome(emitted, if buffered == [] then None else Some(Eof))
  {
    hide Reference;
    assert read + [] == read && buffered + [] == buffered;
    ReferenceEnd(decode, buffered, max);
    assert emitted + [] == emitted;
  }

  /**
   `decode`: the messages of each chunk are emitted together, so a failing chunk emits
   nothing. Whatever the split into chunks, the failure is that of the line-by-line reading;
   emitted is exactly the reading of the chunks before the first one that holds a bad line
   (`consumed` of them), which is everything before the bad line if and only if that chunk's
   own first line is the bad one. The buffer never holds more than `maxLineBytes` + 1 bytes.
   */
  method DecodeStream(decode: Bytes -> Option<Message>, chunks: seq<Bytes>, max: nat)
    returns (emitted: seq<Message>, failure: Option<Stage>, ghost consumed: nat)
    ensures failure == Reference(decode, Flatten(chunks), max).failure
    ensures emitted <= Reference(decode, Flatten(chunks), max).messages
    ensures failure.None? ==> emitted == Reference(decode, Flatten(chunks), max).messages
    ensures consumed <= |chunks| && emitted == Reference(decode, Flatten(chunks[..consumed]), max).messages
    ensures Reference(decode, Flatten(chunks[..consumed]), max).failure in {None, Some(Eof)}
    ensures consumed < |chunks| ==> failure.Some? && failure == Reference(decode, Flatten(chunks[..consumed + 1]), max).failure != Some(Eof)
    ensures emitted == Reference(decode, Flatten(chunks), max).messages <==>
            consumed == |chunks| || BadFirstLine(decode, LastLine(Flatten(chunks[..consumed])), chunks[consumed], max)
  {
    hide *;
    var buffered: Bytes := [];
    emitted, consumed := [], 0;
    ProgressStart(decode, max);
    FlattenNothing();
    assert chunks[..0] == [];
    for index := 0 to |chunks|
      invariant consumed == index && Progress(decode, Flatten(chunks[..index]), emitted, buffered, max)
    {
      var chunk := chunks[index];
      ghost var read, more := Flatten(chunks[..index]), Flatten(chunks[index + 1..]);
      assert chunks[..index + 1] == chunks[..index] + [chunk];
      FlattenSnoc(chunks[..index], chunk);
      FlattenSplit(chunks, index);
      ProgressEnds(decode, read, emitted, buffered, max);
      ProgressParts(decode, read, emitted, buffered, max);
      var fed := ConsumeChunk(decode, buffered, chunk, max);
      if fed.Err? {
        FeedFails(decode, buffered, chunk, max);
        ProgressFails(decode, read, emitted, buffered, chunk, more, max);
        ProgressFails(decode, read, emitted, buffered, chunk, [], max);
        assert chunk + [] == chunk;
        return emitted, Some(fed.error), index;
      }
      ProgressChunk(decode, read, emitted, buffered, chunk, max);
      emitted, buffered, consumed := emitted + fed.value.messages, fed.value.buffered, index + 1;
    }
    assert chunks[..|chunks|] == chunks;
    ProgressEnds(decode, Flatten(chunks), emitted, buffered, max);
    if |buffered| == 0 {
      return emitted, None, |chunks|;
    }
    return emitted, Some(Eof), |chunks|;
  }

  /** The buffer never holds more than `maxLineBytes` + 1 bytes. */
  lemma ProgressParts(decode: Bytes -> Option<Message>, read: Bytes, emitted: seq<Message>, buffered: Bytes, max: nat)
    requires Progress(decode, read, emitted, buffered, max)
    ensures buffered == LastLine(read) && |buffered| <= max + 1
  {
    hide LastLine;
    hide Reference;
  }

  lemma FlattenNothing()
    ensures Flatten([]) == []
  {
  }

  lemma FlattenSplit(chunks: seq<Bytes>, index: nat)
    requires index < |chunks|
    ensures Flatten(chunks) == Flatten(chunks[..index]) + (chunks[index] + Flatten(chunks[index + 1..]))
  {
    if index == 0 {
      assert chunks[..0] == [];
    } else {
      FlattenSplit(chunks[1..], index - 1);
      assert chunks[1..][..index - 1] == chunks[..index][1..] && chunks[1..][index..] == chunks[index + 1..];
      Assoc(chunks[0], Flatten(chunks[..index][1..]), chunks[index] + Flatten(chunks[index + 1..]));
    }
  }

  /** The same bytes with a bad second line: in one chunk the good line is lost, in two chunks it is emitted. */
  method SplitDecides(decode: Bytes -> Option<Message>, good: Bytes, bad: Bytes, max: nat) returns (together: seq<Message>, apart: seq<Message>)
    requires NoLF(good) && NoLF(bad) && DecodeLine(decode, good, max).Ok? && DecodeLine(decode, bad, max).Err?
    ensures together == [] && apart == [DecodeLine(decode, good, max).value]
  {
    TwoLines(decode, good, bad, max);
    hide *;
    var first, second := good + [LF], bad + [LF];
    FlattenTwo(first, second);
    var failure, failureApart;
    ghost var consumed, consumedApart;
    ghost var whole, split := [first + second], [first, second];
    assert whole[..0] == [] && whole[..1] == whole && split[..0] == [] && split[..1] == [first] && split[..2] == split;
    together, failure, consumed := DecodeStream(decode, [first + second], max);
    apart, failureApart, consumedApart := DecodeStream(decode, [first, second], max);
  }

  lemma FlattenTwo(first: Bytes, second: Bytes)
    ensures Flatten([]) == [] && Flatten([first]) == first && Flatten([first + second]) == first + second == Flatten([first, second])
  {
    FlattenSnoc([], first);
    FlattenSnoc([first], second);
    FlattenSnoc([], first + second);
    assert [] + [first] == [first] && [first] + [second] == [first, second] && [] + [first + second] == [first + second];
    assert [] + first == first && [] + (first + second) == first + second;
  }

  lemma TwoLines(decode: Bytes -> Option<Message>, good: Bytes, bad: Bytes, max: nat)
    requires NoLF(good) && NoLF(bad) && DecodeLine(decode, good, max).Ok? && DecodeLine(decode, bad, max).Err?
    ensures var m := DecodeLine(decode, good, max).value;
            && Reference(decode, [], max) == Outcome([], None)
            && Reference(decode, good + [LF], max) == Outcome([m], None)
            && Reference(decode, (good + [LF]) + (bad + [LF]), max) == Outcome([m], Some(DecodeLine(decode, bad, max).error))
            && DecodeLine(decode, bad, max).error != Eof
  {
    ReferenceLine(decode, good, [], max);
    ReferenceLine(decode, good, bad + [LF], max);
    ReferenceLine(decode, bad, [], max);
    assert good + [LF] + [] == good + [LF] && bad + [LF] + [] == bad + [LF];
    ReferenceEnd(decode, [], max);
    hide Reference;
  }

  lemma ReferenceEnd(decode: Bytes -> Option<Message>, buffered: Bytes, max: nat)
    requires NoLF(buffered) && !Hopeless(buffered, max)
    ensures Reference(decode, buffered, max) == Outcome([], if buffered == [] then None else Some(Eof))
  {
  }

  // ----- the writer -----

  /** `encodeJsonRpcBytes`, None for its failure. */
  type Encoder = Message -> Option<Bytes>

  /** What the writer sends for one message: a line, or nothing when the message does not encode. */
  function Line(encode: Encoder, m: Message): Bytes {
    if encode(m).Some? then encode(m).value + [LF] else []
  }

  /** The bytes the writer sends for each message, one line each. */
  function Frames(encode: Encoder, messages: seq<Message>): Bytes {
    if messages == [] then [] else Line(encode, messages[0]) + Frames(encode, messages[1..])
  }

  /** `makeWriter`, with the bytes accepted by `write` as its output. */
  class Writer {
    const encode: Encoder
    var closed: bool
    var output: Bytes

    constructor (encode: Encoder)
      ensures this.encode == encode && !closed && output == []
    {
      this.encode := encode;
      closed := false;
      output := [];
    }

    /** `send`: a closed writer, a message that does not encode and a failed write send nothing. */
    method Send(message: Message, accepted: bool) returns (failure: Option<Stage>)
      modifies this`output
      ensures failure == if closed then Some(Closed) else if encode(message).None? || !accepted then Some(Write) else None
      ensures output == if failure.None? then old(output) + Frames(encode, [message]) else old(output)
    {
      if closed {
        return Some(Closed);
      }
      var encoded := encode(message);
      if encoded.None? {
        return Some(Write);
      }
      var line := encoded.value + [LF];
      if !accepted {
        return Some(Write);
      }
      assert Frames(encode, [message]) == line + Frames(encode, []);
      output := output + line;
      return None;
    }

    method Close()
      modifies this`closed
      ensures closed
    {
      closed := true;
    }
  }

  /** The codec on one message: what is written is one line within the limit and reads back. */
  ghost predicate RoundTrips(encode: Encoder, decode: Bytes -> Option<Message>, m: Message, max: nat) {
    match encode(m)
    case None => false
    case Some(line) => NoLF(line) && !EndsWithCR(line) && |line| <= max && decode(line) == Some(m)
  }

  /** Reading back what was written gives the messages sent. */
  lemma {:induction false} FramesReadBack(encode: Encoder, decode: Bytes -> Option<Message>, messages: seq<Message>, max: nat)
    requires forall m :: m in messages ==> RoundTrips(encode, decode, m, max)
    ensures Reference(decode, Frames(encode, messages), max) == Outcome(messages, None)
  {
    if messages != [] {
      hide Reference;
      var m := messages[0];
      assert RoundTrips(encode, decode, m, max);
      FramesReadBack(encode, decode, messages[1..], max);
      ReferenceLine(decode, encode(m).value, Frames(encode, messages[1..]), max);
      Head(messages);
    } else {
      assert IndexOfLF([]) == 0;
    }
  }

  /** The decoder run on the writer's bytes, whatever the split into chunks, emits exactly the messages sent and does not fail. */
  method AnySplitReadsBack(encode: Encoder, decode: Bytes -> Option<Message>, ghost messages: seq<Message>, chunks: seq<Bytes>, max: nat)
    returns (emitted: seq<Message>, failure: Option<Stage>)
    requires forall m :: m in messages ==> RoundTrips(encode, decode, m, max)
    requires Flatten(chunks) == Frames(encode, messages)
    ensures failure.None? && emitted == messages
  {
    FramesReadBack(encode, decode, messages, max);
    ghost var consumed;
    emitted, failure, consumed := DecodeStream(decode, chunks, max);
  }

  // ----- any writer's line endings -----

  /** One line as another writer may send it. */
  datatype Sent = Sent(content: Bytes, crlf: bool)

  function Ending(crlf: bool): Bytes {
    if crlf then [0x0d, 0x0a] else [0x0a]
  }

  function Wire(lines: seq<Sent>): Bytes {
    if lines == [] then [] else lines[0].content + (Ending(lines[0].crlf) + Wire(lines[1..]))
  }

  /** A line is its content without its ending, LF or CR LF: a message, or the failure of a content that is too long or does not decode. */
  lemma LineExactly(decode: Bytes -> Option<Message>, content: Bytes, crlf: bool, rest: Bytes, max: nat)
    requires NoLF(content) && (content == [] || content[|content| - 1] != 0x0d)
    ensures Reference(decode, content + (Ending(crlf) + rest), max) ==
            if |content| > max then Outcome([], Some(FrameTooLarge))
            else if decode(content).None? then Outcome([], Some(Decode))
            else After([decode(content).value], Reference(decode, rest, max))
  {
    var line := if crlf then content + [CR] else content;
    assert Content(line) == content;
    assert content + (Ending(crlf) + rest) == line + [LF] + rest;
    ReferenceLine(decode, line, rest, max);
    hide Reference;
  }

  /** Reading does not depend on the line endings: LF, CR LF, or any mixture. */
  lemma {:induction false} LineEndingsAgree(decode: Bytes -> Option<Message>, a: seq<Sent>, b: seq<Sent>, max: nat)
    requires |a| == |b|
    requires forall i :: 0 <= i < |a| ==> a[i].content == b[i].content && NoLF(a[i].content) && (a[i].content == [] || a[i].content[|a[i].content| - 1] != 0x0d)
    ensures Reference(decode, Wire(a), max) == Reference(decode, Wire(b), max)
  {
    hide Reference;
    if a != [] {
      LineExactly(decode, a[0].content, a[0].crlf, Wire(a[1..]), max);
      LineExactly(decode, b[0].content, b[0].crlf, Wire(b[1..]), max);
      LineEndingsAgree(decode, a[1..], b[1..], max);
    }
  }
}
