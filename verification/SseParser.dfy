/**
 The server-sent-events reader of src/transport/StreamableHttpClientTransport.ts,
 a restriction of section 9.2.6 of the WHATWG HTML Living Standard, and the frames
 src/transport/StreamableHttpServerTransport.ts writes. The reader works byte by
 byte over arbitrary chunks; the reference reads whole lines.
 */
module SseParser {
  import opened Common

  const LF: Byte := 0x0a
  const CR: Byte := 0x0d
  const COLON: Byte := 0x3a
  const SPACE: Byte := 0x20

  /** `data`, `event`, `message`. */
  const DATA: Bytes := [0x64, 0x61, 0x74, 0x61]
  const EVENT: Bytes := [0x65, 0x76, 0x65, 0x6e, 0x74]
  const MESSAGE: Bytes := [0x6d, 0x65, 0x73, 0x73, 0x61, 0x67, 0x65]

  datatype Failure = LineTooLong | EventTooLarge | InvalidUtf8 | BareCarriageReturn | NonMessageEvent | PartialEvent

  /** The two limits, and which byte sequences the fatal UTF-8 decoder accepts. */
  datatype Config = Config(maxLineBytes: nat, maxEventBytes: nat, valid: Bytes -> bool)

  /** The fields of the event being assembled. */
  datatype Pending = Pending(data: seq<Bytes>, eventType: Option<Bytes>, wireBytes: nat)

  const NoEvent: Pending := Pending([], None, 0)

  datatype Input = Event(payload: Bytes) | Eof

  // ----- lines -----

  function IndexOf(s: Bytes, b: Byte): (n: nat)
    ensures n <= |s|
    ensures n < |s| ==> s[n] == b
    ensures forall i :: 0 <= i < n ==> s[i] != b
  {
    if s == [] || s[0] == b then 0 else 1 + IndexOf(s[1..], b)
  }

  predicate Without(s: Bytes, b: Byte) {
    forall i :: 0 <= i < |s| ==> s[i] != b
  }

  /** Longer than the limit, one trailing CR allowed on top of it. */
  predicate Overlong(line: Bytes, max: nat) {
    |line| > max + 1 || (|line| == max + 1 && line[max] != CR)
  }

  function StripCR(line: Bytes): Bytes {
    if line != [] && line[|line| - 1] == CR then line[..|line| - 1] else line
  }

  /** The value of a field line: what follows the first colon and one optional space. */
  function FieldValue(line: Bytes): Bytes {
    var colon := IndexOf(line, COLON);
    var offset := if colon < |line| then colon + 1 else colon;
    if offset < |line| && line[offset] == SPACE then line[offset + 1..] else line[offset..]
  }

  /** `decodeLine`: one non-empty line of an event. */
  function DecodeLine(cfg: Config, line: Bytes, p: Pending): Result<Pending, Failure>
    requires line != []
  {
    var wire := p.wireBytes + |line| + 1;
    var counted := p.(wireBytes := wire);
    if wire > cfg.maxEventBytes then Err(EventTooLarge)
    else if line[0] == COLON then if cfg.valid(line) then Ok(counted) else Err(InvalidUtf8)
    else
      var field, value := line[..IndexOf(line, COLON)], FieldValue(line);
      if !cfg.valid(field) || !cfg.valid(value) then Err(InvalidUtf8)
      else if field == DATA then Ok(counted.(data := p.data + [value]))
      else if field == EVENT then Ok(counted.(eventType := Some(value)))
      else Ok(counted)
  }

  /** `eventBytes`: the data lines joined by LF. */
  function Joined(data: seq<Bytes>): Bytes {
    if data == [] then [] else if |data| == 1 then data[0] else data[0] + ([LF] + Joined(data[1..]))
  }

  predicate MessageType(t: Option<Bytes>) {
    t.None? || t.value == [] || t.value == MESSAGE
  }

  // ----- the line-by-line reference -----

  /** The next event and the bytes after it, a clean end, or a failure. */
  datatype Next = Found(payload: Bytes, after: Bytes) | Ended | Failed(failure: Failure)

  function NextEvent(cfg: Config, s: Bytes, p: Pending): Next
    decreases |s|, 0
  {
    var n := IndexOf(s, LF);
    if Overlong(s[..n], cfg.maxLineBytes) then Failed(LineTooLong)
    else if n == |s| then if s == [] && p == NoEvent then Ended else Failed(PartialEvent)
    else AfterLine(cfg, StripCR(s[..n]), s[n + 1..], p)
  }

  /** One complete line without its terminator, then the rest of the stream. */
  function AfterLine(cfg: Config, line: Bytes, rest: Bytes, p: Pending): Next
    decreases |rest|, 1
  {
    if !Without(line, CR) then Failed(BareCarriageReturn)
    else if line != [] then
      match DecodeLine(cfg, line, p)
      case Err(failure) => Failed(failure)
      case Ok(p') => NextEvent(cfg, rest, p')
    else if !MessageType(p.eventType) then Failed(NonMessageEvent)
    else if p.data == [] then NextEvent(cfg, rest, NoEvent)
    else Found(Joined(p.data), rest)
  }

  /** One leading byte order mark is dropped. */
  function StripBom(s: Bytes): Bytes {
    if |s| >= 3 && s[0] == 0xef && s[1] == 0xbb && s[2] == 0xbf then s[3..] else s
  }

  function Flatten(chunks: seq<Bytes>): Bytes {
    if chunks == [] then [] else chunks[0] + Flatten(chunks[1..])
  }

  // ----- one byte at a time -----

  lemma IndexPastPrefix(line: Bytes, rest: Bytes, b: Byte)
    requires Without(line, b)
    ensures IndexOf(line + rest, b) == |line| + IndexOf(rest, b)
  {
    var n, k := IndexOf(line + rest, b), IndexOf(rest, b);
    assert n < |line + rest| ==> n >= |line| && rest[n - |line|] == b;
    assert k < |rest| ==> (line + rest)[|line| + k] == b;
    assert forall i :: 0 <= i < |line| + k ==> (line + rest)[i] != b;
  }

  /** The test made before a byte joins the line decides `Overlong`. */
  lemma PushLimit(line: Bytes, b: Byte, max: nat)
    requires !Overlong(line, max)
    ensures (|line| > max || (|line| == max && b != CR)) <==> Overlong(line + [b], max)
  {
  }

  /** An overlong beginning of a line fails whatever follows. */
  lemma OverlongFails(cfg: Config, line: Bytes, rest: Bytes, p: Pending)
    requires Without(line, LF) && Overlong(line, cfg.maxLineBytes)
    ensures NextEvent(cfg, line + rest, p) == Failed(LineTooLong)
  {
    IndexPastPrefix(line, rest, LF);
    var first := (line + rest)[..IndexOf(line + rest, LF)];
    assert line <= first;
  }

  lemma LineEnds(cfg: Config, line: Bytes, rest: Bytes, p: Pending)
    requires Without(line, LF) && !Overlong(line, cfg.maxLineBytes)
    ensures NextEvent(cfg, line + ([LF] + rest), p) == AfterLine(cfg, StripCR(line), rest, p)
  {
    hide AfterLine;
    var s := line + ([LF] + rest);
    IndexPastPrefix(line, [LF] + rest, LF);
    assert s[..|line|] == line && s[|line| + 1..] == rest;
  }

  lemma StreamEnds(cfg: Config, line: Bytes, p: Pending)
    requires Without(line, LF) && !Overlong(line, cfg.maxLineBytes)
    ensures NextEvent(cfg, line, p) == if line == [] && p == NoEvent then Ended else Failed(PartialEvent)
  {
    assert line[..|line|] == line;
  }

  // ----- payload bound -----

  function Total(data: seq<Bytes>): nat {
    if data == [] then 0 else |data[0]| + 1 + Total(data[1..])
  }

  lemma {:induction false} TotalAppend(data: seq<Bytes>, value: Bytes)
    ensures Total(data + [value]) == Total(data) + |value| + 1
  {
    if data == [] {
      assert [] + [value] == [value] && [value][1..] == [];
    } else {
      assert (data + [value])[1..] == data[1..] + [value];
      TotalAppend(data[1..], value);
    }
  }

  lemma {:induction false} JoinedLength(data: seq<Bytes>)
    requires data != []
    ensures |Joined(data)| + 1 == Total(data)
  {
    if |data| > 1 {
      JoinedLength(data[1..]);
    } else {
      assert data[1..] == [];
    }
  }

  /** What the fields collected so far can hold never exceeds the bytes counted, nor these the limit. */
  predicate Bounded(cfg: Config, p: Pending) {
    Total(p.data) <= p.wireBytes && (p.wireBytes == 0 || p.wireBytes <= cfg.maxEventBytes)
  }

  lemma DecodeLineBounded(cfg: Config, line: Bytes, p: Pending)
    requires line != [] && Bounded(cfg, p) && DecodeLine(cfg, line, p).Ok?
    ensures Bounded(cfg, DecodeLine(cfg, line, p).value)
  {
    TotalAppend(p.data, FieldValue(line));
  }

  /** Every event payload is at most `maxEventBytes` long. */
  lemma {:induction false} PayloadBound(cfg: Config, s: Bytes, p: Pending)
    requires Bounded(cfg, p) && NextEvent(cfg, s, p).Found?
    ensures |NextEvent(cfg, s, p).payload| <= cfg.maxEventBytes
    decreases |s|
  {
    var n := IndexOf(s, LF);
    var line, rest := StripCR(s[..n]), s[n + 1..];
    if line != [] {
      DecodeLineBounded(cfg, line, p);
      PayloadBound(cfg, rest, DecodeLine(cfg, line, p).value);
    } else if p.data == [] {
      PayloadBound(cfg, rest, NoEvent);
    } else {
      JoinedLength(p.data);
    }
  }

  // ----- the reader -----

  /** `SseState`: the body still to be read, the current chunk, and the line and event being assembled. */
  class Reader {
    const cfg: Config
    var body: seq<Bytes>
    var chunk: Bytes
    var chunkOffset: nat
    var bomChecked: bool
    var bomPrefix: Bytes
    var line: Bytes
    var data: seq<Bytes>
    var eventType: Option<Bytes>
    var eventWireBytes: nat

    ghost predicate Valid()
      reads this
    {
      && chunkOffset <= |chunk|
      && (!bomChecked ==> chunkOffset == |chunk| && |bomPrefix| < 3)
      && (bomChecked ==> bomPrefix == [])
    }

    /** The bytes the line reader has not seen yet, the byte order mark already dropped. */
    ghost function Remaining(): Bytes
      reads this
      requires Valid()
    {
      if bomChecked then chunk[chunkOffset..] + Flatten(body) else StripBom(bomPrefix + Flatten(body))
    }

    function Fields(): Pending
      reads this
    {
      Pending(data, eventType, eventWireBytes)
    }

    constructor (cfg: Config, body: seq<Bytes>)
      ensures Valid() && this.cfg == cfg && line == [] && Fields() == NoEvent
      ensures Remaining() == StripBom(Flatten(body))
    {
      this.cfg := cfg;
      this.body := body;
      chunk, chunkOffset, bomChecked, bomPrefix := [], 0, false, [];
      line, data, eventType, eventWireBytes := [], [], None, 0;
      new;
      assert [] + Flatten(body) == Flatten(body);
    }

    /** One `read()`: the next chunk is joined with the held-back bytes while the mark is undecided. */
    method TakeChunk()
      requires Valid() && chunkOffset == |chunk| && body != []
      modifies this`body, this`chunk, this`chunkOffset, this`bomChecked, this`bomPrefix
      ensures Valid() && Remaining() == old(Remaining()) && body == old(body[1..])
      ensures bomChecked || chunkOffset == |chunk|
    {
      var next := body[0];
      Head(body);
      assert Flatten(body) == next + Flatten(body[1..]);
      body := body[1..];
      if !bomChecked {
        var combined := bomPrefix + next;
        Assoc(bomPrefix, next, Flatten(body));
        if |combined| < 3 {
          bomPrefix := combined;
          return;
        }
        bomChecked := true;
        bomPrefix := [];
        StripBomAppend(combined, Flatten(body));
        next := StripBom(combined);
      }
      chunk := next;
      chunkOffset := 0;
      assert chunk[0..] == chunk;
    }

    /** `readChunk`: afterwards a byte is available, or nothing remains. */
    method ReadChunk() returns (more: bool)
      requires Valid()
      modifies this`body, this`chunk, this`chunkOffset, this`bomChecked, this`bomPrefix
      ensures Valid() && Remaining() == old(Remaining())
      ensures more ==> bomChecked && chunkOffset < |chunk|
      ensures !more ==> Remaining() == []
    {
      while chunkOffset >= |chunk|
        invariant Valid() && Remaining() == old(Remaining())
        decreases |body|
      {
        if body == [] {
          if !bomChecked && |bomPrefix| > 0 {
            assert bomPrefix + [] == bomPrefix;
            bomChecked := true;
            chunk := bomPrefix;
            bomPrefix := [];
            chunkOffset := 0;
            assert chunk[0..] + [] == chunk;
            return true;
          }
          return false;
        }
        TakeChunk();
      }
      return true;
    }

    /** `state.chunk[state.chunkOffset++]`. */
    method PopByte() returns (byte: Byte)
      requires Valid() && bomChecked && chunkOffset < |chunk|
      modifies this`chunkOffset
      ensures Valid() && old(Remaining()) == [byte] + Remaining()
    {
      byte := chunk[chunkOffset];
      chunkOffset := chunkOffset + 1;
      assert chunk[chunkOffset - 1..] == [byte] + chunk[chunkOffset..];
      Assoc([byte], chunk[chunkOffset..], Flatten(body));
    }

    /** The branch for a byte that is not a line feed. */
    method PushByte(byte: Byte, ghost rest: Bytes) returns (fits: bool)
      requires byte != LF && Without(line, LF) && !Overlong(line, cfg.maxLineBytes)
      modifies this`line
      ensures fits ==> line == old(line) + [byte] && Without(line, LF) && !Overlong(line, cfg.maxLineBytes)
      ensures fits ==> line + rest == old(line) + ([byte] + rest)
      ensures !fits ==> NextEvent(cfg, old(line) + ([byte] + rest), Fields()) == Failed(LineTooLong)
    {
      hide NextEvent;
      PushLimit(line, byte, cfg.maxLineBytes);
      Assoc(line, [byte], rest);
      if |line| > cfg.maxLineBytes || (|line| == cfg.maxLineBytes && byte != CR) {
        OverlongFails(cfg, line + [byte], rest, Fields());
        return false;
      }
      line := line + [byte];
      return true;
    }

    /** `nextSseInput`: whatever the chunks, the answer of the line-by-line reference on the bytes that remain. */
    method NextInput() returns (r: Result<Input, Failure>)
      requires Valid() && line == [] && Fields() == NoEvent
      modifies this
      ensures match NextEvent(cfg, old(Remaining()), NoEvent) {
                case Found(payload, after) =>
                  && r == Ok(Event(payload)) && Valid() && line == [] && Fields() == NoEvent && Remaining() == after
                case Ended => r == Ok(Eof) && Valid() && line == [] && Fields() == NoEvent && Remaining() == []
                case Failed(failure) => r == Err(failure)
              }
    {
      hide NextEvent;
      hide AfterLine;
      hide StripBom;
      hide Flatten;
      ghost var whole := NextEvent(cfg, Remaining(), NoEvent);
      assert [] + Remaining() == Remaining();
      while true
        invariant Valid() && Without(line, LF) && !Overlong(line, cfg.maxLineBytes)
        invariant NextEvent(cfg, line + Remaining(), Fields()) == whole
        decreases |Remaining()|
      {
        var more := ReadChunk();
        if !more {
          assert line + [] == line;
          StreamEnds(cfg, line, Fields());
          if |line| > 0 || |data| > 0 || eventType.Some? || eventWireBytes > 0 {
            return Err(PartialEvent);
          }
          return Ok(Eof);
        }
        var byte := PopByte();
        if byte != LF {
          var fits := PushByte(byte, Remaining());
          if !fits {
            return Err(LineTooLong);
          }
          continue;
        }
        LineEnds(cfg, line, Remaining(), Fields());
        var finished := StripCR(line);
        line := [];
        assert [] + Remaining() == Remaining();
        var outcome := FinishLine(finished, Remaining());
        if outcome.Err? {
          return Err(outcome.error);
        }
        if outcome.value.Some? {
          return Ok(Event(outcome.value.value));
        }
      }
    }

    /** The part of `nextSseInput` after a line feed: a field line, an ignored blank line, or a dispatched event. */
    method FinishLine(finished: Bytes, ghost rest: Bytes) returns (r: Result<Option<Bytes>, Failure>)
      modifies this`data, this`eventType, this`eventWireBytes
      ensures match r {
                case Err(failure) => AfterLine(cfg, finished, rest, old(Fields())) == Failed(failure)
                case Ok(None) => AfterLine(cfg, finished, rest, old(Fields())) == NextEvent(cfg, rest, Fields())
                case Ok(Some(payload)) =>
                  Fields() == NoEvent && AfterLine(cfg, finished, rest, old(Fields())) == Found(payload, rest)
              }
    {
      hide NextEvent;
      if IndexOf(finished, CR) < |finished| {
        return Err(BareCarriageReturn);
      }
      if |finished| > 0 {
        var decoded := DecodeLine(cfg, finished, Fields());
        if decoded.Err? {
          return Err(decoded.error);
        }
        data, eventType, eventWireBytes := decoded.value.data, decoded.value.eventType, decoded.value.wireBytes;
        return Ok(None);
      }
      if eventType.Some? && eventType.value != [] && eventType.value != MESSAGE {
        return Err(NonMessageEvent);
      }
      if |data| == 0 {
        ResetEvent();
        return Ok(None);
      }
      var bytes := EventBytes(data);
      ResetEvent();
      return Ok(Some(bytes));
    }

    /** `resetEvent`. */
    method ResetEvent()
      modifies this`data, this`eventType, this`eventWireBytes
      ensures Fields() == NoEvent
    {
      data, eventType, eventWireBytes := [], None, 0;
    }
  }

  lemma StripBomAppend(a: Bytes, b: Bytes)
    requires |a| >= 3
    ensures StripBom(a + b) == StripBom(a) + b
  {
  }

  lemma JoinedStep(bytes: Bytes, separator: Bytes, data: seq<Bytes>, index: nat)
    requires index < |data|
    ensures bytes + (separator + Joined(data[index..])) ==
            if index + 1 == |data| then bytes + separator + data[index]
            else bytes + separator + data[index] + ([LF] + Joined(data[index + 1..]))
  {
    var rest := data[index..];
    assert rest[0] == data[index] && rest[1..] == data[index + 1..];
    Assoc(bytes, separator, data[index]);
    if |rest| > 1 {
      var tail := [LF] + Joined(data[index + 1..]);
      Assoc(bytes + separator, data[index], tail);
      Assoc(bytes, separator, data[index] + tail);
    }
  }

  /** `eventBytes`: copy the parts, one LF between two of them. */
  method EventBytes(data: seq<Bytes>) returns (bytes: Bytes)
    requires data != []
    ensures bytes == Joined(data)
  {
    hide Joined;
    bytes := [];
    var index := 0;
    assert data[0..] == data;
    assert [] + ([] + Joined(data)) == Joined(data);
    while index < |data|
      invariant 0 <= index <= |data|
      invariant index == 0 ==> bytes == []
      invariant index == |data| ==> bytes == Joined(data)
      invariant index < |data| ==> bytes + ((if index > 0 then [LF] else []) + Joined(data[index..])) == Joined(data)
    {
      var separator: Bytes := if index > 0 then [LF] else [];
      JoinedStep(bytes, separator, data, index);
      bytes := bytes + separator + data[index];
      index := index + 1;
    }
  }

  /** The events of a whole body and how it ended: `None` for a clean end. */
  datatype Body = Body(payloads: seq<Bytes>, failure: Option<Failure>)

  lemma {:induction false} NextShrinks(cfg: Config, s: Bytes, p: Pending)
    requires NextEvent(cfg, s, p).Found?
    ensures |NextEvent(cfg, s, p).after| < |s|
    decreases |s|
  {
    var n := IndexOf(s, LF);
    var line, rest := StripCR(s[..n]), s[n + 1..];
    if line != [] {
      NextShrinks(cfg, rest, DecodeLine(cfg, line, p).value);
    } else if p.data == [] {
      NextShrinks(cfg, rest, NoEvent);
    }
  }

  function ReadBody(cfg: Config, s: Bytes): Body
    decreases |s|
  {
    match NextEvent(cfg, s, NoEvent)
    case Ended => Body([], None)
    case Failed(failure) => Body([], Some(failure))
    case Found(payload, after) =>
      NextShrinks(cfg, s, NoEvent);
      var rest := ReadBody(cfg, after);
      Body([payload] + rest.payloads, rest.failure)
  }

  /**
   Read a body to its end. Every split into chunks, the byte order mark included,
   gives the same events and the same end; no payload exceeds `maxEventBytes`.
   */
  method ReadAll(cfg: Config, chunks: seq<Bytes>) returns (payloads: seq<Bytes>, failure: Option<Failure>)
    ensures Body(payloads, failure) == ReadBody(cfg, StripBom(Flatten(chunks)))
    ensures forall payload :: payload in payloads ==> |payload| <= cfg.maxEventBytes
  {
    hide NextEvent;
    var reader := new Reader(cfg, chunks);
    payloads := [];
    ghost var whole := ReadBody(cfg, reader.Remaining());
    assert [] + whole.payloads == whole.payloads;
    while true
      invariant fresh(reader) && reader.cfg == cfg && reader.Valid() && reader.line == [] && reader.Fields() == NoEvent
      invariant whole == Body(payloads + ReadBody(cfg, reader.Remaining()).payloads, ReadBody(cfg, reader.Remaining()).failure)
      invariant forall payload :: payload in payloads ==> |payload| <= cfg.maxEventBytes
      decreases |reader.Remaining()|
    {
      ghost var before := reader.Remaining();
      var input := reader.NextInput();
      if input.Err? {
        return payloads, Some(input.error);
      }
      if input.value.Eof? {
        return payloads, None;
      }
      PayloadBound(cfg, before, NoEvent);
      NextShrinks(cfg, before, NoEvent);
      Assoc(payloads, [input.value.payload], ReadBody(cfg, reader.Remaining()).payloads);
      payloads := payloads + [input.value.payload];
    }
  }

  // ----- the server's frames -----

  /** `event: message`. */
  function EventLine(): Bytes {
    EVENT + [COLON, SPACE] + MESSAGE
  }

  function DataLine(payload: Bytes): Bytes {
    DATA + [COLON, SPACE] + payload
  }

  /** `encodeSseFrame`: an event line, one data line, a blank line. */
  function Frame(payload: Bytes): Bytes {
    EventLine() + ([LF] + (DataLine(payload) + [LF, LF]))
  }

  function Frames(payloads: seq<Bytes>): Bytes {
    if payloads == [] then [] else Frame(payloads[0]) + Frames(payloads[1..])
  }

  /** A payload the frame writer produces (one line of valid text) and the reader's limits admit. */
  predicate Fits(cfg: Config, payload: Bytes) {
    && Without(payload, LF) && Without(payload, CR) && cfg.valid(payload)
    && cfg.valid(EVENT) && cfg.valid(MESSAGE) && cfg.valid(DATA)
    && 14 <= cfg.maxLineBytes && |payload| + 6 <= cfg.maxLineBytes && |payload| + 22 <= cfg.maxEventBytes
  }

  lemma FieldLine(cfg: Config, name: Bytes, value: Bytes, p: Pending)
    requires Without(name, COLON) && name != [] && name[0] != COLON
    ensures var line := name + [COLON, SPACE] + value;
            && IndexOf(line, COLON) == |name| && line[..|name|] == name && FieldValue(line) == value
  {
    var line := name + [COLON, SPACE] + value;
    assert line == name + ([COLON, SPACE] + value);
    IndexPastPrefix(name, [COLON, SPACE] + value, COLON);
    assert line[|name| + 2..] == value;
  }

  lemma EventLineDecodes(cfg: Config, payload: Bytes)
    requires Fits(cfg, payload)
    ensures Clean(cfg, EventLine()) && EventLine() != []
    ensures DecodeLine(cfg, EventLine(), NoEvent) == Ok(Pending([], Some(MESSAGE), 15))
  {
    hide IndexOf;
    FieldLine(cfg, EVENT, MESSAGE, NoEvent);
  }

  lemma DataLineDecodes(cfg: Config, payload: Bytes)
    requires Fits(cfg, payload)
    ensures Clean(cfg, DataLine(payload)) && DataLine(payload) != []
    ensures DecodeLine(cfg, DataLine(payload), Pending([], Some(MESSAGE), 15)) == Ok(Pending([payload], Some(MESSAGE), |payload| + 22))
  {
    hide IndexOf;
    FieldLine(cfg, DATA, payload, NoEvent);
    assert [] + [payload] == [payload];
  }

  predicate Clean(cfg: Config, line: Bytes) {
    Without(line, LF) && Without(line, CR) && |line| <= cfg.maxLineBytes
  }

  /** One clean line in front of the stream is read as that line. */
  lemma CleanLine(cfg: Config, line: Bytes, rest: Bytes, p: Pending)
    requires Clean(cfg, line)
    ensures NextEvent(cfg, line + ([LF] + rest), p) == AfterLine(cfg, line, rest, p)
  {
    hide NextEvent;
    hide AfterLine;
    LineEnds(cfg, line, rest, p);
  }

  lemma FieldLineRead(cfg: Config, line: Bytes, rest: Bytes, p: Pending)
    requires Clean(cfg, line) && line != [] && DecodeLine(cfg, line, p).Ok?
    ensures NextEvent(cfg, line + ([LF] + rest), p) == NextEvent(cfg, rest, DecodeLine(cfg, line, p).value)
  {
    hide NextEvent;
    hide DecodeLine;
    CleanLine(cfg, line, rest, p);
  }

  lemma BlankLineRead(cfg: Config, rest: Bytes, payload: Bytes, wire: nat)
    ensures NextEvent(cfg, [LF] + rest, Pending([payload], Some(MESSAGE), wire)) == Found(payload, rest)
  {
    hide NextEvent;
    assert [] + ([LF] + rest) == [LF] + rest;
    CleanLine(cfg, [], rest, Pending([payload], Some(MESSAGE), wire));
  }

  lemma FrameRead(cfg: Config, payload: Bytes, rest: Bytes)
    requires Fits(cfg, payload)
    ensures NextEvent(cfg, Frame(payload) + rest, NoEvent) == Found(payload, rest)
  {
    hide NextEvent;
    hide DecodeLine;
    hide Frame;
    hide EventLine;
    hide DataLine;
    var afterEvent := DataLine(payload) + ([LF] + ([LF] + rest));
    FrameLines(payload, rest);
    EventLineDecodes(cfg, payload);
    DataLineDecodes(cfg, payload);
    FieldLineRead(cfg, EventLine(), afterEvent, NoEvent);
    FieldLineRead(cfg, DataLine(payload), [LF] + rest, Pending([], Some(MESSAGE), 15));
    BlankLineRead(cfg, rest, payload, |payload| + 22);
  }

  lemma FrameLines(payload: Bytes, rest: Bytes)
    ensures Frame(payload) + rest == EventLine() + ([LF] + (DataLine(payload) + ([LF] + ([LF] + rest))))
  {
    hide EventLine;
    hide DataLine;
    var d := DataLine(payload);
    Assoc(EventLine(), [LF] + (d + [LF, LF]), rest);
    Assoc([LF], d + [LF, LF], rest);
    Assoc(d, [LF, LF], rest);
    assert [LF, LF] == [LF] + [LF];
    Assoc([LF], [LF], rest);
  }

  /** Any concatenation of server frames that fit the limits reads back as exactly the payloads sent, in order. */
  lemma {:induction false} FramesReadBack(cfg: Config, payloads: seq<Bytes>)
    requires forall payload :: payload in payloads ==> Fits(cfg, payload)
    ensures ReadBody(cfg, Frames(payloads)) == Body(payloads, None)
  {
    if payloads != [] {
      assert Fits(cfg, payloads[0]);
      FrameRead(cfg, payloads[0], Frames(payloads[1..]));
      FramesReadBack(cfg, payloads[1..]);
      Head(payloads);
    }
  }

  /** The reader run on server frames, whatever the chunks, gives exactly the payloads sent and a clean end; frames start with `e`, so no byte order mark is taken from them. */
  method AnySplitReadsBack(cfg: Config, ghost payloads: seq<Bytes>, chunks: seq<Bytes>) returns (read: seq<Bytes>, failure: Option<Failure>)
    requires (forall payload :: payload in payloads ==> Fits(cfg, payload)) && Flatten(chunks) == Frames(payloads)
    ensures failure.None? && read == payloads
  {
    FramesReadBack(cfg, payloads);
    if payloads != [] {
      assert Frame(payloads[0])[0] == EVENT[0];
    }
    read, failure := ReadAll(cfg, chunks);
  }

  // ----- any server's line endings -----

  /** One line as a server may send it. */
  datatype Line = Line(text: Bytes, crlf: bool)

  function Ending(crlf: bool): Bytes {
    if crlf then [CR, LF] else [LF]
  }

  function Wire(lines: seq<Line>): Bytes {
    if lines == [] then [] else lines[0].text + (Ending(lines[0].crlf) + Wire(lines[1..]))
  }

  function Texts(lines: seq<Line>): seq<Bytes> {
    seq(|lines|, i requires 0 <= i < |lines| => lines[i].text)
  }

  predicate AllClean(cfg: Config, lines: seq<Line>) {
    forall i :: 0 <= i < |lines| ==> Clean(cfg, lines[i].text)
  }

  /** A clean line is read without its ending, whichever it is. */
  lemma EitherEnding(cfg: Config, text: Bytes, crlf: bool, rest: Bytes, p: Pending)
    requires Clean(cfg, text)
    ensures NextEvent(cfg, text + (Ending(crlf) + rest), p) == AfterLine(cfg, text, rest, p)
  {
    hide NextEvent;
    hide AfterLine;
    if crlf {
      var line := text + [CR];
      assert text + ([CR, LF] + rest) == line + ([LF] + rest);
      assert StripCR(line) == text;
      LineEnds(cfg, line, rest, p);
    } else {
      CleanLine(cfg, text, rest, p);
    }
  }

  /** A longer line fails, whatever its ending. */
  lemma LongLineFails(cfg: Config, text: Bytes, crlf: bool, rest: Bytes, p: Pending)
    requires Without(text, LF) && Without(text, CR) && |text| > cfg.maxLineBytes
    ensures NextEvent(cfg, text + (Ending(crlf) + rest), p) == Failed(LineTooLong)
  {
    OverlongFails(cfg, text, Ending(crlf) + rest, p);
    hide NextEvent;
  }

  datatype LinesNext = LinesFound(payload: Bytes, after: seq<Bytes>) | LinesEnded | LinesFailed(failure: Failure)

  /** The next event of a stream given as its lines. */
  function NextOf(cfg: Config, texts: seq<Bytes>, p: Pending): LinesNext {
    if texts == [] then if p == NoEvent then LinesEnded else LinesFailed(PartialEvent)
    else if texts[0] != [] then
      match DecodeLine(cfg, texts[0], p)
      case Err(failure) => LinesFailed(failure)
      case Ok(p') => NextOf(cfg, texts[1..], p')
    else if !MessageType(p.eventType) then LinesFailed(NonMessageEvent)
    else if p.data == [] then NextOf(cfg, texts[1..], NoEvent)
    else LinesFound(Joined(p.data), texts[1..])
  }

  lemma {:induction false} NextOfShrinks(cfg: Config, texts: seq<Bytes>, p: Pending)
    requires NextOf(cfg, texts, p).LinesFound?
    ensures |NextOf(cfg, texts, p).after| < |texts|
    decreases |texts|
  {
    hide DecodeLine;
    hide MessageType;
    if texts[0] != [] {
      NextOfShrinks(cfg, texts[1..], DecodeLine(cfg, texts[0], p).value);
    } else if p.data == [] {
      NextOfShrinks(cfg, texts[1..], NoEvent);
    }
  }

  function BodyOf(cfg: Config, texts: seq<Bytes>): Body
    decreases |texts|
  {
    match NextOf(cfg, texts, NoEvent)
    case LinesEnded => Body([], None)
    case LinesFailed(failure) => Body([], Some(failure))
    case LinesFound(payload, after) =>
      NextOfShrinks(cfg, texts, NoEvent);
      var rest := BodyOf(cfg, after);
      Body([payload] + rest.payloads, rest.failure)
  }

  lemma TextsTail(lines: seq<Line>)
    requires lines != []
    ensures Texts(lines)[0] == lines[0].text && Texts(lines)[1..] == Texts(lines[1..])
  {
  }

  /** The bytes are read as the lines, whatever their endings. */
  lemma {:induction false} WireIsRead(cfg: Config, lines: seq<Line>, p: Pending)
    requires AllClean(cfg, lines)
    ensures match NextOf(cfg, Texts(lines), p)
            case LinesEnded => NextEvent(cfg, Wire(lines), p) == Ended
            case LinesFailed(failure) => NextEvent(cfg, Wire(lines), p) == Failed(failure)
            case LinesFound(payload, after) =>
              exists k: nat :: k <= |lines| && 0 < k && NextEvent(cfg, Wire(lines), p) == Found(payload, Wire(lines[k..])) && after == Texts(lines[k..])
    decreases |lines|
  {
    hide DecodeLine;
    hide MessageType;
    hide Joined;
    if lines == [] {
      StreamEnds(cfg, [], p);
    } else {
      var line, rest := lines[0], lines[1..];
      TextsTail(lines);
      EitherEnding(cfg, line.text, line.crlf, Wire(rest), p);
      var texts := Texts(lines);
      hide NextEvent;
      hide Texts;
      assert AllClean(cfg, rest);
      if line.text != [] {
        var decoded := DecodeLine(cfg, line.text, p);
        if decoded.Ok? {
          WireIsRead(cfg, rest, decoded.value);
          Shifted(cfg, lines, NextOf(cfg, texts[1..], decoded.value));
        }
      } else if p.data == [] && MessageType(p.eventType) {
        WireIsRead(cfg, rest, NoEvent);
        Shifted(cfg, lines, NextOf(cfg, texts[1..], NoEvent));
      } else if MessageType(p.eventType) {
        assert lines[1..] == rest;
      }
    }
  }

  lemma Shifted(cfg: Config, lines: seq<Line>, next: LinesNext)
    requires lines != []
    ensures forall k: nat :: k <= |lines[1..]| ==> lines[1..][k..] == lines[k + 1..]
  {
  }

  lemma {:induction false} BodyIsRead(cfg: Config, lines: seq<Line>)
    requires AllClean(cfg, lines)
    ensures ReadBody(cfg, Wire(lines)) == BodyOf(cfg, Texts(lines))
    decreases |lines|
  {
    hide NextEvent;
    hide NextOf;
    hide Wire;
    hide Texts;
    WireIsRead(cfg, lines, NoEvent);
    var next := NextOf(cfg, Texts(lines), NoEvent);
    if next.LinesFound? {
      var k: nat :| k <= |lines| && 0 < k && NextEvent(cfg, Wire(lines), NoEvent) == Found(next.payload, Wire(lines[k..])) && next.after == Texts(lines[k..]);
      assert AllClean(cfg, lines[k..]);
      BodyIsRead(cfg, lines[k..]);
    }
  }

  /** Exactly a leading mark is dropped. */
  lemma OneMark(s: Bytes)
    ensures StripBom([0xef, 0xbb, 0xbf] + s) == s
    ensures s != [] && s[0] != 0xef ==> StripBom(s) == s
  {
    assert ([0xef, 0xbb, 0xbf] + s)[3..] == s;
  }

  /** Reading does not depend on the line endings: lines within the limit give the same with LF, with CR LF, or with any mixture. */
  lemma LineEndingsAgree(cfg: Config, a: seq<Line>, b: seq<Line>)
    requires |a| == |b| && forall i :: 0 <= i < |a| ==> a[i].text == b[i].text && Clean(cfg, a[i].text)
    ensures ReadBody(cfg, Wire(a)) == ReadBody(cfg, Wire(b))
    ensures ReadBody(cfg, StripBom([0xef, 0xbb, 0xbf] + Wire(a))) == ReadBody(cfg, Wire(b))
    ensures a != [] && a[0].text != [] && a[0].text[0] != 0xef ==> ReadBody(cfg, StripBom(Wire(a))) == ReadBody(cfg, Wire(b))
  {
    OneMark(Wire(a));
    BodyIsRead(cfg, a);
    BodyIsRead(cfg, b);
    assert Texts(a) == Texts(b);
    hide ReadBody;
    hide BodyOf;
    hide Wire;
  }

  // ----- any server's events -----

  /** A line of an event: data, a type, a comment, a field that is ignored, or a name alone. */
  datatype Part =
    | Data(value: Bytes, spaced: bool)
    | Type(value: Bytes, spaced: bool)
    | Comment(text: Bytes)
    | Other(name: Bytes, value: Bytes, spaced: bool)
    | Name(name: Bytes)

  function Separator(spaced: bool): Bytes {
    if spaced then [0x3a, 0x20] else [0x3a]
  }

  /** `data: v` or `data:v`, `event: v`, `:text`, `name: v`, `name`. */
  function PartText(part: Part): Bytes {
    match part
    case Data(value, spaced) => [0x64, 0x61, 0x74, 0x61] + (Separator(spaced) + value)
    case Type(value, spaced) => [0x65, 0x76, 0x65, 0x6e, 0x74] + (Separator(spaced) + value)
    case Comment(text) => [0x3a] + text
    case Other(name, value, spaced) => name + (Separator(spaced) + value)
    case Name(name) => name
  }

  predicate ProperName(cfg: Config, name: Bytes) {
    Without(name, COLON) && cfg.valid(name)
  }

  /** A value behind a separator; only behind a space may it begin with one. */
  predicate ProperValue(cfg: Config, value: Bytes, spaced: bool) {
    cfg.valid(value) && (spaced || value == [] || value[0] != SPACE)
  }

  /** Valid text that the line grammar admits where it stands, within the line limit. */
  predicate Proper(cfg: Config, part: Part) {
    && Clean(cfg, PartText(part)) && PartText(part) != [] && cfg.valid(DATA) && cfg.valid(EVENT) && cfg.valid([])
    && match part
       case Data(value, spaced) => ProperValue(cfg, value, spaced)
       case Type(value, spaced) => ProperValue(cfg, value, spaced)
       case Comment(text) => cfg.valid([COLON] + text)
       case Other(name, value, spaced) => ProperName(cfg, name) && name != [] && name != DATA && name != EVENT && ProperValue(cfg, value, spaced)
       case Name(name) => ProperName(cfg, name)
  }

  /** The value of a data line; a bare `data` has the empty one. */
  function OwnData(part: Part): seq<Bytes> {
    match part
    case Data(value, _) => [value]
    case Name(name) => if name == [0x64, 0x61, 0x74, 0x61] then [[]] else []
    case _ => []
  }

  function OwnType(part: Part, before: Option<Bytes>): Option<Bytes> {
    match part
    case Type(value, _) => Some(value)
    case Name(name) => if name == [0x65, 0x76, 0x65, 0x6e, 0x74] then Some([]) else before
    case _ => before
  }

  /** The values of the data lines, in order. */
  function DataOf(parts: seq<Part>): seq<Bytes> {
    if parts == [] then []
    else OwnData(parts[0]) + DataOf(parts[1..])
  }

  /** The last type given, or the one before. */
  function TypeOf(parts: seq<Part>, before: Option<Bytes>): Option<Bytes> {
    if parts == [] then before
    else TypeOf(parts[1..], OwnType(parts[0], before))
  }

  /** The bytes the parts are counted with: each line and one for its ending. */
  function Counted(parts: seq<Part>): nat {
    if parts == [] then 0 else |PartText(parts[0])| + 1 + Counted(parts[1..])
  }

  function PartTexts(parts: seq<Part>): seq<Bytes> {
    if parts == [] then [] else [PartText(parts[0])] + PartTexts(parts[1..])
  }

  lemma ValueRead(name: Bytes, value: Bytes, spaced: bool)
    requires Without(name, COLON) && (spaced || value == [] || value[0] != SPACE)
    ensures var line := name + (Separator(spaced) + value);
            && IndexOf(line, COLON) == |name| && line[..|name|] == name && FieldValue(line) == value
            && (name != [] ==> line[0] != COLON)
  {
    var line := name + (Separator(spaced) + value);
    IndexPastPrefix(name, Separator(spaced) + value, COLON);
    assert line[|name|..] == Separator(spaced) + value;
    assert line[|name| + 1..] == (Separator(spaced) + value)[1..];
    if spaced {
      assert line[|name| + 2..] == value;
    } else {
      assert line[|name| + 1..] == value;
    }
  }

  lemma BareRead(name: Bytes)
    requires Without(name, COLON)
    ensures IndexOf(name, COLON) == |name| && name[..|name|] == name && FieldValue(name) == []
    ensures name != [] ==> name[0] != COLON
  {
  }

  /** What one part adds to the event. */
  lemma PartDecodes(cfg: Config, part: Part, p: Pending)
    requires Proper(cfg, part) && p.wireBytes + |PartText(part)| + 1 <= cfg.maxEventBytes
    ensures DecodeLine(cfg, PartText(part), p) == Ok(Pending(p.data + OwnData(part), OwnType(part, p.eventType), p.wireBytes + |PartText(part)| + 1))
  {
    hide IndexOf;
    hide FieldValue;
    hide Clean;
    assert p.data + [] == p.data;
    assert DATA != EVENT by { assert DATA[0] != EVENT[0]; }
    match part
    case Data(value, spaced) => ValueRead(DATA, value, spaced);
    case Type(value, spaced) => ValueRead(EVENT, value, spaced);
    case Comment(text) =>
    case Other(name, value, spaced) => ValueRead(name, value, spaced);
    case Name(name) => BareRead(name);
  }

  lemma PartFails(cfg: Config, part: Part, p: Pending)
    requires PartText(part) != [] && p.wireBytes + |PartText(part)| + 1 > cfg.maxEventBytes
    ensures DecodeLine(cfg, PartText(part), p) == Err(EventTooLarge)
  {
  }

  predicate AllProper(cfg: Config, parts: seq<Part>) {
    forall i :: 0 <= i < |parts| ==> Proper(cfg, parts[i])
  }

  /** The parts in front of other lines are decoded into the event, or are too many bytes for one. */
  lemma {:induction false} PartsDecode(cfg: Config, parts: seq<Part>, texts: seq<Bytes>, p: Pending)
    requires AllProper(cfg, parts)
    ensures NextOf(cfg, PartTexts(parts) + texts, p) ==
            if parts == [] || p.wireBytes + Counted(parts) <= cfg.maxEventBytes then
              NextOf(cfg, texts, Pending(p.data + DataOf(parts), TypeOf(parts, p.eventType), p.wireBytes + Counted(parts)))
            else LinesFailed(EventTooLarge)
    decreases |parts|
  {
    hide DecodeLine;
    hide PartText;
    hide MessageType;
    if parts == [] {
      assert PartTexts(parts) + texts == texts && p.data + [] == p.data;
    } else {
      var all, part, rest := PartTexts(parts) + texts, parts[0], parts[1..];
      assert Proper(cfg, part) && all[0] == PartText(part) && all[1..] == PartTexts(rest) + texts;
      assert PartText(part) != [] by { hide Clean; }
      hide Proper;
      if p.wireBytes + |PartText(part)| + 1 <= cfg.maxEventBytes {
        PartDecodes(cfg, part, p);
        var q := DecodeLine(cfg, PartText(part), p).value;
        PartsDecode(cfg, rest, texts, q);
        Assoc(p.data, OwnData(part), DataOf(rest));
      } else {
        PartFails(cfg, part, p);
      }
      hide OwnData;
      hide OwnType;
    }
  }

  /** The events of a stream, a blank line after each. */
  function EventTexts(events: seq<seq<Part>>): seq<Bytes> {
    if events == [] then [] else PartTexts(events[0]) + ([[]] + EventTexts(events[1..]))
  }

  /** Each value with a line feed behind it. */
  function Terminated(values: seq<Bytes>): Bytes {
    if values == [] then [] else values[0] + ([LF] + Terminated(values[1..]))
  }

  lemma {:induction false} JoinedIsTerminated(data: seq<Bytes>)
    requires data != []
    ensures Joined(data) + [LF] == Terminated(data)
  {
    if |data| == 1 {
      assert data[1..] == [] && [LF] + [] == [LF];
    } else {
      JoinedIsTerminated(data[1..]);
      Assoc(data[0], [LF] + Joined(data[1..]), [LF]);
      Assoc([LF], Joined(data[1..]), [LF]);
    }
  }

  predicate Readable(cfg: Config, parts: seq<Part>) {
    && AllProper(cfg, parts) && (parts == [] || Counted(parts) <= cfg.maxEventBytes)
    && (TypeOf(parts, None) == None || TypeOf(parts, None) == Some([]) || TypeOf(parts, None) == Some([0x6d, 0x65, 0x73, 0x73, 0x61, 0x67, 0x65]))
  }

  predicate AllReadable(cfg: Config, events: seq<seq<Part>>) {
    forall i :: 0 <= i < |events| ==> Readable(cfg, events[i])
  }

  /** One payload for each event with data: its values with a line feed between two of them. */
  predicate Reads(events: seq<seq<Part>>, payloads: seq<Bytes>)
    decreases |events|
  {
    if events == [] then payloads == []
    else if DataOf(events[0]) == [] then Reads(events[1..], payloads)
    else payloads != [] && payloads[0] + [LF] == Terminated(DataOf(events[0])) && Reads(events[1..], payloads[1..])
  }

  lemma BlankRead(cfg: Config, texts: seq<Bytes>, p: Pending)
    ensures NextOf(cfg, [[]] + texts, p) ==
            if !MessageType(p.eventType) then LinesFailed(NonMessageEvent)
            else if p.data == [] then NextOf(cfg, texts, NoEvent)
            else LinesFound(Joined(p.data), texts)
  {
    assert ([[]] + texts)[0] == [] && ([[]] + texts)[1..] == texts;
    hide DecodeLine;
    hide MessageType;
    hide Joined;
  }

  lemma NoEventIsEmpty()
    ensures NoEvent == Pending([], None, 0)
  {
  }

  lemma DecodeToBlank(cfg: Config, parts: seq<Part>, texts: seq<Bytes>)
    requires AllProper(cfg, parts) && (parts == [] || Counted(parts) <= cfg.maxEventBytes)
    ensures NextOf(cfg, PartTexts(parts) + ([[]] + texts), NoEvent) ==
            if !MessageType(TypeOf(parts, None)) then LinesFailed(NonMessageEvent)
            else if DataOf(parts) == [] then NextOf(cfg, texts, NoEvent)
            else LinesFound(Joined(DataOf(parts)), texts)
  {
    hide *;
    NoEventIsEmpty();
    PartsDecode(cfg, parts, [[]] + texts, NoEvent);
    assert [] + DataOf(parts) == DataOf(parts);
    BlankRead(cfg, texts, Pending(DataOf(parts), TypeOf(parts, None), Counted(parts)));
  }

  lemma EventRead(cfg: Config, parts: seq<Part>, texts: seq<Bytes>)
    requires Readable(cfg, parts)
    ensures NextOf(cfg, PartTexts(parts) + ([[]] + texts), NoEvent) ==
            if DataOf(parts) == [] then NextOf(cfg, texts, NoEvent) else LinesFound(Joined(DataOf(parts)), texts)
  {
    DecodeToBlank(cfg, parts, texts);
    hide NextOf;
    hide PartTexts;
    hide DataOf;
    hide TypeOf;
    hide Counted;
    hide AllProper;
  }

  lemma {:induction false} EventsRead(cfg: Config, events: seq<seq<Part>>)
    requires AllReadable(cfg, events)
    ensures BodyOf(cfg, EventTexts(events)).failure == None && Reads(events, BodyOf(cfg, EventTexts(events)).payloads)
    decreases |events|
  {
    hide Joined;
    hide Terminated;
    hide Readable;
    if events != [] {
      var parts, rest := events[0], events[1..];
      assert Readable(cfg, parts) && AllReadable(cfg, rest);
      EventRead(cfg, parts, EventTexts(rest));
      EventsRead(cfg, rest);
      if DataOf(parts) != [] {
        JoinedIsTerminated(DataOf(parts));
        var below := BodyOf(cfg, EventTexts(rest));
        assert ([Joined(DataOf(parts))] + below.payloads)[1..] == below.payloads;
      }
      hide NextOf;
      hide DataOf;
      hide PartTexts;
    }
  }

  /**
   What any server's events read as: data, comments, types and ignored fields in any mixture,
   with or without a space behind the colon, with LF or CR LF. Every event whose last type
   is absent, empty or `message` gives its data values with a line feed between two of
   them; an event without data gives nothing.
   */
  lemma EventsReadBack(cfg: Config, events: seq<seq<Part>>, lines: seq<Line>)
    requires AllReadable(cfg, events) && Texts(lines) == EventTexts(events)
    ensures ReadBody(cfg, Wire(lines)).failure == None && Reads(events, ReadBody(cfg, Wire(lines)).payloads)
  {
    EventTextsClean(cfg, events);
    forall i | 0 <= i < |lines| ensures Clean(cfg, lines[i].text) {
      assert Texts(lines)[i] == lines[i].text;
    }
    BodyIsRead(cfg, lines);
    EventsRead(cfg, events);
    hide ReadBody;
    hide BodyOf;
    hide EventTexts;
    hide Wire;
    hide Reads;
  }

  lemma {:induction false} PartTextsClean(cfg: Config, parts: seq<Part>)
    requires AllProper(cfg, parts)
    ensures forall i :: 0 <= i < |PartTexts(parts)| ==> Clean(cfg, PartTexts(parts)[i])
  {
    hide PartText;
    hide Clean;
    if parts != [] {
      assert Proper(cfg, parts[0]);
      PartTextsClean(cfg, parts[1..]);
    }
  }

  lemma {:induction false} EventTextsClean(cfg: Config, events: seq<seq<Part>>)
    requires AllReadable(cfg, events)
    ensures forall i :: 0 <= i < |EventTexts(events)| ==> Clean(cfg, EventTexts(events)[i])
  {
    if events != [] {
      assert Readable(cfg, events[0]) && AllReadable(cfg, events[1..]);
      PartTextsClean(cfg, events[0]);
      EventTextsClean(cfg, events[1..]);
      assert Clean(cfg, []);
      hide PartTexts;
      hide Clean;
      hide Readable;
    }
  }

  /** An event whose last type is any other fails the stream where it ends. */
  lemma OtherTypeFails(cfg: Config, parts: seq<Part>, texts: seq<Bytes>)
    requires AllProper(cfg, parts) && (parts == [] || Counted(parts) <= cfg.maxEventBytes)
    requires TypeOf(parts, None).Some? && TypeOf(parts, None).value != [] && TypeOf(parts, None).value != [0x6d, 0x65, 0x73, 0x73, 0x61, 0x67, 0x65]
    ensures NextOf(cfg, PartTexts(parts) + ([[]] + texts), NoEvent) == LinesFailed(NonMessageEvent)
  {
    DecodeToBlank(cfg, parts, texts);
    hide NextOf;
    hide PartTexts;
    hide DataOf;
    hide TypeOf;
    hide Counted;
    hide AllProper;
  }
}
