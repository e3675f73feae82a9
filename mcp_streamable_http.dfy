/// The Streamable HTTP transport of the MCP client: one endpoint for every
/// JSON-RPC request, a session id the server hands out in a response header,
/// and responses that arrive either as one JSON body or as a stream of
/// server-sent events.
module StreamableHttp {
  import opened Common
  import opened Strings
  import opened Json
  import opened McpTypes
  import McpAuth

  // ---------------------------------------------------------------------
  // One server-sent event
  // ---------------------------------------------------------------------

  /** The trimmed value of a line that starts with `field`; nothing for any
      other line. */
  function FieldValue(line: string, field: string): (v: seq<string>)
    ensures |v| <= 1
  {
    if StartsWith(line, field) then [Trim(line[|field|..])] else []
  }

  /** The trimmed values of the lines that start with `field`, in order. */
  function FieldValues(lines: seq<string>, field: string): (vals: seq<string>)
    ensures |vals| <= |lines|
  {
    if lines == [] then []
    else FieldValues(lines[..|lines| - 1], field) + FieldValue(lines[|lines| - 1], field)
  }

  /** The last of the values, if any. */
  function LastValue(vals: seq<string>): (r: Option<string>)
    ensures r.None? <==> vals == []
  {
    if vals == [] then None else Some(vals[|vals| - 1])
  }

  /** The values from the first non-blank one on. */
  function DropLeadingBlanks(vals: seq<string>): (r: seq<string>)
    ensures r == [] || r[0] != ""
  {
    if vals == [] || vals[0] != "" then vals else DropLeadingBlanks(vals[1..])
  }

  /** The data of an event: its data values, one per line; blank values before
      the first non-blank one add nothing. */
  function EventData(vals: seq<string>): string
  {
    Join(DropLeadingBlanks(vals), "\n")
  }

  /** The event a block of lines describes: none when its data is empty;
      otherwise the data, and the last `event:` and `id:` values. */
  function SseEventOfLines(lines: seq<string>): Option<SseEvent>
  {
    var data := EventData(FieldValues(lines, "data:"));
    if data == "" then None
    else Some(SseEvent(LastValue(FieldValues(lines, "event:")), data, LastValue(FieldValues(lines, "id:"))))
  }

  /** The event a frame of text describes. */
  function SseEventOf(text: string): Option<SseEvent>
  {
    SseEventOfLines(Lines(text))
  }

  /** A joined list whose first part is not empty is not empty. */
  lemma JoinNonEmpty(parts: seq<string>, sep: string)
    requires |parts| > 0 && parts[0] != ""
    ensures Join(parts, sep) != ""
  {
    if |parts| > 1 {
      assert Join(parts, sep)[..|parts[0]|] == parts[0];
    }
  }

  /** An event's data is empty exactly when every data value is blank. */
  lemma {:induction false} EventDataEmpty(vals: seq<string>)
    ensures EventData(vals) == "" <==> forall i :: 0 <= i < |vals| ==> vals[i] == ""
    decreases |vals|
  {
    if vals != [] {
      if vals[0] == "" {
        EventDataEmpty(vals[1..]);
        assert forall i :: 1 <= i < |vals| ==> vals[i] == vals[1..][i - 1];
      } else {
        JoinNonEmpty(vals, "\n");
      }
    }
  }

  /** Without blank values the data is exactly the values joined by line
      breaks. */
  lemma EventDataOfNonBlank(vals: seq<string>)
    requires forall i :: 0 <= i < |vals| ==> vals[i] != ""
    ensures EventData(vals) == Join(vals, "\n")
  {
  }

  /** One more data value: it is the data if there was none yet, and is
      otherwise added on a line of its own. */
  lemma {:induction false} EventDataStep(vals: seq<string>, v: string)
    ensures EventData(vals + [v]) == if EventData(vals) == "" then v else EventData(vals) + "\n" + v
    decreases |vals|
  {
    if vals == [] {
      assert vals + [v] == [v];
    } else if vals[0] != "" {
      JoinNonEmpty(vals, "\n");
      JoinAppend(vals, v, "\n");
    } else {
      assert (vals + [v])[1..] == vals[1..] + [v];
      EventDataStep(vals[1..], v);
    }
  }

  /** Field prefixes exclude one another. */
  lemma FieldsExclusive(line: string)
    ensures !(StartsWith(line, "event:") && StartsWith(line, "data:"))
    ensures !(StartsWith(line, "event:") && StartsWith(line, "id:"))
    ensures !(StartsWith(line, "data:") && StartsWith(line, "id:"))
  {
    if StartsWith(line, "event:") { assert line[0] == 'e'; }
    if StartsWith(line, "data:") { assert line[0] == 'd'; }
  }

  /** The fields of the first `i` lines: the last `event:` value, the data,
      and the last `id:` value. */
  ghost predicate ParsedUpTo(lines: seq<string>, i: nat, event: Option<string>, data: string, id: Option<string>)
    requires i <= |lines|
  {
    event == LastValue(FieldValues(lines[..i], "event:"))
    && data == EventData(FieldValues(lines[..i], "data:"))
    && id == LastValue(FieldValues(lines[..i], "id:"))
  }

  /** The values of one more line's field. */
  lemma FieldValuesStep(lines: seq<string>, i: nat, field: string)
    requires i < |lines|
    ensures FieldValues(lines[..i + 1], field) == FieldValues(lines[..i], field) + FieldValue(lines[i], field)
    ensures StartsWith(lines[i], field) ==>
      FieldValues(lines[..i + 1], field) == FieldValues(lines[..i], field) + [Trim(lines[i][|field|..])]
    ensures !StartsWith(lines[i], field) ==> FieldValues(lines[..i + 1], field) == FieldValues(lines[..i], field)
  {
    assert lines[..i + 1][..i] == lines[..i];
    assert FieldValues(lines[..i], field) + [] == FieldValues(lines[..i], field);
  }

  /** Reading line `i` sets the field it starts with: the event or the id
      to its value, or the data to that value on a line of its own. */
  lemma ParseLineStep(lines: seq<string>, i: nat, event: Option<string>, data: string, id: Option<string>)
    requires i < |lines| && ParsedUpTo(lines, i, event, data, id)
    ensures var line := lines[i];
      ParsedUpTo(lines, i + 1,
        if StartsWith(line, "event:") then Some(Trim(line[6..])) else event,
        if StartsWith(line, "data:") then
          (if data == "" then data else data + "\n") + Trim(line[5..])
        else data,
        if StartsWith(line, "id:") then Some(Trim(line[3..])) else id)
  {
    LastValueStep(lines, i, "event:");
    LastValueStep(lines, i, "id:");
    DataStep(lines, i, "data:");
  }

  /** The last value of a field after one more line. */
  lemma LastValueStep(lines: seq<string>, i: nat, field: string)
    requires i < |lines|
    ensures LastValue(FieldValues(lines[..i + 1], field))
         == if StartsWith(lines[i], field) then Some(Trim(lines[i][|field|..]))
            else LastValue(FieldValues(lines[..i], field))
  {
    FieldValuesStep(lines, i, field);
  }

  /** The data after one more line. */
  lemma DataStep(lines: seq<string>, i: nat, field: string)
    requires i < |lines|
    ensures var data := EventData(FieldValues(lines[..i], field));
      EventData(FieldValues(lines[..i + 1], field))
      == if StartsWith(lines[i], field) then
           (if data == "" then data else data + "\n") + Trim(lines[i][|field|..])
         else data
  {
    FieldValuesStep(lines, i, field);
    var vals := FieldValues(lines[..i], field);
    if StartsWith(lines[i], field) {
      var v := Trim(lines[i][|field|..]);
      EventDataStep(vals, v);
      assert EventData(vals) == "" ==> EventData(vals) + v == v;
    }
  }

  /** Once every line is read, the fields give the frame's event. */
  lemma ParsedAll(text: string, event: Option<string>, data: string, id: Option<string>)
    requires ParsedUpTo(Lines(text), |Lines(text)|, event, data, id)
    ensures SseEventOf(text) == if data == "" then None else Some(SseEvent(event, data, id))
  {
    var lines := Lines(text);
    assert lines[..|lines|] == lines;
  }

  /** A block of lines describes no event exactly when every data value in
      it is blank. */
  lemma EventAbsentIffBlank(lines: seq<string>)
    ensures SseEventOfLines(lines).None? <==>
      forall i :: 0 <= i < |FieldValues(lines, "data:")| ==> FieldValues(lines, "data:")[i] == ""
  {
    assert SseEventOfLines(lines).None? <==> EventData(FieldValues(lines, "data:")) == "";
    EventDataEmpty(FieldValues(lines, "data:"));
  }

  /** One line of a frame: a `event:`, `data:` or `id:` line sets that
      field; any other line changes nothing. */
  method ParseLine(line: string, event0: Option<string>, data0: string, id0: Option<string>)
    returns (event: Option<string>, data: string, id: Option<string>)
    ensures event == if StartsWith(line, "event:") then Some(Trim(line[6..])) else event0
    ensures data == if StartsWith(line, "data:") then
        (if data0 == "" then data0 else data0 + "\n") + Trim(line[5..])
      else data0
    ensures id == if StartsWith(line, "id:") then Some(Trim(line[3..])) else id0
  {
    event, data, id := event0, data0, id0;
    FieldsExclusive(line);
    if StartsWith(line, "event:") {
      event := Some(Trim(line[6..]));
    } else if StartsWith(line, "data:") {
      if data != "" {
        data := data + "\n";
      }
      data := data + Trim(line[5..]);
    } else if StartsWith(line, "id:") {
      id := Some(Trim(line[3..]));
    }
  }

  /** `parse_sse_event`: reads the frame line by line, keeping the last
      `event:` and `id:` values and adding every `data:` value to the data;
      the result is the event the frame describes. */
  method ParseSseEvent(text: string) returns (r: Option<SseEvent>)
    ensures r == SseEventOf(text)
  {
    var lines := Lines(text);
    var event: Option<string> := None;
    var data := "";
    var id: Option<string> := None;
    var i := 0;
    while i < |lines|
      invariant 0 <= i <= |lines|
      invariant ParsedUpTo(lines, i, event, data, id)
    {
      ParseLineStep(lines, i, event, data, id);
      event, data, id := ParseLine(lines[i], event, data, id);
      i := i + 1;
    }
    ParsedAll(text, event, data, id);
    if data == "" {
      r := None;
    } else {
      r := Some(SseEvent(event, data, id));
    }
  }

  /** The values three lines give, line by line. */
  lemma FieldValuesOfThree(a: string, b: string, c: string, field: string)
    ensures FieldValues([a, b, c], field) == FieldValue(a, field) + FieldValue(b, field) + FieldValue(c, field)
  {
    assert [a, b, c][..2] == [a, b];
    assert [a, b][..1] == [a];
    assert [a][..0] == [];
    assert FieldValues([a], field) == [] + FieldValue(a, field) == FieldValue(a, field);
    assert FieldValues([a, b], field) == FieldValue(a, field) + FieldValue(b, field);
  }

  /** A line made of a field name and a value gives the trimmed value for
      that field. */
  lemma FieldLine(field: string, value: string)
    ensures FieldValue(field + value, field) == [Trim(value)]
  {
    assert (field + value)[..|field|] == field;
    assert (field + value)[|field|..] == value;
  }

  /** A line whose first character differs from a field's gives nothing for
      that field. */
  lemma OtherFieldLine(line: string, field: string)
    requires |line| > 0 && |field| > 0 && line[0] != field[0]
    ensures FieldValue(line, field) == []
  {
  }

  /** A frame of an `event:` line, a `data:` line and an `id:` line, the
      shape of the frame the source's parser test reads, describes the event
      with the trimmed name, data and id, unless the data is blank. */
  lemma ThreeLineFrame(name: string, data: string, id: string)
    requires Trim(data) != ""
    ensures SseEventOfLines(["event:" + name, "data:" + data, "id:" + id])
      == Some(SseEvent(Some(Trim(name)), Trim(data), Some(Trim(id))))
  {
    var a, b, c := "event:" + name, "data:" + data, "id:" + id;
    assert a[0] == 'e' && b[0] == 'd' && c[0] == 'i';
    FieldLine("event:", name);
    FieldLine("data:", data);
    FieldLine("id:", id);
    OtherFieldLine(a, "data:");
    OtherFieldLine(a, "id:");
    OtherFieldLine(b, "event:");
    OtherFieldLine(b, "id:");
    OtherFieldLine(c, "event:");
    OtherFieldLine(c, "data:");
    FieldValuesOfThree(a, b, c, "event:");
    FieldValuesOfThree(a, b, c, "data:");
    FieldValuesOfThree(a, b, c, "id:");
    assert FieldValues([a, b, c], "data:") == [Trim(data)];
    assert EventData([Trim(data)]) == Trim(data);
  }

  // ---------------------------------------------------------------------
  // Frames of an event stream
  // ---------------------------------------------------------------------

  /** Events are separated by a blank line. */
  const FRAME_END: string := "\n\n"

  /** The complete frames of a buffer: the text before each "\n\n". */
  function CompleteFrames(buffer: string): seq<string>
  {
    var parts := Split(buffer, FRAME_END);
    parts[..|parts| - 1]
  }

  /** What follows the last "\n\n": a frame still being received. */
  function Unterminated(buffer: string): string
  {
    var parts := Split(buffer, FRAME_END);
    parts[|parts| - 1]
  }

  /** The frames and the unterminated rest make up the buffer again, and the
      rest holds no frame end. */
  lemma FramesRoundTrip(buffer: string)
    ensures Join(CompleteFrames(buffer) + [Unterminated(buffer)], FRAME_END) == buffer
    ensures !Contains(Unterminated(buffer), FRAME_END)
  {
    var parts := Split(buffer, FRAME_END);
    assert CompleteFrames(buffer) + [Unterminated(buffer)] == parts;
    SplitJoinRoundTrip(buffer, FRAME_END);
    SplitPiecesLackSeparator(buffer, FRAME_END);
  }

  /** Chunk boundaries do not matter: the frames of a longer text are the
      frames already complete, then the frames the rest completes with the
      new text. */
  lemma FramesOfAppend(buffer: string, text: string)
    ensures CompleteFrames(buffer + text)
      == CompleteFrames(buffer) + CompleteFrames(Unterminated(buffer) + text)
    ensures Unterminated(buffer + text) == Unterminated(Unterminated(buffer) + text)
  {
    SplitAppend(buffer, text, FRAME_END);
    var parts := Split(buffer, FRAME_END);
    var more := Split(parts[|parts| - 1] + text, FRAME_END);
    TakeOfAppend(parts[..|parts| - 1], more);
  }

  /** Dropping the last element of an appended list. */
  lemma TakeOfAppend<T>(a: seq<T>, b: seq<T>)
    requires |b| > 0
    ensures (a + b)[..|a + b| - 1] == a + b[..|b| - 1]
    ensures (a + b)[|a + b| - 1] == b[|b| - 1]
  {
  }

  /** A buffer whose first frame end is at `end`: its first complete frame
      is the text before it. */
  lemma FramesStep(buffer: string, end: nat)
    requires Find(buffer, FRAME_END) == Some(end)
    ensures end + 2 <= |buffer|
    ensures CompleteFrames(buffer) == [buffer[..end]] + CompleteFrames(buffer[end + 2..])
    ensures Unterminated(buffer) == Unterminated(buffer[end + 2..])
  {
    SplitStep(buffer, FRAME_END, end);
    var tail := Split(buffer[end + 2..], FRAME_END);
    DropLastOfCons(buffer[..end], tail, []);
  }

  /** A buffer without a frame end holds no complete frame. */
  lemma NoFrames(buffer: string)
    requires Find(buffer, FRAME_END).None?
    ensures CompleteFrames(buffer) == [] && Unterminated(buffer) == buffer
  {
  }

  // ---------------------------------------------------------------------
  // The response a stream carries
  // ---------------------------------------------------------------------

  /** The response a frame carries for request `requestId`: its event's data
      decoded as a JSON-RPC response with that id. */
  function FrameResponse(frame: string, requestId: JsonValue,
                         decode: string -> Option<JsonRpcResponse>): (r: Option<JsonRpcResponse>)
    ensures r.Some? ==> r.value.id == requestId
  {
    match SseEventOf(frame)
    case None => None
    case Some(e) =>
      match decode(e.data)
      case Some(resp) => if resp.id == requestId then Some(resp) else None
      case None => None
  }

  /** `FrameResponse` for one request, as a function of the frame. */
  function FrameReader(requestId: JsonValue, decode: string -> Option<JsonRpcResponse>)
    : string -> Option<JsonRpcResponse>
  {
    frame => FrameResponse(frame, requestId, decode)
  }

  /** The response of the last frame that carries one for the request. */
  function LastResponse(frames: seq<string>, requestId: JsonValue,
                        decode: string -> Option<JsonRpcResponse>): (r: Option<JsonRpcResponse>)
    ensures r.Some? ==> r.value.id == requestId
  {
    LastSomeIsLast(frames, FrameReader(requestId, decode));
    LastSome(frames, FrameReader(requestId, decode))
  }

  /** The response kept after more frames: a newer one replaces `prev`. */
  function Latest(prev: Option<JsonRpcResponse>, frames: seq<string>, requestId: JsonValue,
                  decode: string -> Option<JsonRpcResponse>): Option<JsonRpcResponse>
  {
    var found := LastResponse(frames, requestId, decode);
    if found.Some? then found else prev
  }

  /** The response kept is that of a frame after which no frame carries
      one; there is none only when no frame carries one. */
  lemma LastResponseIsLast(frames: seq<string>, requestId: JsonValue,
                           decode: string -> Option<JsonRpcResponse>)
    ensures var r := LastResponse(frames, requestId, decode);
      r.Some? ==>
        exists i :: 0 <= i < |frames| && FrameResponse(frames[i], requestId, decode) == r
          && forall j :: i < j < |frames| ==> FrameResponse(frames[j], requestId, decode).None?
    ensures LastResponse(frames, requestId, decode).None? ==>
      forall i :: 0 <= i < |frames| ==> FrameResponse(frames[i], requestId, decode).None?
  {
    LastSomeIsLast(frames, FrameReader(requestId, decode));
  }

  /** The last response of two runs of frames is the second run's, if it has
      one. */
  lemma LastResponseAppend(a: seq<string>, b: seq<string>, requestId: JsonValue,
                           decode: string -> Option<JsonRpcResponse>)
    ensures LastResponse(a + b, requestId, decode) == Latest(LastResponse(a, requestId, decode), b, requestId, decode)
  {
    LastSomeAppend(a, b, FrameReader(requestId, decode));
  }

  /** The first chunk the stream failed to deliver, if any. */
  function FirstChunkError(chunks: seq<Result<string, string>>): (e: Option<string>)
    ensures e.None? <==> forall i :: 0 <= i < |chunks| ==> chunks[i].Ok?
  {
    if chunks == [] then None
    else if chunks[0].Err? then Some(chunks[0].error)
    else FirstChunkError(chunks[1..])
  }

  /** A failed chunk after delivered ones is the first error. */
  lemma {:induction false} FirstChunkErrorAt(chunks: seq<Result<string, string>>, i: nat)
    requires i < |chunks| && chunks[i].Err?
    requires forall j :: 0 <= j < i ==> chunks[j].Ok?
    ensures FirstChunkError(chunks) == Some(chunks[i].error)
    decreases i
  {
    if i > 0 {
      FirstChunkErrorAt(chunks[1..], i - 1);
    }
  }

  /** The text of the delivered chunks, in order. */
  function ChunkText(chunks: seq<Result<string, string>>): string
  {
    if chunks == [] then ""
    else
      var last := chunks[|chunks| - 1];
      ChunkText(chunks[..|chunks| - 1]) + (if last.Ok? then last.value else "")
  }

  /** What an event stream answers: a transport error for the first chunk
      that failed; otherwise the last response for the request among the
      complete frames of the whole text, or an invalid-response error when
      there is none. */
  function SseOutcome(chunks: seq<Result<string, string>>, requestId: JsonValue,
                      decode: string -> Option<JsonRpcResponse>): Result<JsonRpcResponse, McpError>
  {
    match FirstChunkError(chunks)
    case Some(e) => Err(TransportError(e))
    case None =>
      match LastResponse(CompleteFrames(ChunkText(chunks)), requestId, decode)
      case Some(resp) => Ok(resp)
      case None => Err(InvalidResponse("No result in SSE stream"))
  }

  /** An event still unterminated when the stream ends is never read: a
      stream without a frame end answers nothing. */
  lemma UnterminatedEventIgnored(text: string, requestId: JsonValue,
                                 decode: string -> Option<JsonRpcResponse>)
    requires Find(text, FRAME_END).None?
    ensures SseOutcome([Ok(text)], requestId, decode) == Err(InvalidResponse("No result in SSE stream"))
  {
    var chunks: seq<Result<string, string>> := [Ok(text)];
    assert chunks[..0] == [];
    assert ChunkText([Ok(text)]) == text;
    NoFrames(text);
  }

  /** One more frame: its response, if it carries one, is the latest. */
  lemma LatestStep(prev: Option<JsonRpcResponse>, seen: seq<string>, frame: string, requestId: JsonValue,
                   decode: string -> Option<JsonRpcResponse>)
    ensures var found := FrameResponse(frame, requestId, decode);
      Latest(prev, seen + [frame], requestId, decode)
        == if found.Some? then found else Latest(prev, seen, requestId, decode)
  {
    assert (seen + [frame])[..|seen|] == seen;
  }

  /** The frames of a buffer with its first frame taken off. */
  ghost predicate FramesTaken(buffer: string, seen: seq<string>, rest: string)
  {
    CompleteFrames(buffer) == seen + CompleteFrames(rest) && Unterminated(buffer) == Unterminated(rest)
  }

  /** Taking the frame before the first frame end off the buffer. */
  lemma TakeFrame(buffer: string, seen: seq<string>, rest: string, end: nat)
    requires FramesTaken(buffer, seen, rest) && Find(rest, FRAME_END) == Some(end)
    ensures end + 2 <= |rest|
    ensures FramesTaken(buffer, seen + [rest[..end]], rest[end + 2..])
  {
    FramesStep(rest, end);
    ConsAssoc(seen, rest[..end], CompleteFrames(rest[end + 2..]));
  }

  lemma ConsAssoc<T>(a: seq<T>, x: T, b: seq<T>)
    ensures a + ([x] + b) == (a + [x]) + b
  {
  }

  /** The response a frame carries, read as `handle_sse_response` does. */
  method ReadFrame(frame: string, requestId: JsonValue, decode: string -> Option<JsonRpcResponse>)
    returns (found: Option<JsonRpcResponse>)
    ensures found == FrameResponse(frame, requestId, decode)
  {
    found := None;
    var event := ParseSseEvent(frame);
    if event.Some? {
      var response := decode(event.value.data);
      if response.Some? && response.value.id == requestId {
        found := response;
      }
    }
  }

  /** The inner loop of `handle_sse_response`: takes every complete frame
      off the buffer, keeping the latest response for the request. */
  method DrainFrames(buffer: string, result: Option<JsonRpcResponse>, requestId: JsonValue,
                     decode: string -> Option<JsonRpcResponse>)
    returns (rest: string, latest: Option<JsonRpcResponse>)
    ensures rest == Unterminated(buffer)
    ensures latest == Latest(result, CompleteFrames(buffer), requestId, decode)
  {
    rest := buffer;
    latest := result;
    ghost var seen: seq<string> := [];
    var next := Find(rest, FRAME_END);
    while next.Some?
      invariant next == Find(rest, FRAME_END)
      invariant FramesTaken(buffer, seen, rest)
      invariant latest == Latest(result, seen, requestId, decode)
      decreases |rest|
    {
      var end := next.value;
      TakeFrame(buffer, seen, rest, end);
      var frame := rest[..end];
      rest := rest[end + 2..];
      var found := ReadFrame(frame, requestId, decode);
      LatestStep(result, seen, frame, requestId, decode);
      if found.Some? {
        latest := found;
      }
      seen := seen + [frame];
      next := Find(rest, FRAME_END);
    }
    NoFrames(rest);
    assert seen + [] == seen;
  }

  /** The state of `handle_sse_response` after reading `text`: the buffer
      holds its unterminated rest, and the result is the last response its
      complete frames carry. */
  ghost predicate StreamRead(text: string, buffer: string, result: Option<JsonRpcResponse>,
                             requestId: JsonValue, decode: string -> Option<JsonRpcResponse>)
  {
    buffer == Unterminated(text) && result == LastResponse(CompleteFrames(text), requestId, decode)
  }

  /** Draining the buffer with a chunk appended reads the chunk. */
  lemma StreamReadStep(text: string, buffer: string, result: Option<JsonRpcResponse>, chunk: string,
                       rest: string, latest: Option<JsonRpcResponse>,
                       requestId: JsonValue, decode: string -> Option<JsonRpcResponse>)
    requires StreamRead(text, buffer, result, requestId, decode)
    requires rest == Unterminated(buffer + chunk)
    requires latest == Latest(result, CompleteFrames(buffer + chunk), requestId, decode)
    ensures StreamRead(text + chunk, rest, latest, requestId, decode)
  {
    FramesOfAppend(text, chunk);
    LastResponseAppend(CompleteFrames(text), CompleteFrames(buffer + chunk), requestId, decode);
  }

  /** The text of one more delivered chunk. */
  lemma ChunkTextStep(chunks: seq<Result<string, string>>, i: nat)
    requires i < |chunks| && chunks[i].Ok?
    ensures ChunkText(chunks[..i + 1]) == ChunkText(chunks[..i]) + chunks[i].value
  {
    assert chunks[..i + 1][..i] == chunks[..i];
  }

  /** The state of `handle_sse_response` after the first `i` chunks: all
      delivered, and their text read. */
  ghost predicate ChunksRead(chunks: seq<Result<string, string>>, i: nat, buffer: string,
                             result: Option<JsonRpcResponse>, requestId: JsonValue,
                             decode: string -> Option<JsonRpcResponse>)
  {
    i <= |chunks| && (forall j :: 0 <= j < i ==> chunks[j].Ok?)
    && StreamRead(ChunkText(chunks[..i]), buffer, result, requestId, decode)
  }

  /** Chunk `i`, delivered: appended to the buffer, whose complete frames are
      then read. */
  method ReadNextChunk(chunks: seq<Result<string, string>>, i: nat, buffer: string,
                       result: Option<JsonRpcResponse>, requestId: JsonValue,
                       decode: string -> Option<JsonRpcResponse>)
    returns (rest: string, latest: Option<JsonRpcResponse>)
    requires i < |chunks| && chunks[i].Ok? && ChunksRead(chunks, i, buffer, result, requestId, decode)
    ensures ChunksRead(chunks, i + 1, rest, latest, requestId, decode)
  {
    ChunkTextStep(chunks, i);
    var chunk := chunks[i].value;
    rest, latest := DrainFrames(buffer + chunk, result, requestId, decode);
    StreamReadStep(ChunkText(chunks[..i]), buffer, result, chunk, rest, latest, requestId, decode);
  }

  /** A stream whose chunk `i` is the first to fail answers with that
      chunk's error. */
  lemma StreamFailed(chunks: seq<Result<string, string>>, i: nat, buffer: string,
                     result: Option<JsonRpcResponse>, requestId: JsonValue,
                     decode: string -> Option<JsonRpcResponse>)
    requires i < |chunks| && chunks[i].Err? && ChunksRead(chunks, i, buffer, result, requestId, decode)
    ensures SseOutcome(chunks, requestId, decode) == Err(TransportError(chunks[i].error))
  {
    FirstChunkErrorAt(chunks, i);
  }

  /** A stream read to its end without a failed chunk answers with the last
      response read, if any. */
  lemma StreamEnded(chunks: seq<Result<string, string>>, buffer: string, result: Option<JsonRpcResponse>,
                    requestId: JsonValue, decode: string -> Option<JsonRpcResponse>)
    requires ChunksRead(chunks, |chunks|, buffer, result, requestId, decode)
    ensures SseOutcome(chunks, requestId, decode)
      == if result.Some? then Ok(result.value) else Err(InvalidResponse("No result in SSE stream"))
  {
    assert chunks[..|chunks|] == chunks;
  }

  /** `handle_sse_response` over the body's chunks. */
  method HandleSseResponse(chunks: seq<Result<string, string>>, requestId: JsonValue,
                           decode: string -> Option<JsonRpcResponse>)
    returns (r: Result<JsonRpcResponse, McpError>)
    ensures r == SseOutcome(chunks, requestId, decode)
  {
    var buffer := "";
    var result: Option<JsonRpcResponse> := None;
    var i := 0;
    assert chunks[..0] == [];
    while i < |chunks|
      invariant 0 <= i <= |chunks|
      invariant ChunksRead(chunks, i, buffer, result, requestId, decode)
    {
      if chunks[i].Err? {
        StreamFailed(chunks, i, buffer, result, requestId, decode);
        return Err(TransportError(chunks[i].error));
      }
      buffer, result := ReadNextChunk(chunks, i, buffer, result, requestId, decode);
      i := i + 1;
    }
    StreamEnded(chunks, buffer, result, requestId, decode);
    if result.Some? {
      r := Ok(result.value);
    } else {
      r := Err(InvalidResponse("No result in SSE stream"));
    }
  }


  // ---------------------------------------------------------------------
  // Responses
  // ---------------------------------------------------------------------

  /** What the server sent back, in every form the client may read it:
      `statusLine` is how the status prints ("404 Not Found"), `contentType`
      the content-type header or "" when absent or unreadable,
      `sessionHeader` the readable Mcp-Session-Id header, `text` the body
      as text ("" when unreadable), `json` the body decoded as a JSON-RPC
      response, and `chunks` the body as a stream of text chunks. */
  datatype HttpReply = HttpReply(
    status: nat,
    statusLine: string,
    contentType: string,
    sessionHeader: Option<string>,
    text: string,
    json: Result<JsonRpcResponse, HttpError>,
    chunks: seq<Result<string, string>>)

  predicate IsEventStream(reply: HttpReply)
  {
    (reply.status == 200 || reply.status == 202) && Contains(reply.contentType, "text/event-stream")
  }

  /** `handle_response`: 200 and 202 carry the response, as an event stream
      or as JSON; a JSON response with an error member is that error. 401,
      404 and 400 have errors of their own, and any other status is a
      transport error naming it. */
  function ResponseOutcome(reply: HttpReply, requestId: JsonValue,
                           decode: string -> Option<JsonRpcResponse>): (r: Result<JsonRpcResponse, McpError>)
    ensures r.Ok? ==> reply.status == 200 || reply.status == 202
    ensures r.Ok? && !IsEventStream(reply) ==> r.value.error.None?
    ensures r.Ok? && IsEventStream(reply) ==> r.value.id == requestId
    ensures reply.status == 401 ==> r == Err(AuthenticationFailed("Unauthorized"))
    ensures reply.status == 404 ==> r == Err(ConnectionFailed("Endpoint not found"))
    ensures reply.status == 400 ==> r == Err(InvalidResponse("Bad request: " + reply.text))
    ensures reply.status !in {200, 202, 400, 401, 404} ==>
      r == Err(TransportError("HTTP " + reply.statusLine + ": " + reply.text))
    ensures ((reply.status == 200 || reply.status == 202) && !IsEventStream(reply) && reply.json.Ok?
             && reply.json.value.error.Some?) ==>
      r == Err(JsonRpcError(reply.json.value.error.value.code, reply.json.value.error.value.message))
  {
    if reply.status == 200 || reply.status == 202 then
      if IsEventStream(reply) then SseOutcome(reply.chunks, requestId, decode)
      else
        match reply.json
        case Err(e) => Err(FromHttpError(e))
        case Ok(resp) =>
          if resp.error.Some? then Err(JsonRpcError(resp.error.value.code, resp.error.value.message))
          else Ok(resp)
    else if reply.status == 401 then Err(AuthenticationFailed("Unauthorized"))
    else if reply.status == 404 then Err(ConnectionFailed("Endpoint not found"))
    else if reply.status == 400 then Err(InvalidResponse("Bad request: " + reply.text))
    else Err(TransportError("HTTP " + reply.statusLine + ": " + reply.text))
  }

  /** The two success paths treat a JSON-RPC error differently: a JSON body
      carrying one is that error, while an event stream's response is
      returned whatever it carries. */
  lemma StreamedErrorsPassThrough(reply: HttpReply, requestId: JsonValue,
                                  decode: string -> Option<JsonRpcResponse>)
    requires reply.status == 200 || reply.status == 202
    ensures IsEventStream(reply) ==>
      ResponseOutcome(reply, requestId, decode) == SseOutcome(reply.chunks, requestId, decode)
    ensures !IsEventStream(reply) && reply.json.Ok? && reply.json.value.error.None? ==>
      ResponseOutcome(reply, requestId, decode) == Ok(reply.json.value)
  {
  }

  /** The answer a request gets: the response's result, or an error when
      the response failed or carries none. */
  function ResultOf(response: Result<JsonRpcResponse, McpError>, missing: string): (r: Result<JsonValue, McpError>)
    ensures response.Err? ==> r == Err(response.error)
    ensures response.Ok? && response.value.result.None? ==> r == Err(InvalidResponse(missing))
    ensures r.Ok? ==> response.Ok? && response.value.result == Some(r.value)
  {
    match response
    case Err(e) => Err(e)
    case Ok(resp) => if resp.result.Some? then Ok(resp.result.value) else Err(InvalidResponse(missing))
  }

  /** A notification is accepted with 200, 202 or 204. */
  function NotificationOutcome(reply: HttpReply): (r: Result<(), McpError>)
    ensures r.Ok? <==> reply.status in {200, 202, 204}
    ensures r.Err? ==>
      r.error == TransportError("Notification failed with HTTP " + reply.statusLine + ": " + reply.text)
  {
    if reply.status in {200, 202, 204} then Ok(())
    else Err(TransportError("Notification failed with HTTP " + reply.statusLine + ": " + reply.text))
  }

  // ---------------------------------------------------------------------
  // The transport
  // ---------------------------------------------------------------------

  /** A request as it leaves the client: its headers, and the JSON-RPC
      method and id it carries (a notification has no id). */
  datatype Outgoing = Outgoing(headers: seq<(string, string)>, methodName: string, id: Option<JsonValue>)

  /** The headers of every request: the content type, the accepted types,
      the session id once there is one, then those of the authentication. */
  function RequestHeaders(sessionId: Option<string>, auth: Option<McpAuth.AuthStrategy>): (h: seq<(string, string)>)
    ensures |h| >= 2 && h[0] == ("Content-Type", "application/json")
    ensures h[1] == ("Accept", "application/json, text/event-stream")
    ensures sessionId.Some? ==> |h| > 2 && h[2] == ("Mcp-Session-Id", sessionId.value)
    ensures sessionId.None? && auth.None? ==> |h| == 2
  {
    var base := [("Content-Type", "application/json"), ("Accept", "application/json, text/event-stream")]
      + (if sessionId.Some? then [("Mcp-Session-Id", sessionId.value)] else []);
    match auth
    case Some(a) => McpAuth.Apply(a, McpAuth.Request(base)).headers
    case None => base
  }

  /** The session id after a request went out with `current`: a reply that
      carries an Mcp-Session-Id header replaces it. */
  function SessionAfter(current: Option<string>, send: Result<HttpReply, HttpError>): (s: Option<string>)
    ensures send.Ok? && send.value.sessionHeader.Some? ==> s == send.value.sessionHeader
    ensures send.Err? || send.value.sessionHeader.None? ==> s == current
  {
    if send.Ok? && send.value.sessionHeader.Some? then send.value.sessionHeader else current
  }

  /** What `initialize` answers for the reply to its request `id`: the
      response's result must be present and decode as an initialize
      result; every error on the way is passed up. */
  function InitializeOutcome(send: Result<HttpReply, HttpError>, id: JsonValue,
                             decode: string -> Option<JsonRpcResponse>,
                             decodeInit: JsonValue -> Result<InitializeResult, string>)
    : (r: Result<InitializeResult, McpError>)
    ensures send.Err? ==> r == Err(FromHttpError(send.error))
    ensures send.Ok? ==>
      var answer := ResultOf(ResponseOutcome(send.value, id, decode), "Missing result in initialize response");
      (answer.Err? ==> r == Err(answer.error))
      && (answer.Ok? && decodeInit(answer.value).Err? ==> r == Err(DeserializationError(decodeInit(answer.value).error)))
      && (answer.Ok? && decodeInit(answer.value).Ok? ==> r == Ok(decodeInit(answer.value).value))
  {
    if send.Err? then Err(FromHttpError(send.error))
    else
      var answer := ResultOf(ResponseOutcome(send.value, id, decode), "Missing result in initialize response");
      if answer.Err? then Err(answer.error)
      else if decodeInit(answer.value).Err? then Err(DeserializationError(decodeInit(answer.value).error))
      else Ok(decodeInit(answer.value).value)
  }

  /** The typed decode a request applies to its result: an error is passed
      on, and a result that does not decode becomes a DeserializationError.
      `read_resource` and `get_prompt` return the result as it is, which is
      the decoder that accepts every value. */
  function TypedResult(answer: Result<JsonValue, McpError>, decodeResult: JsonValue -> Result<JsonValue, string>)
    : (r: Result<JsonValue, McpError>)
    ensures answer.Err? ==> r == answer
    ensures answer.Ok? && decodeResult(answer.value).Err? ==> r == Err(DeserializationError(decodeResult(answer.value).error))
    ensures answer.Ok? && decodeResult(answer.value).Ok? ==> r == Ok(decodeResult(answer.value).value)
  {
    match answer
    case Err(e) => Err(e)
    case Ok(v) =>
      match decodeResult(v)
      case Err(msg) => Err(DeserializationError(msg))
      case Ok(typed) => Ok(typed)
  }

  /** With the decoder that accepts every value, the result is returned as
      it is. */
  lemma UntypedResult(answer: Result<JsonValue, McpError>, decodeResult: JsonValue -> Result<JsonValue, string>)
    requires forall v :: decodeResult(v) == Ok(v)
    ensures TypedResult(answer, decodeResult) == answer
  {
  }

  class StreamableHttpTransport {
    const endpoint: string
    const auth: Option<McpAuth.AuthStrategy>
    const timeoutMs: nat
    /** The session id the server handed out last. */
    var sessionId: Option<string>
    var connected: bool
    /** The id the next request gets. */
    var nextId: nat
    /** Every id handed out so far, in order. */
    ghost var issued: seq<nat>
    var serverCapabilities: Option<JsonValue>
    var serverInfo: Option<ServerInfo>
    /** Every request sent so far, in order. */
    var sent: seq<Outgoing>

    /** Request ids are handed out in increasing order, each below the next
        one, which is at least 1. */
    ghost predicate Valid()
      reads this
    {
      nextId >= 1
      && (forall i, j :: 0 <= i < j < |issued| ==> issued[i] < issued[j])
      && (forall i :: 0 <= i < |issued| ==> issued[i] < nextId)
    }

    /** `new` once the endpoint parsed and the client was built: not
        connected, no session, request ids from 1. */
    constructor (endpoint: string, auth: Option<McpAuth.AuthStrategy>, timeoutMs: nat)
      ensures Valid()
      ensures this.endpoint == endpoint && this.auth == auth && this.timeoutMs == timeoutMs
      ensures sessionId.None? && !connected && nextId == 1 && issued == []
      ensures serverCapabilities.None? && serverInfo.None? && sent == []
    {
      this.endpoint := endpoint;
      this.auth := auth;
      this.timeoutMs := timeoutMs;
      sessionId := None;
      connected := false;
      nextId := 1;
      issued := [];
      serverCapabilities := None;
      serverInfo := None;
      sent := [];
    }

    /** The flag `connect` sets on success and `disconnect` clears. */
    function IsConnected(): (r: bool)
      reads this
      ensures r <==> connected
    {
      connected
    }

    /** `next_request_id`: the current id, which is above every id handed
        out before; the counter moves on by one. */
    method NextRequestId() returns (id: nat)
      requires Valid()
      modifies this
      ensures Valid()
      ensures id == old(nextId) && nextId == old(nextId) + 1 && issued == old(issued) + [id]
      ensures id >= 1 && forall k :: k in old(issued) ==> k < id
      ensures sessionId == old(sessionId) && connected == old(connected) && sent == old(sent)
      ensures serverInfo == old(serverInfo) && serverCapabilities == old(serverCapabilities)
    {
      id := nextId;
      nextId := nextId + 1;
      issued := issued + [id];
    }

    /** `handle_response`; an event stream is read chunk by chunk. */
    method HandleResponse(reply: HttpReply, requestId: JsonValue, decode: string -> Option<JsonRpcResponse>)
      returns (r: Result<JsonRpcResponse, McpError>)
      ensures r == ResponseOutcome(reply, requestId, decode)
    {
      if IsEventStream(reply) {
        r := HandleSseResponse(reply.chunks, requestId, decode);
      } else {
        r := ResponseOutcome(reply, requestId, decode);
      }
    }

    /** `send_and_receive`: the request goes out with the current session id;
        a session id in the reply replaces the stored one, so that every
        later request carries it. */
    method SendAndReceive(request: JsonRpcRequest, send: Result<HttpReply, HttpError>,
                          decode: string -> Option<JsonRpcResponse>)
      returns (r: Result<JsonRpcResponse, McpError>)
      modifies this
      ensures sent == old(sent) + [Outgoing(RequestHeaders(old(sessionId), auth), request.methodName, Some(request.id))]
      ensures send.Err? ==> r == Err(FromHttpError(send.error)) && sessionId == old(sessionId)
      ensures send.Ok? ==> r == ResponseOutcome(send.value, request.id, decode)
      ensures send.Ok? && send.value.sessionHeader.Some? ==> sessionId == send.value.sessionHeader
      ensures send.Ok? && send.value.sessionHeader.None? ==> sessionId == old(sessionId)
      ensures connected == old(connected) && nextId == old(nextId) && issued == old(issued)
      ensures serverInfo == old(serverInfo) && serverCapabilities == old(serverCapabilities)
    {
      sent := sent + [Outgoing(RequestHeaders(sessionId, auth), request.methodName, Some(request.id))];
      if send.Err? {
        return Err(FromHttpError(send.error));
      }
      var reply := send.value;
      if reply.sessionHeader.Some? {
        sessionId := reply.sessionHeader;
      }
      r := HandleResponse(reply, request.id, decode);
    }

    /** `send_notification`: sent with the session id; the reply's session
        header is not read. */
    method SendNotification(methodName: string, send: Result<HttpReply, HttpError>)
      returns (r: Result<(), McpError>)
      modifies this
      ensures sent == old(sent) + [Outgoing(RequestHeaders(old(sessionId), auth), methodName, None)]
      ensures send.Err? ==> r == Err(FromHttpError(send.error))
      ensures send.Ok? ==> r == NotificationOutcome(send.value)
      ensures sessionId == old(sessionId) && connected == old(connected)
      ensures nextId == old(nextId) && issued == old(issued)
      ensures serverInfo == old(serverInfo) && serverCapabilities == old(serverCapabilities)
    {
      sent := sent + [Outgoing(RequestHeaders(sessionId, auth), methodName, None)];
      if send.Err? {
        return Err(FromHttpError(send.error));
      }
      r := NotificationOutcome(send.value);
    }

    /** A request that needs a connection (`list_tools`, `call_tool`,
        `list_resources`, `read_resource`, `list_prompts`, `get_prompt`):
        refused with NotConnected before `connect`, and otherwise sent with
        the next id and answered by the response's result after the
        request's typed decode. */
    method Call(methodName: string, params: Option<JsonValue>, send: Result<HttpReply, HttpError>,
                decode: string -> Option<JsonRpcResponse>, decodeResult: JsonValue -> Result<JsonValue, string>)
      returns (r: Result<JsonValue, McpError>)
      requires Valid()
      modifies this
      ensures Valid()
      ensures !old(connected) ==>
        r == Err(NotConnected) && sent == old(sent) && nextId == old(nextId)
        && sessionId == old(sessionId) && issued == old(issued)
      ensures old(connected) ==>
        nextId == old(nextId) + 1 && issued == old(issued) + [old(nextId)]
        && sent == old(sent) + [Outgoing(RequestHeaders(old(sessionId), auth), methodName, Some(JNumber(old(nextId))))]
        && sessionId == SessionAfter(old(sessionId), send)
      ensures old(connected) && send.Err? ==> r == Err(FromHttpError(send.error))
      ensures old(connected) && send.Ok? ==>
        r == TypedResult(ResultOf(ResponseOutcome(send.value, JNumber(old(nextId)), decode), "Missing result"),
                         decodeResult)
      ensures connected == old(connected)
      ensures serverInfo == old(serverInfo) && serverCapabilities == old(serverCapabilities)
    {
      if !connected {
        return Err(NotConnected);
      }
      var id := NextRequestId();
      var response := SendAndReceive(NewRequest(methodName, params, id), send, decode);
      r := TypedResult(ResultOf(response, "Missing result"), decodeResult);
    }

    /** `ping`: sent whether or not the transport is connected; any error
        of the exchange is passed up, and any response is success. */
    method Ping(send: Result<HttpReply, HttpError>, decode: string -> Option<JsonRpcResponse>)
      returns (r: Result<(), McpError>)
      requires Valid()
      modifies this
      ensures Valid()
      ensures nextId == old(nextId) + 1 && issued == old(issued) + [old(nextId)]
      ensures sent == old(sent) + [Outgoing(RequestHeaders(old(sessionId), auth), "ping", Some(JNumber(old(nextId))))]
      ensures sessionId == SessionAfter(old(sessionId), send)
      ensures send.Err? ==> r == Err(FromHttpError(send.error))
      ensures send.Ok? && ResponseOutcome(send.value, JNumber(old(nextId)), decode).Err? ==>
        r == Err(ResponseOutcome(send.value, JNumber(old(nextId)), decode).error)
      ensures send.Ok? && ResponseOutcome(send.value, JNumber(old(nextId)), decode).Ok? ==> r == Ok(())
      ensures connected == old(connected)
      ensures serverInfo == old(serverInfo) && serverCapabilities == old(serverCapabilities)
    {
      var id := NextRequestId();
      var response := SendAndReceive(NewRequest("ping", None, id), send, decode);
      if response.Err? {
        return Err(response.error);
      }
      r := Ok(());
    }

    /** `initialize`: the handshake request; its result must be present and
        decode, and a protocol version other than the client's is
        accepted. */
    method Initialize(params: JsonValue, send: Result<HttpReply, HttpError>,
                      decode: string -> Option<JsonRpcResponse>,
                      decodeInit: JsonValue -> Result<InitializeResult, string>)
      returns (r: Result<InitializeResult, McpError>)
      requires Valid()
      modifies this
      ensures Valid()
      ensures nextId == old(nextId) + 1
      ensures sent == old(sent) + [Outgoing(RequestHeaders(old(sessionId), auth), "initialize", Some(JNumber(old(nextId))))]
      ensures r == InitializeOutcome(send, JNumber(old(nextId)), decode, decodeInit)
      ensures issued == old(issued) + [old(nextId)] && sessionId == SessionAfter(old(sessionId), send)
      ensures connected == old(connected)
      ensures serverInfo == old(serverInfo) && serverCapabilities == old(serverCapabilities)
    {
      var id := NextRequestId();
      var response := SendAndReceive(NewRequest("initialize", Some(params), id), send, decode);
      var answer := ResultOf(response, "Missing result in initialize response");
      if answer.Err? {
        return Err(answer.error);
      }
      var decoded := decodeInit(answer.value);
      if decoded.Err? {
        return Err(DeserializationError(decoded.error));
      }
      r := Ok(decoded.value);
    }

    /** The part of `connect` after the credential check: the handshake,
        after which the server's description is stored, then the
        initialized notification under the session id the handshake's
        reply left; the transport is connected exactly when both succeed. */
    method Handshake(params: JsonValue, initSend: Result<HttpReply, HttpError>,
                     decode: string -> Option<JsonRpcResponse>,
                     decodeInit: JsonValue -> Result<InitializeResult, string>,
                     notifySend: Result<HttpReply, HttpError>)
      returns (r: Result<(), McpError>)
      requires Valid()
      modifies this
      ensures Valid()
      ensures nextId == old(nextId) + 1 && issued == old(issued) + [old(nextId)]
      ensures sessionId == SessionAfter(old(sessionId), initSend)
      ensures var init := InitializeOutcome(initSend, JNumber(old(nextId)), decode, decodeInit);
        var handshake := Outgoing(RequestHeaders(old(sessionId), auth), "initialize", Some(JNumber(old(nextId))));
        (init.Err? ==>
           r == Err(init.error) && sent == old(sent) + [handshake] && connected == old(connected)
           && serverInfo == old(serverInfo) && serverCapabilities == old(serverCapabilities))
        && (init.Ok? ==>
              serverInfo == Some(init.value.serverInfo) && serverCapabilities == Some(init.value.capabilities)
              && sent == old(sent) + [handshake, Outgoing(RequestHeaders(sessionId, auth), "notifications/initialized", None)])
        && (init.Ok? && notifySend.Err? ==> r == Err(FromHttpError(notifySend.error)) && connected == old(connected))
        && (init.Ok? && notifySend.Ok? ==>
              r == NotificationOutcome(notifySend.value) && (connected <==> r.Ok? || old(connected)))
    {
      var init := Initialize(params, initSend, decode, decodeInit);
      if init.Err? {
        return Err(init.error);
      }
      r := Announce(init.value, notifySend);
    }

    /** What `connect` does once the handshake answered: the server's
        description is stored, then the initialized notification is sent,
        and only its success connects the transport. */
    method Announce(init: InitializeResult, notifySend: Result<HttpReply, HttpError>)
      returns (r: Result<(), McpError>)
      requires Valid()
      modifies this
      ensures Valid()
      ensures serverInfo == Some(init.serverInfo) && serverCapabilities == Some(init.capabilities)
      ensures sent == old(sent) + [Outgoing(RequestHeaders(old(sessionId), auth), "notifications/initialized", None)]
      ensures nextId == old(nextId) && issued == old(issued) && sessionId == old(sessionId)
      ensures notifySend.Err? ==> r == Err(FromHttpError(notifySend.error)) && connected == old(connected)
      ensures notifySend.Ok? ==> r == NotificationOutcome(notifySend.value) && (connected <==> r.Ok? || old(connected))
    {
      serverInfo := Some(init.serverInfo);
      serverCapabilities := Some(init.capabilities);
      var notified := SendNotification("notifications/initialized", notifySend);
      if notified.Err? {
        return notified;
      }
      connected := true;
      r := Ok(());
    }

    /** `connect`: an expired credential stops it before anything is sent;
        otherwise the handshake and the initialized notification, and the
        transport is connected exactly when all of them succeed. */
    method Connect(now: Instant, params: JsonValue, initSend: Result<HttpReply, HttpError>,
                   decode: string -> Option<JsonRpcResponse>,
                   decodeInit: JsonValue -> Result<InitializeResult, string>,
                   notifySend: Result<HttpReply, HttpError>)
      returns (r: Result<(), McpError>)
      requires Valid()
      modifies this
      ensures Valid()
      ensures auth.Some? && !McpAuth.IsValid(auth.value, now) ==>
        r == Err(TokenExpired) && sent == old(sent) && nextId == old(nextId) && issued == old(issued)
        && sessionId == old(sessionId) && connected == old(connected)
        && serverInfo == old(serverInfo) && serverCapabilities == old(serverCapabilities)
      ensures auth.None? || McpAuth.IsValid(auth.value, now) ==>
        var init := InitializeOutcome(initSend, JNumber(old(nextId)), decode, decodeInit);
        var handshake := Outgoing(RequestHeaders(old(sessionId), auth), "initialize", Some(JNumber(old(nextId))));
        nextId == old(nextId) + 1 && issued == old(issued) + [old(nextId)]
        && sessionId == SessionAfter(old(sessionId), initSend)
        && (init.Err? ==>
              r == Err(init.error) && sent == old(sent) + [handshake] && connected == old(connected)
              && serverInfo == old(serverInfo) && serverCapabilities == old(serverCapabilities))
        && (init.Ok? ==>
              serverInfo == Some(init.value.serverInfo) && serverCapabilities == Some(init.value.capabilities)
              && sent == old(sent) + [handshake, Outgoing(RequestHeaders(sessionId, auth), "notifications/initialized", None)])
        && (init.Ok? && notifySend.Err? ==> r == Err(FromHttpError(notifySend.error)) && connected == old(connected))
        && (init.Ok? && notifySend.Ok? ==>
              r == NotificationOutcome(notifySend.value) && (connected <==> r.Ok? || old(connected)))
      ensures r.Ok? <==>
        (auth.None? || McpAuth.IsValid(auth.value, now))
        && InitializeOutcome(initSend, JNumber(old(nextId)), decode, decodeInit).Ok?
        && notifySend.Ok? && NotificationOutcome(notifySend.value).Ok?
      ensures r.Ok? ==> connected
    {
      if auth.Some? && !McpAuth.IsValid(auth.value, now) {
        return Err(TokenExpired);
      }
      r := Handshake(params, initSend, decode, decodeInit, notifySend);
    }

    /** `disconnect`: forgets the session and the server; nothing happens
        when not connected. */
    method Disconnect() returns (r: Result<(), McpError>)
      modifies this
      ensures r == Ok(())
      ensures !old(connected) ==>
        sessionId == old(sessionId) && serverInfo == old(serverInfo)
        && serverCapabilities == old(serverCapabilities) && !connected
      ensures old(connected) ==> sessionId.None? && !connected && serverInfo.None? && serverCapabilities.None?
      ensures sent == old(sent) && nextId == old(nextId) && issued == old(issued)
    {
      if !connected {
        return Ok(());
      }
      sessionId := None;
      connected := false;
      serverCapabilities := None;
      serverInfo := None;
      r := Ok(());
    }
  }
}
