/**
 * The translation of a messages event stream into chat-completion chunks, one
 * event at a time, and the loop that sends the chunks on.
 */
module StreamTranslation {
  import opened Outcomes
  import opened Utf8
  import opened Payloads
  import opened SseFraming

  /** The events the translation tells apart. */
  datatype Kind = MessageStart | BlockStart | BlockDelta | MessageDelta | MessageStop | OtherKind

  function KindOf(name: Option<string>): Kind {
    if name == Some("message_start") then MessageStart
    else if name == Some("content_block_start") then BlockStart
    else if name == Some("content_block_delta") then BlockDelta
    else if name == Some("message_delta") then MessageDelta
    else if name == Some("message_stop") then MessageStop
    else OtherKind
  }

  /** What a request contributes to its chunks. */
  datatype Request = Request(id: string, model: string, created: JsonInt)

  datatype State = State(
    messageId: Option<string>,
    model: Option<string>,
    inputTokens: Option<u64>,
    outputTokens: Option<u64>,
    finishReason: Option<string>,
    deltas: seq<string>,
    roleSent: bool,
    doneSent: bool)

  const INITIAL := State(None, None, None, None, None, [], false, false)

  // --- chunks ---

  datatype Chunk = Data(members: map<string, Json>) | Done

  function Line(c: Codec, k: Chunk): string {
    match k
    case Data(members) => "data: " + c.render(Obj(members)) + "\n\n"
    case Done => "data: [DONE]\n\n"
  }

  function MapFinishReason(reason: string): string {
    if reason == "max_tokens" then "length"
    else if reason == "tool_use" then "tool_calls"
    else "stop"
  }

  function ChunkMembers(req: Request, st: State, delta: Json, finish: Json): map<string, Json> {
    map[
      "id" := Str(UnwrapOr(st.messageId, req.id)),
      "object" := Str("chat.completion.chunk"),
      "created" := Int(req.created),
      "model" := Str(UnwrapOr(st.model, req.model)),
      "choices" := Arr([Obj(map["index" := Int(0), "delta" := delta, "finish_reason" := finish])])
    ]
  }

  function BuildRoleChunk(req: Request, st: State): Chunk {
    Data(ChunkMembers(req, st, Obj(map["role" := Str("assistant")]), Null))
  }

  function BuildDeltaChunk(req: Request, st: State, delta: string): Chunk {
    Data(ChunkMembers(req, st, Obj(map["content" := Str(delta)]), Null))
  }

  /** The sum wraps, as the source's unsigned addition does in a release build. */
  function UsageMembers(prompt: u64, completion: u64): map<string, Json> {
    map[
      "prompt_tokens" := Int(prompt),
      "completion_tokens" := Int(completion),
      "total_tokens" := Int((prompt + completion) % U64_RANGE)
    ]
  }

  function BuildFinalChunk(req: Request, st: State): Chunk {
    var reason := MapFinishReason(UnwrapOr(st.finishReason, "end_turn"));
    var usage := UsageMembers(UnwrapOr(st.inputTokens, 0), UnwrapOr(st.outputTokens, 0));
    Data(ChunkMembers(req, st, Obj(map[]), Str(reason))["usage" := Obj(usage)])
  }

  // --- one event ---

  datatype Mapped = Mapped(st: State, chunks: seq<Chunk>)

  predicate IsDone(data: string) {
    EqualsIgnoringCase(data, "[done]")
  }

  function TextOf(payload: Json, kind: Kind): Option<string> {
    var text :=
      match kind
      case BlockStart => AsStr(GetIn(Get(payload, "content_block"), "text"))
      case BlockDelta => AsStr(GetIn(Get(payload, "delta"), "text"))
      case _ => None;
    if text == Some("") then None else text
  }

  function MapStart(req: Request, st: State, payload: Json): Mapped {
    var message := Get(payload, "message");
    var usage := GetIn(message, "usage");
    var next := st.(
      messageId := AsStr(GetIn(message, "id")),
      model := AsStr(GetIn(message, "model")),
      inputTokens := OrElse(AsU64(GetIn(usage, "input_tokens")), st.inputTokens),
      outputTokens := OrElse(AsU64(GetIn(usage, "output_tokens")), st.outputTokens),
      roleSent := true);
    Mapped(next, if st.roleSent then [] else [BuildRoleChunk(req, next)])
  }

  function MapText(req: Request, st: State, text: Option<string>): Mapped {
    match text
    case Some(t) =>
      var next := st.(deltas := st.deltas + [t]);
      Mapped(next, [BuildDeltaChunk(req, next, t)])
    case None => Mapped(st, [])
  }

  function MapDelta(st: State, payload: Json): Mapped {
    var next := st.(
      outputTokens := OrElse(AsU64(GetIn(Get(payload, "usage"), "output_tokens")), st.outputTokens),
      finishReason := OrElse(AsStr(GetIn(Get(payload, "delta"), "stop_reason")), st.finishReason));
    Mapped(next, [])
  }

  function MapStop(req: Request, st: State): Mapped {
    var next := st.(finishReason := OrElse(st.finishReason, Some("end_turn")), doneSent := true);
    if st.doneSent then Mapped(st, []) else Mapped(next, [BuildFinalChunk(req, next), Done])
  }

  function MapPayload(req: Request, st: State, kind: Kind, payload: Json): Mapped {
    match kind
    case MessageStart => MapStart(req, st, payload)
    case BlockStart | BlockDelta => MapText(req, st, TextOf(payload, kind))
    case MessageDelta => MapDelta(st, payload)
    case MessageStop => MapStop(req, st)
    case OtherKind => Mapped(st, [])
  }

  function MapEvent(c: Codec, req: Request, st: State, e: SseEvent): Mapped {
    if IsDone(e.data) then
      if st.doneSent then Mapped(st, []) else Mapped(st.(doneSent := true), [Done])
    else
      match c.parse(e.data)
      case None => Mapped(st, [])
      case Some(payload) => MapPayload(req, st, KindOf(e.name), payload)
  }

  function ReadEvent(raw: string): SseEvent {
    EventOf(FieldsOf(raw))
  }

  function ReadEvents(raws: seq<string>): (events: seq<SseEvent>)
    ensures |events| == |raws|
  {
    if raws == [] then [] else [ReadEvent(raws[0])] + ReadEvents(raws[1..])
  }

  function LinesOf(c: Codec, chunks: seq<Chunk>): (lines: seq<string>)
    ensures |lines| == |chunks|
    ensures forall i :: 0 <= i < |chunks| ==> lines[i] == Line(c, chunks[i])
  {
    if chunks == [] then [] else [Line(c, chunks[0])] + LinesOf(c, chunks[1..])
  }

  // --- whole streams ---

  /** The chunks of a whole stream: nothing is sent after the terminal chunk. */
  function Translated(c: Codec, req: Request, st: State, events: seq<SseEvent>): seq<Chunk>
    decreases |events|
  {
    if events == [] then []
    else
      var m := MapEvent(c, req, st, events[0]);
      m.chunks + if m.st.doneSent then [] else Translated(c, req, m.st, events[1..])
  }

  datatype SendStep = SendStep(st: State, lines: seq<string>, last: bool)

  /** A native client gets each event as it came, up to the one named message_stop. */
  function SendOne(native: bool, c: Codec, req: Request, st: State, raw: string): SendStep {
    if native then SendStep(st, [raw + "\n\n"], ReadEvent(raw).name == Some("message_stop"))
    else
      var m := MapEvent(c, req, st, ReadEvent(raw));
      SendStep(m.st, LinesOf(c, m.chunks), m.st.doneSent)
  }

  function Sent(native: bool, c: Codec, req: Request, st: State, raws: seq<string>): seq<string>
    decreases |raws|
  {
    if raws == [] then []
    else
      var step := SendOne(native, c, req, st, raws[0]);
      step.lines + if step.last then [] else Sent(native, c, req, step.st, raws[1..])
  }

  lemma LinesOfConcat(c: Codec, a: seq<Chunk>, b: seq<Chunk>)
    ensures LinesOf(c, a + b) == LinesOf(c, a) + LinesOf(c, b)
  {
  }

  lemma {:induction false} SentIsTranslated(c: Codec, req: Request, st: State, raws: seq<string>)
    ensures Sent(false, c, req, st, raws) == LinesOf(c, Translated(c, req, st, ReadEvents(raws)))
    decreases |raws|
  {
    if raws != [] {
      var events := ReadEvents(raws);
      assert events[0] == ReadEvent(raws[0]) && events[1..] == ReadEvents(raws[1..]);
      var m := MapEvent(c, req, st, events[0]);
      if !m.st.doneSent {
        SentIsTranslated(c, req, m.st, raws[1..]);
        LinesOfConcat(c, m.chunks, Translated(c, req, m.st, events[1..]));
      } else {
        assert m.chunks + [] == m.chunks;
      }
    }
  }

  class AnthropicStreamState {
    var messageId: Option<string>
    var model: Option<string>
    var inputTokens: Option<u64>
    var outputTokens: Option<u64>
    var finishReason: Option<string>
    var deltas: seq<string>
    var roleSent: bool
    var doneSent: bool

    function Current(): State
      reads this
    {
      State(messageId, model, inputTokens, outputTokens, finishReason, deltas, roleSent, doneSent)
    }

    constructor ()
      ensures Current() == INITIAL
    {
      messageId, model, inputTokens, outputTokens := None, None, None, None;
      finishReason, deltas, roleSent, doneSent := None, [], false, false;
    }

    method MapStreamEvent(c: Codec, req: Request, event: SseEvent) returns (chunks: seq<Chunk>)
      modifies this
      ensures Mapped(Current(), chunks) == MapEvent(c, req, old(Current()), event)
    {
      chunks := [];
      if IsDone(event.data) {
        if doneSent {
          return;
        }
        doneSent := true;
        return [Done];
      }
      var parsed := c.parse(event.data);
      if parsed.None? {
        return;
      }
      var payload, kind := parsed.value, KindOf(event.name);
      match kind {
        case MessageStart =>
          chunks := MapMessageStart(req, payload);
        case BlockStart | BlockDelta =>
          var text := TextOf(payload, kind);
          if text.Some? {
            deltas := deltas + [text.value];
            chunks := [BuildDeltaChunk(req, Current(), text.value)];
          }
        case MessageDelta =>
          outputTokens := OrElse(AsU64(GetIn(Get(payload, "usage"), "output_tokens")), outputTokens);
          finishReason := OrElse(AsStr(GetIn(Get(payload, "delta"), "stop_reason")), finishReason);
        case MessageStop =>
          if doneSent {
            return;
          }
          finishReason := OrElse(finishReason, Some("end_turn"));
          doneSent := true;
          chunks := [BuildFinalChunk(req, Current()), Done];
        case OtherKind =>
      }
    }

    method MapMessageStart(req: Request, payload: Json) returns (chunks: seq<Chunk>)
      modifies this
      ensures Mapped(Current(), chunks) == MapStart(req, old(Current()), payload)
    {
      var message := Get(payload, "message");
      var usage := GetIn(message, "usage");
      messageId := AsStr(GetIn(message, "id"));
      model := AsStr(GetIn(message, "model"));
      inputTokens := OrElse(AsU64(GetIn(usage, "input_tokens")), inputTokens);
      outputTokens := OrElse(AsU64(GetIn(usage, "output_tokens")), outputTokens);
      if roleSent {
        return [];
      }
      roleSent := true;
      chunks := [BuildRoleChunk(req, Current())];
    }
  }

  // --- the send loop ---

  /** The non-blank blocks the rest of a stream still yields. */
  function Pending(buffer: seq<byte>, upstream: seq<seq<byte>>): seq<string> {
    EventsOf(Frame(buffer + Concat(upstream)).pieces)
  }

  lemma PendingAfterChunk(buffer: seq<byte>, upstream: seq<seq<byte>>)
    requires upstream != []
    ensures var f := Frame(buffer + upstream[0]);
      Pending(buffer, upstream) == EventsOf(f.pieces) + Pending(f.rest, upstream[1..])
  {
    var s, later := buffer + upstream[0], Concat(upstream[1..]);
    FramingResumes(s, later);
    ChunkThenRest(buffer, upstream[0], later);
    EventsOfConcat(Frame(s).pieces, Frame(Frame(s).rest + later).pieces);
  }

  lemma PendingAfter(buffer: seq<byte>, upstream: seq<seq<byte>>, i: nat)
    requires i < |upstream|
    ensures var f := Frame(buffer + upstream[i]);
      && Pending(buffer, upstream[i..]) == EventsOf(f.pieces) + Pending(f.rest, upstream[i + 1..])
      && !HasDelimiter(f.rest)
  {
    assert upstream[i..][0] == upstream[i] && upstream[i..][1..] == upstream[i + 1..];
    PendingAfterChunk(buffer, upstream[i..]);
    LeftoverHasNoDelimiter(buffer + upstream[i]);
  }

  lemma {:induction false} EventsOfConcat(a: seq<Piece>, b: seq<Piece>)
    ensures EventsOf(a + b) == EventsOf(a) + EventsOf(b)
  {
    if a == [] {
      assert a + b == b;
    } else {
      assert (a + b)[0] == a[0] && (a + b)[1..] == a[1..] + b;
      EventsOfConcat(a[1..], b);
    }
  }

  lemma NothingPending(buffer: seq<byte>)
    requires !HasDelimiter(buffer)
    ensures Pending(buffer, []) == []
  {
    assert buffer + [] == buffer;
  }

  predicate Sending(native: bool, c: Codec, req: Request, st: State, sent: seq<string>, left: seq<string>, all: seq<string>) {
    all == sent + Sent(native, c, req, st, left)
  }

  lemma SendingOne(native: bool, c: Codec, req: Request, st: State, sent: seq<string>, left: seq<string>, all: seq<string>)
    requires left != [] && Sending(native, c, req, st, sent, left, all)
    ensures var step := SendOne(native, c, req, st, left[0]);
      && sent + step.lines <= all
      && if step.last then all == sent + step.lines
         else Sending(native, c, req, step.st, sent + step.lines, left[1..], all)
  {
    var step := SendOne(native, c, req, st, left[0]);
    Regroup(sent, step.lines, if step.last then [] else Sent(native, c, req, step.st, left[1..]));
  }

  lemma Regroup(a: seq<string>, b: seq<string>, c: seq<string>)
    ensures a + (b + c) == a + b + c && a + b <= a + (b + c)
    ensures c == [] ==> a + (b + c) == a + b
  {
  }

  /** The lines a receiver that takes so many gets. */
  function Upto(all: seq<string>, takes: nat): seq<string> {
    if |all| <= takes then all else all[..takes]
  }

  /** Sends the lines one by one; `gone` when the receiver takes no more. */
  method SendLines(lines: seq<string>, sentSoFar: seq<string>, takes: nat, ghost all: seq<string>)
    returns (sent: seq<string>, gone: bool)
    requires sentSoFar + lines <= all && |sentSoFar| <= takes
    ensures if gone then sent == Upto(all, takes) else sent == sentSoFar + lines && |sent| <= takes
  {
    sent, gone := sentSoFar, false;
    for j := 0 to |lines|
      invariant sent == sentSoFar + lines[..j] && |sent| <= takes
    {
      if |sent| == takes {
        assert sent == (sentSoFar + lines)[..takes];
        return sent, true;
      }
      sent := sent + [lines[j]];
    }
  }

  /** The lines of one event, and whether it is the last. */
  method ReadOne(native: bool, c: Codec, req: Request, state: AnthropicStreamState, raw: string)
    returns (lines: seq<string>, terminal: bool)
    modifies state
    ensures SendStep(state.Current(), lines, terminal) == SendOne(native, c, req, old(state.Current()), raw)
  {
    var event := ParseSseEvent(raw);
    if native {
      return [raw + "\n\n"], event.name == Some("message_stop");
    }
    var mapped := state.MapStreamEvent(c, req, event);
    lines, terminal := LinesOf(c, mapped), state.doneSent;
  }

  lemma FirstOfRest(raws: seq<string>, i: nat, later: seq<string>)
    requires i < |raws|
    ensures var left := raws[i..] + later;
      left != [] && left[0] == raws[i] && left[1..] == raws[i + 1..] + later
  {
  }

  method SendEvents(native: bool, c: Codec, req: Request, state: AnthropicStreamState, raws: seq<string>,
    sentSoFar: seq<string>, takes: nat, ghost later: seq<string>, ghost all: seq<string>)
    returns (sent: seq<string>, finished: bool)
    requires Sending(native, c, req, state.Current(), sentSoFar, raws + later, all) && |sentSoFar| <= takes
    modifies state
    ensures if finished then sent == Upto(all, takes)
            else Sending(native, c, req, state.Current(), sent, later, all) && |sent| <= takes
  {
    sent, finished := sentSoFar, false;
    for i := 0 to |raws|
      invariant Sending(native, c, req, state.Current(), sent, raws[i..] + later, all)
      invariant |sent| <= takes && !finished
    {
      FirstOfRest(raws, i, later);
      SendingOne(native, c, req, state.Current(), sent, raws[i..] + later, all);
      var lines, terminal := ReadOne(native, c, req, state, raws[i]);
      sent, finished := SendLines(lines, sent, takes, all);
      if finished || terminal {
        return sent, true;
      }
    }
    assert raws[|raws|..] + later == later;
  }

  /** The state between two chunks: the lines of the whole stream are those sent, then what is pending. */
  predicate Streaming(native: bool, c: Codec, req: Request, st: State, sent: seq<string>, buffer: seq<byte>,
    upstream: seq<seq<byte>>, i: nat, all: seq<string>)
    requires i <= |upstream|
  {
    !HasDelimiter(buffer) && Sending(native, c, req, st, sent, Pending(buffer, upstream[i..]), all)
  }

  lemma StreamingStarts(native: bool, c: Codec, req: Request, upstream: seq<seq<byte>>)
    ensures Streaming(native, c, req, INITIAL, [], [], upstream, 0,
                      Sent(native, c, req, INITIAL, EventsOf(Frame(Concat(upstream)).pieces)))
  {
    var all := Sent(native, c, req, INITIAL, EventsOf(Frame(Concat(upstream)).pieces));
    assert [] + Concat(upstream) == Concat(upstream) && upstream[0..] == upstream;
    assert [] + all == all;
  }

  lemma StreamingEnds(native: bool, c: Codec, req: Request, st: State, sent: seq<string>, buffer: seq<byte>,
    upstream: seq<seq<byte>>, all: seq<string>)
    requires Streaming(native, c, req, st, sent, buffer, upstream, |upstream|, all)
    ensures sent == all
  {
    NothingPending(buffer);
    assert upstream[|upstream|..] == [] && sent + [] == sent;
  }

  /** The lines sent depend on the bytes received, not on how they were cut into chunks. */
  method SendLoop(native: bool, c: Codec, req: Request, upstream: seq<seq<byte>>, takes: nat)
    returns (sent: seq<string>)
    ensures sent == Upto(Sent(native, c, req, INITIAL, EventsOf(Frame(Concat(upstream)).pieces)), takes)
  {
    var buffer := new StreamBuffer();
    var state := new AnthropicStreamState();
    sent := [];
    ghost var all := Sent(native, c, req, INITIAL, EventsOf(Frame(Concat(upstream)).pieces));
    StreamingStarts(native, c, req, upstream);
    for i := 0 to |upstream|
      invariant |sent| <= takes
      invariant Streaming(native, c, req, state.Current(), sent, buffer.bytes, upstream, i, all)
    {
      PendingAfter(buffer.bytes, upstream, i);
      buffer.Extend(upstream[i]);
      var raws := buffer.DrainSseEvents();
      var finished: bool;
      sent, finished :=
        SendEvents(native, c, req, state, raws, sent, takes, Pending(buffer.bytes, upstream[i + 1..]), all);
      if finished {
        return;
      }
    }
    StreamingEnds(native, c, req, state.Current(), sent, buffer.bytes, upstream, all);
  }
}
