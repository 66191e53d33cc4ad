/** What a client reads in each chunk of a translated stream. */
module StreamChunks {
  import opened Outcomes
  import opened Payloads
  import opened SseFraming
  import opened StreamTranslation
  import opened StreamMeaning

  // --- the members of a chunk ---

  function MemberOf(k: Chunk, key: string): Option<Json> {
    match k case Data(members) => Get(Obj(members), key) case Done => None
  }

  /** The one choice of a chunk. */
  function ChoiceOf(k: Chunk): Option<Json> {
    match MemberOf(k, "choices")
    case Some(Arr(items)) => if |items| == 1 then Some(items[0]) else None
    case _ => None
  }

  function FinishOf(k: Chunk): Option<Json> {
    GetIn(ChoiceOf(k), "finish_reason")
  }

  /** A chunk of this message and model, or of the request's where the upstream named none. */
  predicate IsLabelled(req: Request, k: Chunk, id: Option<string>, model: Option<string>) {
    && MemberOf(k, "id") == Some(Str(UnwrapOr(id, req.id)))
    && MemberOf(k, "model") == Some(Str(UnwrapOr(model, req.model)))
    && MemberOf(k, "object") == Some(Str("chat.completion.chunk"))
    && MemberOf(k, "created") == Some(Int(req.created))
    && GetIn(ChoiceOf(k), "index") == Some(Int(0))
  }

  predicate IsUnfinished(k: Chunk) {
    FinishOf(k) == Some(Null) && MemberOf(k, "usage") == None
  }

  lemma MembersShow(req: Request, st: State, delta: Json, finish: Json)
    ensures var k := Data(ChunkMembers(req, st, delta, finish));
      && IsLabelled(req, k, st.messageId, st.model)
      && FinishOf(k) == Some(finish) && GetIn(ChoiceOf(k), "delta") == Some(delta) && MemberOf(k, "usage") == None
  {
    var members := ChunkMembers(req, st, delta, finish);
    var choice := map["index" := Int(0), "delta" := delta, "finish_reason" := finish];
    assert members["choices"] == Arr([Obj(choice)]);
    assert choice["delta"] == delta && choice["finish_reason"] == finish && choice["index"] == Int(0);
    LabelMembers(req, st, delta, finish);
  }

  lemma LabelMembers(req: Request, st: State, delta: Json, finish: Json)
    ensures var members := ChunkMembers(req, st, delta, finish);
      && Get(Obj(members), "id") == Some(Str(UnwrapOr(st.messageId, req.id)))
      && Get(Obj(members), "model") == Some(Str(UnwrapOr(st.model, req.model)))
      && Get(Obj(members), "object") == Some(Str("chat.completion.chunk"))
      && Get(Obj(members), "created") == Some(Int(req.created))
      && Get(Obj(members), "usage") == None
  {
    var members := ChunkMembers(req, st, delta, finish);
    assert "usage" !in members;
  }

  // --- what the upstream said ---

  function ReportedStop(c: Codec, e: SseEvent): Option<string> {
    match PayloadOf(c, e)
    case None => None
    case Some(payload) =>
      if KindOf(e.name).MessageDelta? then AsStr(GetIn(Get(payload, "delta"), "stop_reason")) else None
  }

  /** The last stop reason a stream reports, if it reports one. */
  function LastStop(c: Codec, events: seq<SseEvent>): Option<string> {
    if events == [] then None else OrElse(LastStop(c, events[1..]), ReportedStop(c, events[0]))
  }

  /** What the last message_start names its message under a key; it may name nothing. */
  function NameAt(c: Codec, events: seq<SseEvent>, key: string): Option<string> {
    if events == [] then None
    else
      var last := events[|events| - 1];
      if Starts(c, last) then AsStr(GetIn(Get(PayloadOf(c, last).value, "message"), key))
      else NameAt(c, events[..|events| - 1], key)
  }

  /** The event names, as the translation tells them apart. */
  lemma KindsAreNames(name: string)
    ensures KindOf(Some(name)) == MessageStart <==> name == "message_start"
    ensures KindOf(Some(name)) == BlockStart <==> name == "content_block_start"
    ensures KindOf(Some(name)) == BlockDelta <==> name == "content_block_delta"
    ensures KindOf(Some(name)) == MessageDelta <==> name == "message_delta"
    ensures KindOf(Some(name)) == MessageStop <==> name == "message_stop"
    ensures KindOf(None) == OtherKind
  {
    assert |"message_start"| == 13 && |"message_delta"| == 13 && |"message_stop"| == 12;
    assert |"content_block_start"| == 19 && |"content_block_delta"| == 19;
    assert "message_start"[8] == 's' && "message_delta"[8] == 'd';
    assert "content_block_start"[14] == 's' && "content_block_delta"[14] == 'd';
  }

  /** The marker that ends a stream, in either case. */
  lemma DoneIsTheMarker(data: string)
    ensures IsDone(data)
      <==> |data| == 6 && data[0] == '[' && data[1] in {'d', 'D'} && data[2] in {'o', 'O'}
           && data[3] in {'n', 'N'} && data[4] in {'e', 'E'} && data[5] == ']'
  {
    var done := "[done]";
    assert |done| == 6 && done[0] == '[' && done[1] == 'd' && done[2] == 'o' && done[3] == 'n' && done[4] == 'e';
    assert IsDone(data) <==> |data| == 6 && forall i :: 0 <= i < 6 ==> LowerAscii(data[i]) == LowerAscii(done[i]);
    if |data| == 6 {
      LowersTo(data[0], '[', '[');
      LowersTo(data[1], 'd', 'D');
      LowersTo(data[2], 'o', 'O');
      LowersTo(data[3], 'n', 'N');
      LowersTo(data[4], 'e', 'E');
      LowersTo(data[5], ']', ']');
    }
  }

  lemma LowersTo(c: char, lower: char, upper: char)
    requires LowerAscii(lower) == lower
    requires if 'a' <= lower <= 'z' then upper == (lower as int - 32) as char else upper == lower
    ensures LowerAscii(c) == LowerAscii(lower) <==> c == lower || c == upper
  {
  }

  // --- one event ---

  lemma LiveEventNames(c: Codec, req: Request, st: State, e: SseEvent)
    requires !st.doneSent && !IsTerminal(c, e)
    ensures var next := MapEvent(c, req, st, e).st;
      && next.finishReason == OrElse(ReportedStop(c, e), st.finishReason)
      && next.messageId == NextName(c, e, st.messageId, "id")
      && next.model == NextName(c, e, st.model, "model")
  {
  }

  function NextName(c: Codec, e: SseEvent, before: Option<string>, key: string): Option<string> {
    if Starts(c, e) then AsStr(GetIn(Get(PayloadOf(c, e).value, "message"), key)) else before
  }

  lemma LiveChunkShows(c: Codec, req: Request, st: State, e: SseEvent)
    requires !st.doneSent && !IsTerminal(c, e)
    ensures var m := MapEvent(c, req, st, e);
      forall i :: 0 <= i < |m.chunks| ==>
        m.chunks[i].Data? && IsLabelled(req, m.chunks[i], m.st.messageId, m.st.model) && IsUnfinished(m.chunks[i])
  {
    var m := MapEvent(c, req, st, e);
    if Starts(c, e) {
      MembersShow(req, m.st, Obj(map["role" := Str("assistant")]), Null);
    } else if m.chunks != [] {
      MembersShow(req, m.st, Obj(map["content" := Str(TextIn(c, e))]), Null);
    }
  }

  /** The counts of a chunk: prompt, completion, and their 64-bit sum. */
  predicate Counts(k: Chunk, prompt: u64, completion: u64) {
    && GetIn(MemberOf(k, "usage"), "prompt_tokens") == Some(Int(prompt))
    && GetIn(MemberOf(k, "usage"), "completion_tokens") == Some(Int(completion))
    && GetIn(MemberOf(k, "usage"), "total_tokens") == Some(Int((prompt + completion) % U64_RANGE))
  }

  /** The last chunk before the terminal one: it ends its message and carries the counts. */
  predicate IsEnding(k: Chunk, stop: Option<string>, prompt: u64, completion: u64) {
    && FinishOf(k) == Some(Str(
         if stop == Some("max_tokens") then "length" else if stop == Some("tool_use") then "tool_calls" else "stop"))
    && GetIn(ChoiceOf(k), "delta") == Some(Obj(map[]))
    && Counts(k, prompt, completion)
  }

  lemma UsageMembersShow(prompt: u64, completion: u64)
    ensures var usage := Some(Obj(UsageMembers(prompt, completion)));
      && GetIn(usage, "prompt_tokens") == Some(Int(prompt))
      && GetIn(usage, "completion_tokens") == Some(Int(completion))
      && GetIn(usage, "total_tokens") == Some(Int((prompt + completion) % U64_RANGE))
  {
    var usage := UsageMembers(prompt, completion);
    assert usage["prompt_tokens"] == Int(prompt) && usage["completion_tokens"] == Int(completion);
    assert usage["total_tokens"] == Int((prompt + completion) % U64_RANGE);
  }

  lemma FinalMembersShow(req: Request, st: State, finish: Json, usage: Json)
    ensures var k := Data(ChunkMembers(req, st, Obj(map[]), finish)["usage" := usage]);
      && IsLabelled(req, k, st.messageId, st.model) && FinishOf(k) == Some(finish)
      && GetIn(ChoiceOf(k), "delta") == Some(Obj(map[])) && MemberOf(k, "usage") == Some(usage)
  {
    MembersShow(req, st, Obj(map[]), finish);
    AddedUsage(ChunkMembers(req, st, Obj(map[]), finish), usage);
  }

  lemma FinalChunkEnds(req: Request, st: State, stop: Option<string>)
    requires st.finishReason == stop || (stop == None && st.finishReason == Some("end_turn"))
    ensures IsLabelled(req, BuildFinalChunk(req, st), st.messageId, st.model)
    ensures IsEnding(BuildFinalChunk(req, st), stop, UnwrapOr(st.inputTokens, 0), UnwrapOr(st.outputTokens, 0))
  {
    var prompt, completion := UnwrapOr(st.inputTokens, 0), UnwrapOr(st.outputTokens, 0);
    var finish := Str(MapFinishReason(UnwrapOr(st.finishReason, "end_turn")));
    FinalMembersShow(req, st, finish, Obj(UsageMembers(prompt, completion)));
    UsageMembersShow(prompt, completion);
  }

  lemma AddedUsage(base: map<string, Json>, usage: Json)
    ensures var k := Data(base["usage" := usage]);
      && MemberOf(k, "usage") == Some(usage)
      && forall key :: key != "usage" ==> MemberOf(k, key) == MemberOf(Data(base), key)
  {
  }

  /** The terminal event: it sends the ending chunk, if it is a message_stop, and the terminal one. */
  lemma TerminalEnds(c: Codec, req: Request, st: State, e: SseEvent)
    requires !st.doneSent && IsTerminal(c, e)
    ensures var m := MapEvent(c, req, st, e);
      if IsDone(e.data) then m.chunks == [Done]
      else
        && |m.chunks| == 2 && m.chunks[1] == Done
        && IsLabelled(req, m.chunks[0], st.messageId, st.model)
        && IsEnding(m.chunks[0], st.finishReason, UnwrapOr(st.inputTokens, 0), UnwrapOr(st.outputTokens, 0))
  {
    if !IsDone(e.data) {
      FinalChunkEnds(req, MapStop(req, st).st, st.finishReason);
    }
  }

  // --- whole streams ---

  /** A stream that ends its message with this stop reason and these counts, after chunks that do not. */
  predicate EndsWith(chunks: seq<Chunk>, stop: Option<string>, prompt: u64, completion: u64) {
    var n := |chunks|;
    && n >= 2 && chunks[n - 1] == Done && IsEnding(chunks[n - 2], stop, prompt, completion)
    && forall i :: 0 <= i < n - 2 ==> IsUnfinished(chunks[i])
  }

  predicate NeverEnds(chunks: seq<Chunk>) {
    forall i :: 0 <= i < |chunks| ==> chunks[i].Done? || IsUnfinished(chunks[i])
  }

  lemma EndsAfter(a: seq<Chunk>, b: seq<Chunk>, stop: Option<string>, prompt: u64, completion: u64)
    requires forall i :: 0 <= i < |a| ==> IsUnfinished(a[i])
    ensures EndsWith(b, stop, prompt, completion) ==> EndsWith(a + b, stop, prompt, completion)
    ensures NeverEnds(b) ==> NeverEnds(a + b)
  {
    var all := a + b;
    assert forall i :: 0 <= i < |b| ==> all[|a| + i] == b[i];
  }

  lemma LastOnTop(c: Codec, e: SseEvent, rest: seq<SseEvent>, st: State)
    ensures OrElse(LastStop(c, [e] + rest), st.finishReason)
         == OrElse(LastStop(c, rest), OrElse(ReportedStop(c, e), st.finishReason))
    ensures OrElse(LastInput(c, [e] + rest), st.inputTokens)
         == OrElse(LastInput(c, rest), OrElse(ReportedAtStart(c, e, "input_tokens"), st.inputTokens))
    ensures OrElse(LastOutput(c, [e] + rest), st.outputTokens)
         == OrElse(LastOutput(c, rest), OrElse(ReportedOutput(c, e), st.outputTokens))
  {
    assert ([e] + rest)[0] == e && ([e] + rest)[1..] == rest;
  }

  lemma {:induction false} EndingFrom(c: Codec, req: Request, st: State, events: seq<SseEvent>)
    requires !st.doneSent
    ensures var chunks, live := Translated(c, req, st, events), Live(c, events);
      if EndsInStop(c, events)
      then EndsWith(chunks, OrElse(LastStop(c, live), st.finishReason),
                    UnwrapOr(OrElse(LastInput(c, live), st.inputTokens), 0),
                    UnwrapOr(OrElse(LastOutput(c, live), st.outputTokens), 0))
      else NeverEnds(chunks)
    decreases |events|
  {
    if events == [] {
    } else if IsTerminal(c, events[0]) {
      TerminalEnds(c, req, st, events[0]);
      TerminalEvent(c, req, st, events[0]);
      var m := MapEvent(c, req, st, events[0]);
      assert m.chunks + [] == m.chunks;
    } else {
      var e, m := events[0], MapEvent(c, req, st, events[0]);
      LiveFirst(c, events);
      LiveEvent(c, req, st, e);
      LiveEventNames(c, req, st, e);
      LiveChunkShows(c, req, st, e);
      EndingFrom(c, req, m.st, events[1..]);
      LastOnTop(c, e, Live(c, events[1..]), st);
      var rest := Live(c, events[1..]);
      EndsAfter(m.chunks, Translated(c, req, m.st, events[1..]), OrElse(LastStop(c, rest), m.st.finishReason),
                UnwrapOr(OrElse(LastInput(c, rest), m.st.inputTokens), 0),
                UnwrapOr(OrElse(LastOutput(c, rest), m.st.outputTokens), 0));
    }
  }

  lemma EndingIs(c: Codec, req: Request, events: seq<SseEvent>)
    ensures var chunks, live := Translated(c, req, INITIAL, events), Live(c, events);
      if EndsInStop(c, events)
      then EndsWith(chunks, LastStop(c, live), UnwrapOr(LastInput(c, live), 0), UnwrapOr(LastOutput(c, live), 0))
      else NeverEnds(chunks)
  {
    EndingFrom(c, req, INITIAL, events);
  }

  lemma EndingReads(chunks: seq<Chunk>, stop: Option<string>, prompt: u64, completion: u64)
    requires EndsWith(chunks, stop, prompt, completion)
    ensures |chunks| >= 2 && chunks[|chunks| - 1] == Done
    ensures var finish := FinishOf(chunks[|chunks| - 2]);
      && (finish == Some(Str("length")) <==> stop == Some("max_tokens"))
      && (finish == Some(Str("tool_calls")) <==> stop == Some("tool_use"))
      && (finish == Some(Str("stop")) <==> stop != Some("max_tokens") && stop != Some("tool_use"))
  {
    assert |"length"| == 6 && |"tool_calls"| == 10 && |"stop"| == 4;
    assert |"max_tokens"| == 10 && |"tool_use"| == 8;
  }

  /**
   * A stream ended by message_stop says why in its last chunk before the terminal
   * one: `length` for a last reported max_tokens, `tool_calls` for tool_use, and
   * `stop` for anything else or nothing.
   */
  lemma FinishReasonIsTheLastReported(c: Codec, req: Request, events: seq<SseEvent>)
    requires EndsInStop(c, events)
    ensures var chunks, stop := Translated(c, req, INITIAL, events), LastStop(c, Live(c, events));
      && |chunks| >= 2 && chunks[|chunks| - 1] == Done
      && var finish := FinishOf(chunks[|chunks| - 2]);
         && (finish == Some(Str("length")) <==> stop == Some("max_tokens"))
         && (finish == Some(Str("tool_calls")) <==> stop == Some("tool_use"))
         && (finish == Some(Str("stop")) <==> stop != Some("max_tokens") && stop != Some("tool_use"))
  {
    var live := Live(c, events);
    EndingIs(c, req, events);
    EndingReads(Translated(c, req, INITIAL, events), LastStop(c, live), UnwrapOr(LastInput(c, live), 0),
                UnwrapOr(LastOutput(c, live), 0));
  }

  lemma CountsRead(chunks: seq<Chunk>, stop: Option<string>, prompt: u64, completion: u64)
    requires EndsWith(chunks, stop, prompt, completion)
    ensures |chunks| >= 2 && Counts(chunks[|chunks| - 2], prompt, completion)
    ensures GetIn(ChoiceOf(chunks[|chunks| - 2]), "delta") == Some(Obj(map[]))
  {
  }

  /** That chunk carries the last counts, zero for none, and no text. */
  lemma LastChunkCarriesTheCounts(c: Codec, req: Request, events: seq<SseEvent>)
    requires EndsInStop(c, events)
    ensures var chunks, live := Translated(c, req, INITIAL, events), Live(c, events);
      && |chunks| >= 2
      && Counts(chunks[|chunks| - 2], UnwrapOr(LastInput(c, live), 0), UnwrapOr(LastOutput(c, live), 0))
      && GetIn(ChoiceOf(chunks[|chunks| - 2]), "delta") == Some(Obj(map[]))
  {
    var live := Live(c, events);
    EndingIs(c, req, events);
    CountsRead(Translated(c, req, INITIAL, events), LastStop(c, live), UnwrapOr(LastInput(c, live), 0),
               UnwrapOr(LastOutput(c, live), 0));
  }

  /** No other chunk has a finish reason or counts. */
  lemma OnlyTheLastChunkFinishes(c: Codec, req: Request, events: seq<SseEvent>, i: nat)
    requires var chunks := Translated(c, req, INITIAL, events);
      i < if EndsInStop(c, events) then |chunks| - 2 else |chunks|
    ensures var k := Translated(c, req, INITIAL, events)[i];
      k.Done? || (FinishOf(k) == Some(Null) && MemberOf(k, "usage") == None)
  {
    EndingIs(c, req, events);
  }

  // --- whose message each chunk is ---

  function StateAfter(c: Codec, req: Request, st: State, events: seq<SseEvent>): State
    decreases |events|
  {
    if events == [] || st.doneSent then st else StateAfter(c, req, MapEvent(c, req, st, events[0]).st, events[1..])
  }

  /** What one more event adds to the chunks, and makes of the state. */
  predicate Adds(c: Codec, req: Request, st: State, events: seq<SseEvent>, e: SseEvent, before: State) {
    if before.doneSent
    then
      && StateAfter(c, req, st, events + [e]) == before
      && Translated(c, req, st, events + [e]) == Translated(c, req, st, events)
    else
      && StateAfter(c, req, st, events + [e]) == MapEvent(c, req, before, e).st
      && Translated(c, req, st, events + [e]) == Translated(c, req, st, events) + MapEvent(c, req, before, e).chunks
  }

  lemma {:induction false} OneMoreEvent(c: Codec, req: Request, st: State, events: seq<SseEvent>, e: SseEvent)
    requires !st.doneSent
    ensures Adds(c, req, st, events, e, StateAfter(c, req, st, events))
    decreases |events|
  {
    if events == [] {
      assert [] + [e] == [e];
      OneEventAlone(c, req, st, e);
    } else {
      var m := MapEvent(c, req, st, events[0]);
      assert events == [events[0]] + events[1..];
      if !m.st.doneSent {
        OneMoreEvent(c, req, m.st, events[1..], e);
      }
      AddsBehind(c, req, st, events[0], events[1..], e);
    }
  }

  lemma AddsBehind(c: Codec, req: Request, st: State, first: SseEvent, rest: seq<SseEvent>, e: SseEvent)
    requires !st.doneSent
    requires var next := MapEvent(c, req, st, first).st;
      next.doneSent || Adds(c, req, next, rest, e, StateAfter(c, req, next, rest))
    ensures Adds(c, req, st, [first] + rest, e, StateAfter(c, req, st, [first] + rest))
  {
    var m, more := MapEvent(c, req, st, first), [first] + rest + [e];
    assert more[0] == first && more[1..] == rest + [e] && ([first] + rest)[1..] == rest;
    if !m.st.doneSent {
      var before := StateAfter(c, req, m.st, rest);
      Regrouped(m.chunks, Translated(c, req, m.st, rest), MapEvent(c, req, before, e).chunks);
    }
  }

  lemma Regrouped(a: seq<Chunk>, b: seq<Chunk>, d: seq<Chunk>)
    ensures a + (b + d) == a + b + d
  {
  }

  lemma OneEventAlone(c: Codec, req: Request, st: State, e: SseEvent)
    requires !st.doneSent
    ensures StateAfter(c, req, st, [e]) == MapEvent(c, req, st, e).st
    ensures Translated(c, req, st, [e]) == [] + MapEvent(c, req, st, e).chunks
  {
    var m := MapEvent(c, req, st, e);
    assert [e][1..] == [] && m.chunks + [] == m.chunks == [] + m.chunks;
  }

  lemma NameOfMore(c: Codec, events: seq<SseEvent>, e: SseEvent, key: string)
    ensures NameAt(c, events + [e], key) == NextName(c, e, NameAt(c, events, key), key)
  {
    assert (events + [e])[..|events|] == events;
  }

  lemma {:induction false} NamesAreKept(c: Codec, req: Request, events: seq<SseEvent>)
    ensures var st := StateAfter(c, req, INITIAL, events);
      !st.doneSent ==> st.messageId == NameAt(c, events, "id") && st.model == NameAt(c, events, "model")
    decreases |events|
  {
    if events != [] {
      var n := |events| - 1;
      var front, e := events[..n], events[n];
      assert events == front + [e];
      NamesAreKept(c, req, front);
      OneMoreEvent(c, req, INITIAL, front, e);
      NameOfMore(c, front, e, "id");
      NameOfMore(c, front, e, "model");
      var before := StateAfter(c, req, INITIAL, front);
      if !before.doneSent {
        if IsTerminal(c, e) {
          TerminalEvent(c, req, before, e);
        } else {
          LiveEventNames(c, req, before, e);
        }
      }
    }
  }

  /** The chunks of one event are labelled as of that event. */
  lemma ChunksOfOne(c: Codec, req: Request, st: State, e: SseEvent)
    requires !st.doneSent
    ensures var m := MapEvent(c, req, st, e);
      var id, model := NextName(c, e, st.messageId, "id"), NextName(c, e, st.model, "model");
      forall i :: 0 <= i < |m.chunks| ==> m.chunks[i].Done? || IsLabelled(req, m.chunks[i], id, model)
  {
    if IsTerminal(c, e) {
      TerminalEnds(c, req, st, e);
    } else {
      LiveEventNames(c, req, st, e);
      LiveChunkShows(c, req, st, e);
    }
  }

  /**
   * Every chunk an event adds names the message and the model of the last
   * message_start up to that event, or the request's own where that names none,
   * and the time of the request.
   */
  lemma ChunksNameTheirMessage(c: Codec, req: Request, events: seq<SseEvent>, j: nat)
    requires j < |events|
    ensures var before, after := Translated(c, req, INITIAL, events[..j]), Translated(c, req, INITIAL, events[..j + 1]);
      var id, model := NameAt(c, events[..j + 1], "id"), NameAt(c, events[..j + 1], "model");
      && before <= after
      && forall i :: |before| <= i < |after| ==>
           after[i].Done?
           || (&& MemberOf(after[i], "id") == Some(Str(if id.Some? then id.value else req.id))
               && MemberOf(after[i], "model") == Some(Str(if model.Some? then model.value else req.model))
               && MemberOf(after[i], "object") == Some(Str("chat.completion.chunk"))
               && MemberOf(after[i], "created") == Some(Int(req.created)))
  {
    var front, e := events[..j], events[j];
    assert events[..j + 1] == front + [e];
    NamesAreKept(c, req, front);
    OneMoreEvent(c, req, INITIAL, front, e);
    NameOfMore(c, front, e, "id");
    NameOfMore(c, front, e, "model");
    var before := StateAfter(c, req, INITIAL, front);
    if !before.doneSent {
      ChunksOfOne(c, req, before, e);
    }
  }
}
