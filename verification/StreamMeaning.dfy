/** What the translation of a stream keeps. */
module StreamMeaning {
  import opened Outcomes
  import opened Text
  import opened Utf8
  import opened Payloads
  import opened SseFraming
  import opened StreamTranslation
  import opened StreamUsage

  // --- what a client sees in a chunk ---

  function DeltaIn(k: Chunk): Option<Json> {
    match k
    case Done => None
    case Data(members) =>
      match Get(Obj(members), "choices")
      case Some(Arr(items)) => if |items| > 0 then Get(items[0], "delta") else None
      case _ => None
  }

  function ContentIn(k: Chunk): string {
    UnwrapOr(AsStr(GetIn(DeltaIn(k), "content")), "")
  }

  predicate HasRole(k: Chunk) {
    GetIn(DeltaIn(k), "role").Some?
  }

  function UsageIn(k: Chunk): Option<Usage> {
    match k case Data(members) => UsageFromCompletion(Obj(members)) case Done => None
  }

  function ContentOf(chunks: seq<Chunk>): string {
    if chunks == [] then "" else ContentIn(chunks[0]) + ContentOf(chunks[1..])
  }

  function RolesIn(chunks: seq<Chunk>): nat {
    if chunks == [] then 0 else (if HasRole(chunks[0]) then 1 else 0) + RolesIn(chunks[1..])
  }

  /** The usage the proxy settles on: the first one reported. */
  function FirstUsage(chunks: seq<Chunk>): Option<Usage> {
    if chunks == [] then None
    else if UsageIn(chunks[0]).Some? then UsageIn(chunks[0])
    else FirstUsage(chunks[1..])
  }

  // --- what the upstream said ---

  function PayloadOf(c: Codec, e: SseEvent): Option<Json> {
    if IsDone(e.data) then None else c.parse(e.data)
  }

  predicate IsStop(c: Codec, e: SseEvent) {
    KindOf(e.name) == MessageStop && PayloadOf(c, e).Some?
  }

  predicate IsTerminal(c: Codec, e: SseEvent) {
    IsDone(e.data) || IsStop(c, e)
  }

  function FirstTerminal(c: Codec, events: seq<SseEvent>): (n: nat)
    ensures n <= |events|
    ensures n < |events| ==> IsTerminal(c, events[n])
    ensures forall i :: 0 <= i < n ==> !IsTerminal(c, events[i])
  {
    if events == [] || IsTerminal(c, events[0]) then 0 else 1 + FirstTerminal(c, events[1..])
  }

  /** The events before the terminal one. */
  function Live(c: Codec, events: seq<SseEvent>): seq<SseEvent> {
    events[..FirstTerminal(c, events)]
  }

  function TextIn(c: Codec, e: SseEvent): string {
    match PayloadOf(c, e)
    case None => ""
    case Some(payload) =>
      match KindOf(e.name)
      case BlockStart => UnwrapOr(AsStr(GetIn(Get(payload, "content_block"), "text")), "")
      case BlockDelta => UnwrapOr(AsStr(GetIn(Get(payload, "delta"), "text")), "")
      case _ => ""
  }

  function TextOfAll(c: Codec, events: seq<SseEvent>): string {
    if events == [] then "" else TextIn(c, events[0]) + TextOfAll(c, events[1..])
  }

  predicate Starts(c: Codec, e: SseEvent) {
    KindOf(e.name) == MessageStart && PayloadOf(c, e).Some?
  }

  predicate AnyStarts(c: Codec, events: seq<SseEvent>) {
    exists i :: 0 <= i < |events| && Starts(c, events[i])
  }

  /** A count that a message_start reports under a key. */
  function ReportedAtStart(c: Codec, e: SseEvent, key: string): Option<u64> {
    if !Starts(c, e) then None
    else AsU64(GetIn(GetIn(Get(PayloadOf(c, e).value, "message"), "usage"), key))
  }

  function ReportedOutput(c: Codec, e: SseEvent): Option<u64> {
    match PayloadOf(c, e)
    case None => None
    case Some(payload) =>
      match KindOf(e.name)
      case MessageStart => AsU64(GetIn(GetIn(Get(payload, "message"), "usage"), "output_tokens"))
      case MessageDelta => AsU64(GetIn(Get(payload, "usage"), "output_tokens"))
      case _ => None
  }

  /** The last value a stream reports, if it reports one. */
  function LastAtStart(c: Codec, events: seq<SseEvent>, key: string): Option<u64> {
    if events == [] then None else OrElse(LastAtStart(c, events[1..], key), ReportedAtStart(c, events[0], key))
  }

  function LastInput(c: Codec, events: seq<SseEvent>): Option<u64> {
    LastAtStart(c, events, "input_tokens")
  }

  function LastOutput(c: Codec, events: seq<SseEvent>): Option<u64> {
    if events == [] then None else OrElse(LastOutput(c, events[1..]), ReportedOutput(c, events[0]))
  }

  // --- the built chunks ---

  lemma DeltaOfBuilt(req: Request, st: State, delta: Json, finish: Json)
    ensures var members := ChunkMembers(req, st, delta, finish);
      DeltaIn(Data(members)) == Some(delta) && UsageIn(Data(members)) == None
  {
    var members := ChunkMembers(req, st, delta, finish);
    var choice := map["index" := Int(0), "delta" := delta, "finish_reason" := finish];
    assert members["choices"] == Arr([Obj(choice)]);
    assert choice["delta"] == delta;
    assert "usage" !in members;
  }

  lemma RoleChunkShows(req: Request, st: State)
    ensures var k := BuildRoleChunk(req, st);
      HasRole(k) && ContentIn(k) == "" && UsageIn(k) == None
  {
    DeltaOfBuilt(req, st, Obj(map["role" := Str("assistant")]), Null);
  }

  lemma DeltaChunkShows(req: Request, st: State, text: string)
    ensures var k := BuildDeltaChunk(req, st, text);
      !HasRole(k) && ContentIn(k) == text && UsageIn(k) == None
  {
    DeltaOfBuilt(req, st, Obj(map["content" := Str(text)]), Null);
  }

  lemma UsageOfMembers(prompt: u64, completion: u64)
    ensures var usage := Some(Obj(UsageMembers(prompt, completion)));
      && AsU64(GetIn(usage, "prompt_tokens")) == Some(prompt)
      && AsU64(GetIn(usage, "completion_tokens")) == Some(completion)
      && GetIn(usage, "prompt_tokens_details") == None
  {
    var m := UsageMembers(prompt, completion);
    assert m["prompt_tokens"] == Int(prompt) && m["completion_tokens"] == Int(completion);
    assert "prompt_tokens_details" !in m;
  }

  lemma FinalChunkShows(req: Request, st: State)
    ensures var k := BuildFinalChunk(req, st);
      && !HasRole(k) && ContentIn(k) == ""
      && UsageIn(k) == Some(Usage(UnwrapOr(st.inputTokens, 0), UnwrapOr(st.outputTokens, 0), 0, 0))
  {
    var prompt, completion := UnwrapOr(st.inputTokens, 0), UnwrapOr(st.outputTokens, 0);
    var finish := Str(MapFinishReason(UnwrapOr(st.finishReason, "end_turn")));
    var base, usage := ChunkMembers(req, st, Obj(map[]), finish), Obj(UsageMembers(prompt, completion));
    DeltaOfBuilt(req, st, Obj(map[]), finish);
    var members := base["usage" := usage];
    assert members["choices"] == base["choices"] && members["usage"] == usage;
    UsageOfMembers(prompt, completion);
  }

  // --- one event ---

  // Before the terminal event at most one chunk comes out, and it carries no usage.
  lemma LiveEvent(c: Codec, req: Request, st: State, e: SseEvent)
    requires !st.doneSent && !IsTerminal(c, e)
    ensures var m := MapEvent(c, req, st, e);
      && !m.st.doneSent && |m.chunks| <= 1
      && m.st.roleSent == (st.roleSent || Starts(c, e))
      && m.st.inputTokens == OrElse(ReportedAtStart(c, e, "input_tokens"), st.inputTokens)
      && m.st.outputTokens == OrElse(ReportedOutput(c, e), st.outputTokens)
  {
  }

  lemma LiveChunk(c: Codec, req: Request, st: State, e: SseEvent)
    requires !st.doneSent && !IsTerminal(c, e)
    ensures var chunks := MapEvent(c, req, st, e).chunks;
      && (chunks == [] ==> TextIn(c, e) == "" && (Starts(c, e) ==> st.roleSent))
      && (chunks != [] ==> chunks[0].Data? && UsageIn(chunks[0]) == None && ContentIn(chunks[0]) == TextIn(c, e))
      && (chunks != [] ==> (HasRole(chunks[0]) <==> Starts(c, e) && !st.roleSent))
  {
    var m := MapEvent(c, req, st, e);
    if Starts(c, e) {
      RoleChunkShows(req, m.st);
    } else if m.chunks != [] {
      DeltaChunkShows(req, m.st, TextIn(c, e));
    }
  }

  lemma TerminalEvent(c: Codec, req: Request, st: State, e: SseEvent)
    requires !st.doneSent && IsTerminal(c, e)
    ensures var m := MapEvent(c, req, st, e);
      && m.st.doneSent
      && if IsDone(e.data) then m.chunks == [Done]
         else exists next: State :: m.chunks == [BuildFinalChunk(req, next), Done]
                                    && next.inputTokens == st.inputTokens && next.outputTokens == st.outputTokens
  {
    if !IsDone(e.data) {
      var next := MapEvent(c, req, st, e).st;
      assert MapEvent(c, req, st, e).chunks == [BuildFinalChunk(req, next), Done];
    }
  }

  // --- whole streams ---

  lemma LiveFirst(c: Codec, events: seq<SseEvent>)
    requires events != [] && !IsTerminal(c, events[0])
    ensures FirstTerminal(c, events) == 1 + FirstTerminal(c, events[1..])
    ensures Live(c, events) == [events[0]] + Live(c, events[1..])
    ensures Live(c, events) != [] && Live(c, events)[0] == events[0] && Live(c, events)[1..] == Live(c, events[1..])
  {
  }

  predicate EndsInStop(c: Codec, events: seq<SseEvent>) {
    var n := FirstTerminal(c, events);
    n < |events| && !IsDone(events[n].data)
  }

  predicate EndsAtAll(c: Codec, events: seq<SseEvent>) {
    FirstTerminal(c, events) < |events|
  }

  /** The terminal chunk is the last one sent, if any is. */
  predicate DoneIsLast(chunks: seq<Chunk>) {
    forall i :: 0 <= i < |chunks| && chunks[i].Done? ==> i == |chunks| - 1
  }

  predicate EndsDone(chunks: seq<Chunk>) {
    chunks != [] && chunks[|chunks| - 1].Done?
  }

  lemma PrependKeepsDone(a: seq<Chunk>, b: seq<Chunk>)
    requires |a| <= 1 && (a != [] ==> a[0].Data?) && DoneIsLast(b)
    ensures DoneIsLast(a + b) && (EndsDone(a + b) <==> EndsDone(b))
  {
  }

  /** The terminal chunk is sent at most once, only last, and exactly when the upstream ends. */
  lemma {:induction false} DoneComesOnceAndLast(c: Codec, req: Request, st: State, events: seq<SseEvent>)
    requires !st.doneSent
    ensures DoneIsLast(Translated(c, req, st, events))
    ensures EndsDone(Translated(c, req, st, events)) <==> EndsAtAll(c, events)
    decreases |events|
  {
    if events != [] {
      var m := MapEvent(c, req, st, events[0]);
      if IsTerminal(c, events[0]) {
        TerminalEvent(c, req, st, events[0]);
        assert m.chunks + [] == m.chunks;
      } else {
        LiveEvent(c, req, st, events[0]);
        LiveChunk(c, req, st, events[0]);
        LiveFirst(c, events);
        DoneComesOnceAndLast(c, req, m.st, events[1..]);
        PrependKeepsDone(m.chunks, Translated(c, req, m.st, events[1..]));
      }
    }
  }

  lemma ObservePrepended(a: seq<Chunk>, b: seq<Chunk>)
    requires |a| <= 1
    ensures a == [] ==> ContentOf(a + b) == ContentOf(b) && RolesIn(a + b) == RolesIn(b) && FirstUsage(a + b) == FirstUsage(b)
    ensures a != [] ==> ContentOf(a + b) == ContentIn(a[0]) + ContentOf(b)
    ensures a != [] ==> RolesIn(a + b) == (if HasRole(a[0]) then 1 else 0) + RolesIn(b)
    ensures a != [] && UsageIn(a[0]) == None ==> FirstUsage(a + b) == FirstUsage(b)
  {
    if a == [] {
      assert a + b == b;
    } else {
      assert (a + b)[0] == a[0] && (a + b)[1..] == b;
    }
  }

  lemma ObserveEnd(req: Request, st: State)
    ensures ContentOf([Done]) == "" && RolesIn([Done]) == 0 && FirstUsage([Done]) == None
    ensures var chunks := [BuildFinalChunk(req, st), Done];
      && ContentOf(chunks) == "" && RolesIn(chunks) == 0
      && FirstUsage(chunks) == Some(Usage(UnwrapOr(st.inputTokens, 0), UnwrapOr(st.outputTokens, 0), 0, 0))
  {
    var chunks := [BuildFinalChunk(req, st), Done];
    FinalChunkShows(req, st);
    assert chunks[1..] == [Done] && [Done][1..] == [];
    assert ContentOf([]) == "" && RolesIn([]) == 0;
  }

  /** What a client and the proxy read off the end of a stream. */
  predicate ReadsAsEnd(chunks: seq<Chunk>, usage: Option<Usage>) {
    ContentOf(chunks) == "" && RolesIn(chunks) == 0 && FirstUsage(chunks) == usage
  }

  function UsageAtStop(input: Option<u64>, output: Option<u64>): Usage {
    Usage(UnwrapOr(input, 0), UnwrapOr(output, 0), 0, 0)
  }

  lemma TerminalReads(c: Codec, req: Request, st: State, events: seq<SseEvent>)
    requires !st.doneSent && events != [] && IsTerminal(c, events[0])
    ensures Live(c, events) == []
    ensures ReadsAsEnd(Translated(c, req, st, events),
      if EndsInStop(c, events) then Some(UsageAtStop(st.inputTokens, st.outputTokens)) else None)
  {
    var m := MapEvent(c, req, st, events[0]);
    TerminalEvent(c, req, st, events[0]);
    assert m.chunks + [] == m.chunks;
    ObserveEnd(req, st);
    if !IsDone(events[0].data) {
      var next: State :| m.chunks == [BuildFinalChunk(req, next), Done]
        && next.inputTokens == st.inputTokens && next.outputTokens == st.outputTokens;
      ObserveEnd(req, next);
    }
  }

  /** The deltas spell the upstream text before the terminal event. */
  lemma {:induction false} ContentIsTheUpstreamText(c: Codec, req: Request, st: State, events: seq<SseEvent>)
    requires !st.doneSent
    ensures ContentOf(Translated(c, req, st, events)) == TextOfAll(c, Live(c, events))
    decreases |events|
  {
    if events != [] {
      var m := MapEvent(c, req, st, events[0]);
      if IsTerminal(c, events[0]) {
        TerminalReads(c, req, st, events);
      } else {
        LiveEvent(c, req, st, events[0]);
        LiveChunk(c, req, st, events[0]);
        LiveFirst(c, events);
        ContentIsTheUpstreamText(c, req, m.st, events[1..]);
        ObservePrepended(m.chunks, Translated(c, req, m.st, events[1..]));
      }
    }
  }

  lemma AnyStartsFirst(c: Codec, e: SseEvent, rest: seq<SseEvent>)
    ensures AnyStarts(c, [e] + rest) <==> Starts(c, e) || AnyStarts(c, rest)
  {
    var all := [e] + rest;
    assert Starts(c, e) ==> Starts(c, all[0]);
    assert forall i :: 0 <= i < |rest| ==> all[i + 1] == rest[i];
    if AnyStarts(c, rest) {
      var i :| 0 <= i < |rest| && Starts(c, rest[i]);
      assert Starts(c, all[i + 1]);
    }
  }

  /** The role is announced once when a message starts, and never otherwise. */
  lemma {:induction false} RoleComesOnce(c: Codec, req: Request, st: State, events: seq<SseEvent>)
    requires !st.doneSent
    ensures RolesIn(Translated(c, req, st, events)) == if !st.roleSent && AnyStarts(c, Live(c, events)) then 1 else 0
    decreases |events|
  {
    if events != [] {
      var m := MapEvent(c, req, st, events[0]);
      if IsTerminal(c, events[0]) {
        TerminalReads(c, req, st, events);
      } else {
        LiveEvent(c, req, st, events[0]);
        LiveChunk(c, req, st, events[0]);
        LiveFirst(c, events);
        AnyStartsFirst(c, events[0], Live(c, events[1..]));
        RoleComesOnce(c, req, m.st, events[1..]);
        ObservePrepended(m.chunks, Translated(c, req, m.st, events[1..]));
      }
    }
  }

  /** What a stream is settled on when these counts are known before it: the last ones it reports. */
  function UsageOnTop(c: Codec, events: seq<SseEvent>, input: Option<u64>, output: Option<u64>): Option<Usage> {
    if EndsInStop(c, events) then
      Some(UsageAtStop(OrElse(LastInput(c, Live(c, events)), input), OrElse(LastOutput(c, Live(c, events)), output)))
    else None
  }

  lemma UsageOnTopNext(c: Codec, events: seq<SseEvent>, input: Option<u64>, output: Option<u64>)
    requires events != [] && !IsTerminal(c, events[0])
    ensures UsageOnTop(c, events, input, output)
      == UsageOnTop(c, events[1..],
                    OrElse(ReportedAtStart(c, events[0], "input_tokens"), input),
                    OrElse(ReportedOutput(c, events[0]), output))
  {
    LiveFirst(c, events);
  }

  lemma {:induction false} UsageFrom(c: Codec, req: Request, st: State, events: seq<SseEvent>)
    requires !st.doneSent
    ensures FirstUsage(Translated(c, req, st, events)) == UsageOnTop(c, events, st.inputTokens, st.outputTokens)
    decreases |events|
  {
    if events == [] {
    } else if IsTerminal(c, events[0]) {
      TerminalReads(c, req, st, events);
    } else {
      var m := MapEvent(c, req, st, events[0]);
      LiveEvent(c, req, st, events[0]);
      LiveChunk(c, req, st, events[0]);
      UsageOnTopNext(c, events, st.inputTokens, st.outputTokens);
      UsageFrom(c, req, m.st, events[1..]);
      ObservePrepended(m.chunks, Translated(c, req, m.st, events[1..]));
    }
  }

  /**
   * The tokens read off a translated stream are the last ones the upstream
   * reported, zero where it reported none; there are any exactly when a
   * message_stop ended the stream.
   */
  lemma UsageIsTheLastReported(c: Codec, req: Request, events: seq<SseEvent>)
    ensures var live := Live(c, events);
      FirstUsage(Translated(c, req, INITIAL, events))
        == if EndsInStop(c, events)
           then Some(UsageAtStop(LastInput(c, live), LastOutput(c, live)))
           else None
  {
    UsageFrom(c, req, INITIAL, events);
  }

  // --- from chunks to lines ---

  predicate IsWritableChunk(c: Codec, k: Chunk) {
    k.Data? ==> IsWritable(c, Obj(k.members))
  }

  predicate AreWritable(c: Codec, chunks: seq<Chunk>) {
    forall i :: 0 <= i < |chunks| ==> IsWritableChunk(c, chunks[i])
  }

  /** A chunk nests its delta three levels down. */
  lemma BuiltIsWritable(c: Codec, req: Request, st: State, delta: Json, finish: Json)
    requires IsWritableWithin(c, delta, MAX_NESTING - 3) && IsWritableWithin(c, finish, MAX_NESTING - 3)
    ensures IsWritable(c, Obj(ChunkMembers(req, st, delta, finish)))
  {
    var choice := map["index" := Int(0), "delta" := delta, "finish_reason" := finish];
    assert IsWritableWithin(c, Obj(choice), MAX_NESTING - 2);
    assert IsWritableWithin(c, Arr([Obj(choice)]), MAX_NESTING - 1);
  }

  lemma TextIsWritable(c: Codec, key: string, text: string, levels: nat)
    requires levels > 0
    ensures IsWritableWithin(c, Obj(map[key := Str(text)]), levels) && IsWritableWithin(c, Obj(map[]), levels)
    ensures IsWritableWithin(c, Null, levels)
  {
  }

  lemma FinalIsWritable(c: Codec, req: Request, st: State)
    ensures IsWritableChunk(c, BuildFinalChunk(req, st))
  {
    var prompt, completion := UnwrapOr(st.inputTokens, 0), UnwrapOr(st.outputTokens, 0);
    var finish := Str(MapFinishReason(UnwrapOr(st.finishReason, "end_turn")));
    TextIsWritable(c, "", "", MAX_NESTING - 3);
    BuiltIsWritable(c, req, st, Obj(map[]), finish);
    assert IsWritableWithin(c, Obj(UsageMembers(prompt, completion)), MAX_NESTING - 1);
  }

  lemma MappedIsWritable(c: Codec, req: Request, st: State, e: SseEvent)
    requires !st.doneSent
    ensures AreWritable(c, MapEvent(c, req, st, e).chunks)
  {
    var m := MapEvent(c, req, st, e);
    if IsTerminal(c, e) {
      FinalIsWritable(c, req, m.st);
    } else if m.chunks != [] {
      LiveEvent(c, req, st, e);
      TextIsWritable(c, "role", "assistant", MAX_NESTING - 3);
      BuiltIsWritable(c, req, m.st, Obj(map["role" := Str("assistant")]), Null);
      TextIsWritable(c, "content", TextIn(c, e), MAX_NESTING - 3);
      BuiltIsWritable(c, req, m.st, Obj(map["content" := Str(TextIn(c, e))]), Null);
    }
  }

  /** Every chunk built can be written. */
  lemma {:induction false} TranslatedIsWritable(c: Codec, req: Request, st: State, events: seq<SseEvent>)
    requires !st.doneSent
    ensures AreWritable(c, Translated(c, req, st, events))
    decreases |events|
  {
    if events != [] {
      var m := MapEvent(c, req, st, events[0]);
      MappedIsWritable(c, req, st, events[0]);
      if !m.st.doneSent {
        TranslatedIsWritable(c, req, m.st, events[1..]);
      }
    }
  }

  lemma DataLineReads(c: Codec, members: map<string, Json>)
    requires Lawful(c) && IsWritable(c, Obj(members))
    ensures ReadLine(c, Line(c, Data(members))) ==
      match UsageFromCompletion(Obj(members)) case Some(u) => Found(u) case None => Skip
  {
    var text := c.render(Obj(members));
    assert ReadsBack(c, members);
    var line := "data: " + text + "\n\n";
    assert "data:" <= line && line[5..] == " " + text + "\n\n";
    TrimRemovesSurroundings(" ", text, "\n\n");
    assert LowerAscii(text[0]) != LowerAscii("[DONE]"[0]);
  }

  lemma DoneLineReads(c: Codec)
    ensures ReadLine(c, Line(c, Done)) == Skip
  {
    var line := "data: [DONE]\n\n";
    assert "data:" <= line && line[5..] == " " + "[DONE]" + "\n\n";
    TrimRemovesSurroundings(" ", "[DONE]", "\n\n");
  }

  lemma {:induction false} LinesReadAsChunks(c: Codec, chunks: seq<Chunk>)
    requires Lawful(c) && AreWritable(c, chunks)
    ensures UsageFromCompletionLines(c, LinesOf(c, chunks)) == FirstUsage(chunks)
  {
    if chunks != [] {
      assert LinesOf(c, chunks)[1..] == LinesOf(c, chunks[1..]);
      assert IsWritableChunk(c, chunks[0]);
      LinesReadAsChunks(c, chunks[1..]);
      match chunks[0] {
        case Data(members) => DataLineReads(c, members);
        case Done => DoneLineReads(c);
      }
    }
  }

  lemma OnlyDoneIsTerminal(c: Codec, k: Chunk)
    requires Lawful(c) && IsWritableChunk(c, k)
    ensures ChunkIsTerminal(Line(c, k), OpenAi) <==> k.Done?
  {
    match k {
      case Data(members) =>
        var text := c.render(Obj(members));
        assert ReadsBack(c, members);
        var body := "data: " + text;
        assert Line(c, k) == "" + body + "\n\n";
        TrimRemovesSurroundings("", body, "\n\n");
        assert body[6] == '{' && LowerAscii(body[6]) != LowerAscii("data: [done]"[6]);
      case Done =>
        var body := "data: [DONE]";
        assert Line(c, k) == "" + body + "\n\n";
        TrimRemovesSurroundings("", body, "\n\n");
    }
  }

  /** The proxy's cleanup leaves these lines as they are. */
  predicate Undisturbed(cleanup: string -> string, lines: seq<string>) {
    forall i :: 0 <= i < |lines| ==> cleanup(lines[i]) == lines[i]
  }

  lemma CleanedUndisturbed(cleanup: string -> string, lines: seq<string>)
    requires Undisturbed(cleanup, lines)
    ensures Cleaned(cleanup, lines) == lines
  {
  }

  /**
   * End to end: of the bytes an upstream sends, in whatever chunks, translated
   * and left as they are by the cleanup, the proxy collects every line for a
   * client that takes them, sees the stream end exactly when the upstream ended
   * it, and settles on the tokens last reported.
   */
  lemma ProxyReadsTheUpstreamUsage(c: Codec, req: Request, upstream: seq<byte>, cleanup: string -> string,
                                   clientTakes: nat)
    requires Lawful(c)
    requires var sent := Sent(false, c, req, INITIAL, EventsOf(Frame(upstream).pieces));
      Undisturbed(cleanup, sent) && |sent| <= clientTakes
    ensures var raws := EventsOf(Frame(upstream).pieces);
      var sent := Sent(false, c, req, INITIAL, raws);
      var lines := Collected(Cleaned(cleanup, sent), OpenAi, clientTakes);
      && lines == sent
      && (SomeTerminal(lines, OpenAi) <==> EndsAtAll(c, ReadEvents(raws)))
      && UsageFromCompletionLines(c, lines) == UpstreamUsage(c, ReadEvents(raws))
  {
    var raws := EventsOf(Frame(upstream).pieces);
    TranslationIsCollected(c, req, raws, Sent(false, c, req, INITIAL, raws), cleanup, clientTakes);
  }

  /** What a stream is settled on: the tokens last reported, when a message_stop ended it. */
  function UpstreamUsage(c: Codec, events: seq<SseEvent>): Option<Usage> {
    if EndsInStop(c, events) then
      Some(UsageAtStop(LastInput(c, Live(c, events)), LastOutput(c, Live(c, events))))
    else None
  }

  lemma TranslationIsCollected(c: Codec, req: Request, raws: seq<string>, sent: seq<string>,
                               cleanup: string -> string, clientTakes: nat)
    requires Lawful(c) && sent == Sent(false, c, req, INITIAL, raws)
    requires Undisturbed(cleanup, sent) && |sent| <= clientTakes
    ensures var lines := Collected(Cleaned(cleanup, sent), OpenAi, clientTakes);
      && lines == sent
      && (SomeTerminal(lines, OpenAi) <==> EndsAtAll(c, ReadEvents(raws)))
      && UsageFromCompletionLines(c, lines) == UpstreamUsage(c, ReadEvents(raws))
  {
    CleanedUndisturbed(cleanup, sent);
    TerminalComesLast(c, req, raws, sent);
    CollectsAll(sent, OpenAi, clientTakes);
    SentUsage(c, req, raws);
  }

  lemma TerminalComesLast(c: Codec, req: Request, raws: seq<string>, sent: seq<string>)
    requires Lawful(c) && sent == Sent(false, c, req, INITIAL, raws)
    ensures
      && (sent != [] ==> NoneTerminal(sent[..|sent| - 1], OpenAi))
      && (SomeTerminal(sent, OpenAi) <==> EndsAtAll(c, ReadEvents(raws)))
  {
    var events := ReadEvents(raws);
    var chunks := Translated(c, req, INITIAL, events);
    SentIsTranslated(c, req, INITIAL, raws);
    DoneComesOnceAndLast(c, req, INITIAL, events);
    TranslatedIsWritable(c, req, INITIAL, events);
    DoneLinesComeLast(c, chunks);
  }

  lemma TerminalLinesAreDone(c: Codec, chunks: seq<Chunk>)
    requires Lawful(c) && AreWritable(c, chunks)
    ensures forall i :: 0 <= i < |chunks| ==> (ChunkIsTerminal(LinesOf(c, chunks)[i], OpenAi) <==> chunks[i].Done?)
  {
    forall i | 0 <= i < |chunks|
      ensures ChunkIsTerminal(LinesOf(c, chunks)[i], OpenAi) <==> chunks[i].Done?
    {
      assert IsWritableChunk(c, chunks[i]);
      OnlyDoneIsTerminal(c, chunks[i]);
    }
  }

  lemma DoneLinesComeLast(c: Codec, chunks: seq<Chunk>)
    requires Lawful(c) && AreWritable(c, chunks) && DoneIsLast(chunks)
    ensures var lines := LinesOf(c, chunks);
      && (lines != [] ==> NoneTerminal(lines[..|lines| - 1], OpenAi))
      && (SomeTerminal(lines, OpenAi) <==> EndsDone(chunks))
  {
    TerminalLinesAreDone(c, chunks);
  }

  lemma SentUsage(c: Codec, req: Request, raws: seq<string>)
    requires Lawful(c)
    ensures UsageFromCompletionLines(c, Sent(false, c, req, INITIAL, raws)) == UpstreamUsage(c, ReadEvents(raws))
  {
    var events := ReadEvents(raws);
    SentIsTranslated(c, req, INITIAL, raws);
    UsageIsTheLastReported(c, req, events);
    TranslatedIsWritable(c, req, INITIAL, events);
    LinesReadAsChunks(c, Translated(c, req, INITIAL, events));
  }
}
