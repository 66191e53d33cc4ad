/** The native path: the upstream events, forwarded as they came. */
module NativeStream {
  import opened Outcomes
  import opened Text
  import opened Payloads
  import opened SseFraming
  import opened SseAgreement
  import opened SseExactAgreement
  import opened StreamTranslation
  import opened StreamUsage
  import opened StreamMeaning
  import opened StreamChunks

  /** An event as a messages upstream writes it: the name, and a payload of that type. */
  datatype Typed = Typed(name: string, members: map<string, Json>)

  predicate IsWord(s: string) {
    forall i :: 0 <= i < |s| ==> !IsWhitespace(s[i])
  }

  predicate Labelled(c: Codec, t: Typed) {
    && IsWord(t.name) && "type" in t.members && t.members["type"] == Str(t.name)
    && IsWritable(c, Obj(t.members))
  }

  predicate AllLabelled(c: Codec, ts: seq<Typed>) {
    forall i :: 0 <= i < |ts| ==> Labelled(c, ts[i])
  }

  function NameLine(t: Typed): string {
    "event: " + t.name
  }

  function DataLine(c: Codec, t: Typed): string {
    "data: " + c.render(Obj(t.members))
  }

  function Raw(c: Codec, t: Typed): string {
    NameLine(t) + "\n" + DataLine(c, t)
  }

  function Raws(c: Codec, ts: seq<Typed>): (raws: seq<string>)
    ensures |raws| == |ts|
  {
    if ts == [] then [] else [Raw(c, ts[0])] + Raws(c, ts[1..])
  }

  // --- one event on both paths ---

  lemma NameLineIsPlain(c: Codec, t: Typed)
    requires Labelled(c, t)
    ensures '\n' !in NameLine(t) && DropReturn(NameLine(t)) == NameLine(t)
  {
    var line := NameLine(t);
    assert forall i :: 0 <= i < |t.name| ==> line[7 + i] == t.name[i];
    assert forall i :: 0 <= i < 7 ==> line[i] == "event: "[i];
  }

  lemma DataLineIsPlain(c: Codec, t: Typed)
    requires Lawful(c) && IsWritable(c, Obj(t.members))
    ensures '\n' !in DataLine(c, t) && DropReturn(DataLine(c, t)) == DataLine(c, t)
  {
    var text, line := c.render(Obj(t.members)), DataLine(c, t);
    assert ReadsBack(c, t.members);
    assert forall i :: 0 <= i < 6 ==> line[i] == "data: "[i];
    assert line[|line| - 1] == text[|text| - 1];
  }

  lemma LinesOfLast(s: string)
    requires s != "" && '\n' !in s
    ensures Lines(s) == [s]
  {
  }

  lemma ReadsItsName(t: Typed, f: Fields)
    ensures ReadField(f, NameLine(t)) == f.(name := Some(DropSpace(" " + t.name)))
    ensures DropSpace(" " + t.name) == t.name
  {
    var line := NameLine(t);
    assert "event:" <= line && line[6..] == " " + t.name;
    assert (" " + t.name)[1..] == t.name;
  }

  lemma ReadsItsData(c: Codec, t: Typed, f: Fields)
    ensures ReadField(f, DataLine(c, t)) == f.(data := f.data + [c.render(Obj(t.members))])
  {
    var text, line := c.render(Obj(t.members)), DataLine(c, t);
    assert line[0] != "event:"[0];
    assert "data:" <= line && line[5..] == " " + text;
    assert (" " + text)[1..] == text;
  }

  lemma RawReadsBack(c: Codec, t: Typed)
    requires Lawful(c) && Labelled(c, t)
    ensures ReadEvent(Raw(c, t)) == SseEvent(Some(t.name), c.render(Obj(t.members)))
  {
    NameLineIsPlain(c, t);
    DataLineIsPlain(c, t);
    LinesOfFirst(NameLine(t), DataLine(c, t));
    LinesOfLast(DataLine(c, t));
    var f := Fields(Some(t.name), []);
    ReadsItsName(t, NO_FIELDS);
    ReadsItsData(c, t, f);
    ReadLinesFirst(NO_FIELDS, NameLine(t), [DataLine(c, t)]);
    ReadLinesFirst(f, DataLine(c, t), []);
    assert [DataLine(c, t)] + [] == [DataLine(c, t)];
  }

  /** A typed event read back: its payload under its own name. */
  predicate IsEventOf(c: Codec, e: SseEvent, t: Typed) {
    e.name == Some(t.name) && PayloadOf(c, e) == Some(Obj(t.members))
  }

  lemma PayloadOfTyped(c: Codec, t: Typed)
    requires Lawful(c) && Labelled(c, t)
    ensures IsEventOf(c, ReadEvent(Raw(c, t)), t)
  {
    RawReadsBack(c, t);
  }

  lemma TerminalWhenStop(c: Codec, e: SseEvent, t: Typed)
    requires IsEventOf(c, e, t)
    ensures IsTerminal(c, e) <==> t.name == "message_stop"
  {
    KindsAreNames(t.name);
  }

  lemma PayloadOnItsLine(c: Codec, t: Typed)
    requires Lawful(c) && IsWritable(c, Obj(t.members))
    ensures PayloadOn(c, NameLine(t)) == None && PayloadOn(c, "") == None
    ensures PayloadOn(c, DataLine(c, t)) == Some(Obj(t.members))
  {
    var text, line := c.render(Obj(t.members)), DataLine(c, t);
    assert ReadsBack(c, t.members);
    assert NameLine(t)[0] == 'e' && TrimStart(NameLine(t)) == NameLine(t);
    assert line[0] == 'd' && TrimStart(line) == line;
    assert "data:" <= line && line[5..] == " " + text + "";
    TrimRemovesSurroundings(" ", text, "");
    assert LowerAscii(text[0]) != LowerAscii("[DONE]"[0]);
  }

  lemma LinesOfForwarded(c: Codec, t: Typed)
    requires Lawful(c) && Labelled(c, t)
    ensures Lines(Raw(c, t) + "\n\n") == [NameLine(t), DataLine(c, t), ""]
  {
    NameLineIsPlain(c, t);
    DataLineIsPlain(c, t);
    LinesOfTwo(NameLine(t), DataLine(c, t));
  }

  lemma LinesOfTwo(a: string, b: string)
    requires '\n' !in a && '\n' !in b && DropReturn(a) == a && DropReturn(b) == b
    ensures Lines(a + "\n" + b + "\n\n") == [a, b, ""]
  {
    assert a + "\n" + b + "\n\n" == a + "\n" + (b + "\n\n");
    LinesOfFirst(a, b + "\n\n");
    LinesThenBlank(b);
  }

  lemma LinesThenBlank(b: string)
    requires '\n' !in b
    ensures Lines(b + "\n\n") == [DropReturn(b), ""]
  {
    assert b + "\n\n" == b + "\n" + "\n";
    LinesOfFirst(b, "\n");
    assert [DropReturn(b)] + [""] == [DropReturn(b), ""];
  }

  lemma TallyThree(c: Codec, t: Tally, a: string, b: string, d: string)
    ensures TallyLines(c, t, [a, b, d]) == TallyLine(c, TallyLine(c, TallyLine(c, t, a), b), d)
  {
    var t1 := TallyLine(c, t, a);
    var t2 := TallyLine(c, t1, b);
    assert [a, b, d][1..] == [b, d] && [b, d][1..] == [d] && [d][1..] == [];
    assert TallyLines(c, t2, [d]) == TallyLines(c, TallyLine(c, t2, d), []);
    assert TallyLines(c, t1, [b, d]) == TallyLines(c, t2, [d]);
  }

  /** A forwarded event adds its payload to the tally. */
  lemma TallyForwarded(c: Codec, tally: Tally, t: Typed)
    requires Lawful(c) && Labelled(c, t)
    ensures TallyLines(c, tally, Lines(Raw(c, t) + "\n\n")) == TallyPayload(tally, Obj(t.members))
  {
    LinesOfForwarded(c, t);
    TallyThree(c, tally, NameLine(t), DataLine(c, t), "");
    PayloadOnItsLine(c, t);
  }

  // --- whole streams ---

  /** The last counts of a stream, on top of those known before it. */
  function Reported(c: Codec, before: Tally, events: seq<SseEvent>): Tally {
    Tally(
      OrElse(LastAtStart(c, events, "input_tokens"), before.input),
      OrElse(LastOutput(c, events), before.output),
      UnwrapOr(LastAtStart(c, events, "cache_read_input_tokens"), before.cacheRead),
      UnwrapOr(LastAtStart(c, events, "cache_creation_input_tokens"), before.cacheCreation))
  }

  function ReportedBy(c: Codec, before: Tally, e: SseEvent): Tally {
    Tally(
      OrElse(ReportedAtStart(c, e, "input_tokens"), before.input),
      OrElse(ReportedOutput(c, e), before.output),
      UnwrapOr(ReportedAtStart(c, e, "cache_read_input_tokens"), before.cacheRead),
      UnwrapOr(ReportedAtStart(c, e, "cache_creation_input_tokens"), before.cacheCreation))
  }

  lemma TallyIsReported(c: Codec, before: Tally, e: SseEvent, t: Typed)
    requires Labelled(c, t) && IsEventOf(c, e, t)
    ensures TallyPayload(before, Obj(t.members)) == ReportedBy(c, before, e)
  {
    KindsAreNames(t.name);
    assert AsStr(Get(Obj(t.members), "type")) == Some(t.name);
  }

  lemma SentNative(c: Codec, req: Request, before: Tally, raws: seq<string>)
    requires raws != []
    ensures var after := TallyLines(c, before, Lines(raws[0] + "\n\n"));
      TallyStream(c, before, Sent(true, c, req, INITIAL, raws))
        == if ReadEvent(raws[0]).name == Some("message_stop") then after
           else TallyStream(c, after, Sent(true, c, req, INITIAL, raws[1..]))
  {
    var first := raws[0] + "\n\n";
    var rest := Sent(true, c, req, INITIAL, raws[1..]);
    assert ([first] + rest)[1..] == rest && [first][1..] == [];
    assert [first] + [] == [first];
  }

  // The tally of what is sent on, one event at a time.
  lemma NativeTallyOne(c: Codec, req: Request, before: Tally, t: Typed, raws: seq<string>, events: seq<SseEvent>)
    requires Lawful(c) && Labelled(c, t)
    requires raws != [] && raws[0] == Raw(c, t)
    requires events != [] && events[0] == ReadEvent(raws[0])
    ensures var after := ReportedBy(c, before, events[0]);
      TallyStream(c, before, Sent(true, c, req, INITIAL, raws))
        == if IsTerminal(c, events[0]) then before else TallyStream(c, after, Sent(true, c, req, INITIAL, raws[1..]))
  {
    PayloadOfTyped(c, t);
    TerminalWhenStop(c, events[0], t);
    TallyForwarded(c, before, t);
    TallyIsReported(c, before, events[0], t);
    SentNative(c, req, before, raws);
  }

  lemma ReportedLive(c: Codec, before: Tally, events: seq<SseEvent>)
    requires events != []
    ensures Reported(c, before, Live(c, events))
      == if IsTerminal(c, events[0]) then before
         else Reported(c, ReportedBy(c, before, events[0]), Live(c, events[1..]))
  {
    if !IsTerminal(c, events[0]) {
      LiveFirst(c, events);
    }
  }

  lemma LabelledFirst(c: Codec, ts: seq<Typed>)
    requires AllLabelled(c, ts) && ts != []
    ensures Labelled(c, ts[0]) && AllLabelled(c, ts[1..])
  {
  }

  lemma {:induction false} NativeTally(c: Codec, req: Request, before: Tally, ts: seq<Typed>)
    requires Lawful(c) && AllLabelled(c, ts)
    ensures TallyStream(c, before, Sent(true, c, req, INITIAL, Raws(c, ts)))
      == Reported(c, before, Live(c, ReadEvents(Raws(c, ts))))
    decreases |ts|
  {
    if ts == [] {
    } else {
      var raws := Raws(c, ts);
      var events := ReadEvents(raws);
      LabelledFirst(c, ts);
      NativeTallyOne(c, req, before, ts[0], raws, events);
      ReportedLive(c, before, events);
      if !IsTerminal(c, events[0]) {
        NativeTally(c, req, ReportedBy(c, before, events[0]), ts[1..]);
      }
    }
  }

  /** The last of every count reported; there is a usage when input was reported. */
  function LastUsage(c: Codec, live: seq<SseEvent>): Option<Usage> {
    match LastInput(c, live)
    case None => None
    case Some(input) =>
      Some(Usage(
             input,
             UnwrapOr(LastOutput(c, live), 0),
             UnwrapOr(LastAtStart(c, live, "cache_read_input_tokens"), 0),
             UnwrapOr(LastAtStart(c, live, "cache_creation_input_tokens"), 0)))
  }

  /** The native usage is the last of every count reported. */
  lemma NativeUsageIsTheLastReported(c: Codec, req: Request, ts: seq<Typed>)
    requires Lawful(c) && AllLabelled(c, ts)
    ensures UsageFromMessageLines(c, Sent(true, c, req, INITIAL, Raws(c, ts)))
      == LastUsage(c, Live(c, ReadEvents(Raws(c, ts))))
  {
    NativeTally(c, req, NO_TALLY, ts);
  }

  /**
   * A stream ended by message_stop is accounted the same on both paths exactly
   * when it reports its input and no cache tokens: the translation drops them.
   */
  lemma PathsAgreeWithoutCacheTokens(c: Codec, req: Request, ts: seq<Typed>)
    requires Lawful(c) && AllLabelled(c, ts)
    requires EndsInStop(c, ReadEvents(Raws(c, ts)))
    ensures var raws := Raws(c, ts);
      var live := Live(c, ReadEvents(raws));
      UsageFromMessageLines(c, Sent(true, c, req, INITIAL, raws))
        == UsageFromCompletionLines(c, Sent(false, c, req, INITIAL, raws))
      <==>
      && LastInput(c, live).Some?
      && UnwrapOr(LastAtStart(c, live, "cache_read_input_tokens"), 0) == 0
      && UnwrapOr(LastAtStart(c, live, "cache_creation_input_tokens"), 0) == 0
  {
    var raws := Raws(c, ts);
    NativeUsageIsTheLastReported(c, req, ts);
    SentIsTranslated(c, req, INITIAL, raws);
    UsageIsTheLastReported(c, req, ReadEvents(raws));
    TranslatedIsWritable(c, req, INITIAL, ReadEvents(raws));
    LinesReadAsChunks(c, Translated(c, req, INITIAL, ReadEvents(raws)));
  }

  // --- a stream whose cache tokens are lost ---

  function CachedStart(): Typed {
    var usage := map["input_tokens" := Int(1), "cache_read_input_tokens" := Int(1)];
    Typed("message_start", map[
      "type" := Str("message_start"),
      "message" := Obj(map["usage" := Obj(usage)])])
  }

  function PlainStop(): Typed {
    Typed("message_stop", map["type" := Str("message_stop")])
  }

  lemma CachedStartReports(c: Codec, e: SseEvent)
    requires IsEventOf(c, e, CachedStart())
    ensures !IsTerminal(c, e)
    ensures ReportedAtStart(c, e, "cache_read_input_tokens") == Some(1)
  {
    KindsAreNames("message_start");
    var usage := map["input_tokens" := Int(1), "cache_read_input_tokens" := Int(1)];
    var members := CachedStart().members;
    assert members["message"] == Obj(map["usage" := Obj(usage)]);
    assert usage["cache_read_input_tokens"] == Int(1);
  }

  /** One cached token read is enough to make the two accounts of a stream differ. */
  lemma CacheTokensAreDropped(c: Codec, req: Request)
    requires Lawful(c)
    ensures var raws := Raws(c, [CachedStart(), PlainStop()]);
      UsageFromMessageLines(c, Sent(true, c, req, INITIAL, raws))
        != UsageFromCompletionLines(c, Sent(false, c, req, INITIAL, raws))
  {
    StartIsLabelled(c);
    StopIsLabelled(c);
    StartReads(c);
    StopReads(c);
    CachedStreamsDiffer(c, req, CachedStart(), PlainStop());
  }

  /** An event that reports a cached token and ends nothing, and one that ends the stream. */
  predicate ReadsACachedToken(c: Codec, t: Typed) {
    var e := ReadEvent(Raw(c, t));
    !IsTerminal(c, e) && ReportedAtStart(c, e, "cache_read_input_tokens") == Some(1)
  }

  predicate ReadsAStop(c: Codec, t: Typed) {
    IsStop(c, ReadEvent(Raw(c, t)))
  }

  lemma CachedStreamsDiffer(c: Codec, req: Request, s: Typed, t: Typed)
    requires Lawful(c) && Labelled(c, s) && Labelled(c, t) && ReadsACachedToken(c, s) && ReadsAStop(c, t)
    ensures var raws := Raws(c, [s, t]);
      UsageFromMessageLines(c, Sent(true, c, req, INITIAL, raws))
        != UsageFromCompletionLines(c, Sent(false, c, req, INITIAL, raws))
  {
    StreamOfTwo(c, s, t, ReadEvent(Raw(c, s)), ReadEvent(Raw(c, t)));
    BothLabelled(c, s, t);
    AccountsDiffer(c, req, [s, t]);
  }

  lemma BothLabelled(c: Codec, s: Typed, t: Typed)
    requires Labelled(c, s) && Labelled(c, t)
    ensures AllLabelled(c, [s, t])
  {
  }

  lemma AccountsDiffer(c: Codec, req: Request, ts: seq<Typed>)
    requires Lawful(c) && AllLabelled(c, ts)
    requires EndsInStop(c, ReadEvents(Raws(c, ts)))
    requires LastAtStart(c, Live(c, ReadEvents(Raws(c, ts))), "cache_read_input_tokens") == Some(1)
    ensures var raws := Raws(c, ts);
      UsageFromMessageLines(c, Sent(true, c, req, INITIAL, raws))
        != UsageFromCompletionLines(c, Sent(false, c, req, INITIAL, raws))
  {
    PathsAgreeWithoutCacheTokens(c, req, ts);
  }

  lemma StartIsLabelled(c: Codec)
    ensures Labelled(c, CachedStart())
  {
    var usage := map["input_tokens" := Int(1), "cache_read_input_tokens" := Int(1)];
    StartIsWritable(c, Obj(usage), MAX_NESTING);
  }

  lemma StartIsWritable(c: Codec, usage: Json, levels: nat)
    requires levels >= 3 && usage.Obj? && forall k :: k in usage.members ==> usage.members[k].Int?
    ensures IsWritableWithin(c,
      Obj(map["type" := Str("message_start"), "message" := Obj(map["usage" := usage])]), levels)
  {
    assert IsWritableWithin(c, usage, levels - 2);
    assert IsWritableWithin(c, Obj(map["usage" := usage]), levels - 1);
  }

  lemma StopIsLabelled(c: Codec)
    ensures Labelled(c, PlainStop())
  {
  }

  lemma StartReads(c: Codec)
    requires Lawful(c) && Labelled(c, CachedStart())
    ensures ReadsACachedToken(c, CachedStart())
  {
    PayloadOfTyped(c, CachedStart());
    CachedStartReports(c, ReadEvent(Raw(c, CachedStart())));
  }

  lemma StopReads(c: Codec)
    requires Lawful(c) && Labelled(c, PlainStop())
    ensures ReadsAStop(c, PlainStop())
  {
    PayloadOfTyped(c, PlainStop());
    KindsAreNames("message_stop");
  }

  lemma StreamOfTwo(c: Codec, s: Typed, t: Typed, a: SseEvent, b: SseEvent)
    requires a == ReadEvent(Raw(c, s)) && b == ReadEvent(Raw(c, t))
    requires !IsTerminal(c, a) && IsStop(c, b)
    ensures var events := ReadEvents(Raws(c, [s, t]));
      && EndsInStop(c, events)
      && LastAtStart(c, Live(c, events), "cache_read_input_tokens") == ReportedAtStart(c, a, "cache_read_input_tokens")
  {
    assert [s, t][1..] == [t] && [t][1..] == [];
    var raws := Raws(c, [s, t]);
    assert raws == [Raw(c, s), Raw(c, t)] by {
      assert Raws(c, [t]) == [Raw(c, t)] + Raws(c, []);
    }
    assert raws[1..] == [Raw(c, t)] && raws[1..][1..] == [];
    var events := ReadEvents(raws);
    assert events == [a, b] by {
      assert ReadEvents(raws[1..]) == [b] + ReadEvents(raws[1..][1..]);
    }
    assert events[1..] == [b];
    assert FirstTerminal(c, [b]) == 0;
    LiveFirst(c, events);
    assert Live(c, events) == [a];
  }

  // --- the end of a native stream ---

  const SPACED: string := "event: message_stop"
  const UNSPACED: string := "event:message_stop"

  predicate ProviderStops(raw: string) {
    ReadEvent(raw).name == Some("message_stop")
  }

  /** The proxy takes the forwarded block for the end of the stream. */
  predicate ProxyStops(raw: string) {
    ChunkIsTerminal(raw + "\n\n", Anthropic)
  }

  function FirstWhere<T>(xs: seq<T>, holds: T -> bool): (n: nat)
    ensures n <= |xs|
    ensures n < |xs| ==> holds(xs[n])
    ensures forall i :: 0 <= i < n ==> !holds(xs[i])
  {
    if xs == [] || holds(xs[0]) then 0 else 1 + FirstWhere(xs[1..], holds)
  }

  /** The block the provider stops at, or the length when there is none. */
  function FirstStop(raws: seq<string>): nat {
    FirstWhere(raws, ProviderStops)
  }

  lemma {:induction false} ForwardsUpToTheStop(c: Codec, req: Request, raws: seq<string>)
    ensures var sent, n := Sent(true, c, req, INITIAL, raws), FirstStop(raws);
      && |sent| == (if n < |raws| then n + 1 else n)
      && forall i :: 0 <= i < |sent| ==> sent[i] == raws[i] + "\n\n"
  {
    if raws != [] && !ProviderStops(raws[0]) {
      ForwardsUpToTheStop(c, req, raws[1..]);
    }
  }

  /**
   * A native stream that the cleanup leaves as it is, for a client that takes it
   * all, is recorded as complete exactly when the proxy takes for its end some
   * block up to the one the provider stops at, or any block when the provider
   * never stops.
   */
  lemma NativeEndIsSeenWhen(c: Codec, req: Request, raws: seq<string>, cleanup: string -> string, clientTakes: nat)
    requires var sent := Sent(true, c, req, INITIAL, raws);
      Undisturbed(cleanup, sent) && |sent| <= clientTakes
    ensures SomeTerminal(Collected(Cleaned(cleanup, Sent(true, c, req, INITIAL, raws)), Anthropic, clientTakes), Anthropic)
      <==> exists i :: 0 <= i < |raws| && i <= FirstStop(raws) && ProxyStops(raws[i])
  {
    var sent := Sent(true, c, req, INITIAL, raws);
    CleanedUndisturbed(cleanup, sent);
    CollectedIsKept(sent, Anthropic, clientTakes);
    KeptEnds(sent, Anthropic, clientTakes, Collected(sent, Anthropic, clientTakes));
    ForwardedEndIsSeenWhen(c, req, raws);
  }

  lemma ForwardedEndIsSeenWhen(c: Codec, req: Request, raws: seq<string>)
    ensures SomeTerminal(Sent(true, c, req, INITIAL, raws), Anthropic)
      <==> exists i :: 0 <= i < |raws| && i <= FirstStop(raws) && ProxyStops(raws[i])
  {
    var sent, n := Sent(true, c, req, INITIAL, raws), FirstStop(raws);
    ForwardsUpToTheStop(c, req, raws);
    forall i | 0 <= i < |sent|
      ensures ChunkIsTerminal(sent[i], Anthropic) <==> ProxyStops(raws[i])
    {
    }
    if i :| 0 <= i < |raws| && i <= n && ProxyStops(raws[i]) {
      assert ChunkIsTerminal(sent[i], Anthropic);
    }
    if SomeTerminal(sent, Anthropic) {
      var i :| 0 <= i < |sent| && ChunkIsTerminal(sent[i], Anthropic);
      assert ProxyStops(raws[i]);
    }
  }

  // --- what each of them looks for in a block ---

  function LastEventLine(lines: seq<string>): (last: Option<string>)
    ensures last.Some? ==> IsEventLine(last.value)
  {
    if lines == [] then None
    else if IsEventLine(lines[|lines| - 1]) then Some(lines[|lines| - 1])
    else LastEventLine(lines[..|lines| - 1])
  }

  lemma {:induction false} ReadLinesAreFieldsIn(f: Fields, lines: seq<string>)
    ensures ReadLines(f, lines) == FieldsIn(f, ReaderLines(lines))
    decreases |lines|
  {
    if lines != [] {
      ReadLinesAreFieldsIn(ReadField(f, DropReturn(lines[0])), lines[1..]);
      assert ReaderLines(lines)[1..] == ReaderLines(lines[1..]);
    }
  }

  lemma {:induction false} NameComesLast(lines: seq<string>)
    ensures FieldsIn(NO_FIELDS, lines).name
      == match LastEventLine(lines) case None => None case Some(line) => Some(DropSpace(line[6..]))
    decreases |lines|
  {
    if lines != [] {
      var n := |lines| - 1;
      assert lines == lines[..n] + [lines[n]];
      FieldsInSnoc(NO_FIELDS, lines[..n], lines[n]);
      NameComesLast(lines[..n]);
    }
  }

  lemma NamesTheStop(line: string)
    requires IsEventLine(line)
    ensures DropSpace(line[6..]) == "message_stop" <==> line == SPACED || line == UNSPACED
  {
    var rest := line[6..];
    assert line == "event:" + rest;
    SpacedRest(rest);
    SpellingRests(line);
  }

  lemma SpacedRest(rest: string)
    ensures DropSpace(rest) == "message_stop" <==> rest == " message_stop" || rest == "message_stop"
  {
    if rest != "" && rest[0] == ' ' {
      assert rest == " " + rest[1..];
      assert " message_stop" == " " + "message_stop";
    }
  }

  lemma SpellingRests(line: string)
    requires IsEventLine(line)
    ensures line == SPACED <==> line[6..] == " message_stop"
    ensures line == UNSPACED <==> line[6..] == "message_stop"
  {
    assert line == "event:" + line[6..];
    assert SPACED == "event:" + " message_stop" && UNSPACED == "event:" + "message_stop";
  }

  /** The provider stops at a block whose last event line, less its returns, is one of two spellings. */
  lemma ProviderStopsWhen(raw: string)
    ensures ProviderStops(raw)
      <==> var last := LastEventLine(ReaderLines(Lines(raw))); last == Some(SPACED) || last == Some(UNSPACED)
  {
    var lines := ReaderLines(Lines(raw));
    ReadLinesAreFieldsIn(NO_FIELDS, Lines(raw));
    NameComesLast(lines);
    if LastEventLine(lines).Some? {
      NamesTheStop(LastEventLine(lines).value);
    }
  }

  lemma LastLineTrims(raw: string)
    requires raw != "" && '\n' !in raw
    ensures SomeLineTrimsTo(Lines(raw + "\n\n"), SPACED) <==> Trim(raw) == SPACED
  {
    LinesThenBlank(raw);
    TrimDropsTheReturn(raw);
    FirstOfTwoTrims(DropReturn(raw));
  }

  lemma FirstOfTwoTrims(line: string)
    ensures SomeLineTrimsTo([line, ""], SPACED) <==> Trim(line) == SPACED
  {
    var lines := [line, ""];
    assert Trim(lines[0]) == Trim(line) && Trim(lines[1]) == "";
  }

  lemma SomeOfMore(first: string, rest: seq<string>, text: string)
    ensures SomeLineTrimsTo([first] + rest, text) <==> Trim(first) == text || SomeLineTrimsTo(rest, text)
  {
    var all := [first] + rest;
    assert all[0] == first && forall i :: 0 <= i < |rest| ==> all[i + 1] == rest[i];
    if SomeLineTrimsTo(rest, text) {
      var i :| 0 <= i < |rest| && Trim(rest[i]) == text;
      assert Trim(all[i + 1]) == text;
    }
  }

  /** The proxy stops at a block of which some line, trimmed at both ends, is the spaced spelling. */
  lemma {:induction false} ProxyStopsWhen(raw: string)
    ensures ProxyStops(raw) <==> SomeLineTrimsTo(Lines(raw), SPACED)
    decreases |raw|
  {
    var i := IndexOf(raw, '\n');
    if raw == "" {
      NoTextNoStop();
    } else if i == |raw| {
      LastLineTrims(raw);
      SomeOfMore(raw, [], SPACED);
      assert [raw] + [] == [raw];
    } else {
      var first, rest := raw[..i], raw[i + 1..];
      assert raw == first + "\n" + rest && raw + "\n\n" == first + "\n" + (rest + "\n\n");
      LinesOfFirst(first, rest);
      LinesOfFirst(first, rest + "\n\n");
      ProxyStopsWhen(rest);
      SomeOfMore(DropReturn(first), Lines(rest), SPACED);
      SomeOfMore(DropReturn(first), Lines(rest + "\n\n"), SPACED);
    }
  }

  lemma NoTextNoStop()
    ensures !ProxyStops("") && !SomeLineTrimsTo(Lines(""), SPACED)
  {
    LinesThenBlank("");
    assert "" + "\n\n" == "\n\n";
    assert ["", ""][0] == "" && Trim("") == "";
  }

  /** So a stop without the space ends a stream the proxy then records as incomplete, and an indented
      one makes the proxy stop where the provider goes on. */
  lemma TheyStopApart()
    ensures ProviderStops(UNSPACED) && !ProxyStops(UNSPACED)
    ensures !ProviderStops(" " + SPACED) && ProxyStops(" " + SPACED)
  {
    UnspacedStop(UNSPACED);
    IndentedStop(" " + SPACED);
  }

  lemma UnspacedStop(line: string)
    requires line == UNSPACED
    ensures ProviderStops(line) && !ProxyStops(line)
  {
    StopLine("", line);
    OneLineStops(line);
  }

  lemma IndentedStop(line: string)
    requires line == " " + SPACED
    ensures !ProviderStops(line) && ProxyStops(line)
  {
    assert line[0] != SPACED[0] && line[0] != UNSPACED[0];
    OneLineStops(line);
    assert " " + SPACED + "" == line;
    TrimRemovesSurroundings(" ", SPACED, "");
  }

  lemma OneLineStops(line: string)
    requires line != "" && '\n' !in line && DropReturn(line) == line
    ensures ProviderStops(line) <==> line == SPACED || line == UNSPACED
    ensures ProxyStops(line) <==> Trim(line) == SPACED
  {
    LinesOfLast(line);
    ProviderStopsWhen(line);
    assert ReaderLines([line]) == [line];
    assert [line][..0] == [];
    assert LastEventLine([line]) == if IsEventLine(line) then Some(line) else None;
    assert IsEventLine(SPACED) && IsEventLine(UNSPACED);
    LinesThenBlank(line);
    FirstOfTwoTrims(line);
  }

  /** Of a block of two lines, only the first an event line, the first decides. */
  lemma TwoLineStops(first: string, second: string)
    requires '\n' !in first && '\n' !in second && DropReturn(first) == first && DropReturn(second) == second
    requires second != "" && !IsEventLine(second) && Trim(second) != SPACED
    ensures var raw := first + "\n" + second;
      && (ProviderStops(raw) <==> first == SPACED || first == UNSPACED)
      && (ProxyStops(raw) <==> Trim(first) == SPACED)
  {
    LinesOfFirst(first, second);
    LinesOfLast(second);
    assert [first] + [second] == [first, second];
    ProviderStopsWhen(first + "\n" + second);
    LastOfTwo(first, second);
    LinesOfTwo(first, second);
    TrimsOfThree(first, second);
  }

  lemma LastOfTwo(first: string, second: string)
    requires DropReturn(first) == first && DropReturn(second) == second && !IsEventLine(second)
    ensures LastEventLine(ReaderLines([first, second])) == if IsEventLine(first) then Some(first) else None
    ensures IsEventLine(SPACED) && IsEventLine(UNSPACED)
  {
    assert ReaderLines([first, second]) == [first, second];
    assert [first, second][..1] == [first] && [first][..0] == [];
    assert LastEventLine([first]) == if IsEventLine(first) then Some(first) else None;
  }

  lemma TrimsOfThree(first: string, second: string)
    requires Trim(second) != SPACED
    ensures SomeLineTrimsTo([first, second, ""], SPACED) <==> Trim(first) == SPACED
  {
    var lines := [first, second, ""];
    assert Trim(lines[0]) == Trim(first) && Trim(lines[1]) == Trim(second) && Trim(lines[2]) == "";
  }

  function StopRaw(gap: string, data: string): string {
    "event:" + gap + "message_stop" + "\n" + data
  }

  /**
   * The provider stops at message_stop with or without the space after the
   * colon; the proxy sees the end only with it, and otherwise records a finished
   * stream as incomplete.
   */
  lemma TheEndIsSeenOnlyAfterASpace(gap: string, c: Codec, members: map<string, Json>)
    requires Lawful(c) && IsWritable(c, Obj(members)) && (gap == "" || gap == " ")
    ensures var raw := StopRaw(gap, "data: " + c.render(Obj(members)));
      && ReadEvent(raw).name == Some("message_stop")
      && (ChunkIsTerminal(raw + "\n\n", Anthropic) <==> gap == " ")
  {
    var t := Typed("message_stop", members);
    var first, second := "event:" + gap + "message_stop", DataLine(c, t);
    DataLineIsPlain(c, t);
    DataLineTrims(c, t);
    StopLine(gap, first);
    assert second[0] != "event:"[0] && second[0] != SPACED[0];
    TwoLineStops(first, second);
  }

  lemma StopLine(gap: string, line: string)
    requires (gap == "" || gap == " ") && line == "event:" + gap + "message_stop"
    ensures line != "" && '\n' !in line && DropReturn(line) == line && Trim(line) == line
    ensures line == if gap == " " then SPACED else UNSPACED
    ensures line == SPACED <==> gap == " "
  {
    assert line[0] == 'e' && line[|line| - 1] == 'p';
    assert |line| == 18 + |gap| && |SPACED| == 19;
    TrimsToItself(line);
  }

  // --- streams as a messages upstream writes them ---

  lemma DataLineTrims(c: Codec, t: Typed)
    requires Lawful(c) && IsWritable(c, Obj(t.members))
    ensures Trim(DataLine(c, t)) == DataLine(c, t) && DataLine(c, t)[0] == 'd' && Trim("") == ""
  {
    var text, line := c.render(Obj(t.members)), DataLine(c, t);
    assert ReadsBack(c, t.members);
    assert line[|line| - 1] == text[|text| - 1];
    TrimsToItself(line);
  }

  lemma NameLineTrims(c: Codec, t: Typed)
    requires Labelled(c, t)
    ensures Trim(NameLine(t)) == SPACED <==> t.name == "message_stop"
  {
    var line := NameLine(t);
    if t.name == "" {
      assert Trim(line) == "event:" by {
        assert "" + "event:" + " " == line;
        TrimRemovesSurroundings("", "event:", " ");
      }
    } else {
      assert line[|line| - 1] == t.name[|t.name| - 1];
      TrimsToItself(line);
      assert line[7..] == t.name && SPACED[7..] == "message_stop";
    }
  }

  lemma TypedStops(c: Codec, t: Typed)
    requires Lawful(c) && Labelled(c, t)
    ensures ProviderStops(Raw(c, t)) <==> t.name == "message_stop"
    ensures ProxyStops(Raw(c, t)) <==> t.name == "message_stop"
  {
    RawReadsBack(c, t);
    LinesOfForwarded(c, t);
    NameLineTrims(c, t);
    OneLineTrims(c, t);
  }

  lemma OneLineTrims(c: Codec, t: Typed)
    requires Lawful(c) && Labelled(c, t)
    ensures SomeLineTrimsTo([NameLine(t), DataLine(c, t), ""], SPACED) <==> Trim(NameLine(t)) == SPACED
  {
    var lines := [NameLine(t), DataLine(c, t), ""];
    DataLineTrims(c, t);
    assert SPACED[0] == 'e';
    assert Trim(lines[0]) == Trim(NameLine(t));
  }

  lemma {:induction false} RawsAt(c: Codec, ts: seq<Typed>, i: nat)
    requires i < |ts|
    ensures Raws(c, ts)[i] == Raw(c, ts[i])
  {
    if i > 0 {
      RawsAt(c, ts[1..], i - 1);
    }
  }

  lemma StopsAlike(c: Codec, ts: seq<Typed>, i: nat)
    requires Lawful(c) && AllLabelled(c, ts) && i < |ts|
    ensures ProviderStops(Raws(c, ts)[i]) <==> ts[i].name == "message_stop"
    ensures ProxyStops(Raws(c, ts)[i]) <==> ts[i].name == "message_stop"
  {
    RawsAt(c, ts, i);
    TypedStops(c, ts[i]);
  }

  /** The proxy never stops before the provider on these. */
  lemma TypedIsCollected(c: Codec, req: Request, ts: seq<Typed>, clientTakes: nat)
    requires Lawful(c) && AllLabelled(c, ts) && |Sent(true, c, req, INITIAL, Raws(c, ts))| <= clientTakes
    ensures var sent := Sent(true, c, req, INITIAL, Raws(c, ts));
      Collected(sent, Anthropic, clientTakes) == sent
  {
    var sent := Sent(true, c, req, INITIAL, Raws(c, ts));
    if sent != [] {
      var front := sent[..|sent| - 1];
      forall i | 0 <= i < |front|
        ensures !ChunkIsTerminal(front[i], Anthropic)
      {
        GoesOnBeforeTheLast(c, req, ts, i);
        assert front[i] == sent[i];
      }
    }
    CollectsAll(sent, Anthropic, clientTakes);
  }

  lemma GoesOnBeforeTheLast(c: Codec, req: Request, ts: seq<Typed>, i: nat)
    requires Lawful(c) && AllLabelled(c, ts) && i + 1 < |Sent(true, c, req, INITIAL, Raws(c, ts))|
    ensures !ChunkIsTerminal(Sent(true, c, req, INITIAL, Raws(c, ts))[i], Anthropic)
  {
    ForwardsUpToTheStop(c, req, Raws(c, ts));
    StopsAlike(c, ts, i);
  }

  /**
   * On those every line is collected, the end is seen exactly when there is a
   * message_stop, and the tokens settled on are the last reported.
   */
  lemma ProxyReadsTheNativeUsage(c: Codec, req: Request, ts: seq<Typed>, cleanup: string -> string, clientTakes: nat)
    requires Lawful(c) && AllLabelled(c, ts)
    requires var sent := Sent(true, c, req, INITIAL, Raws(c, ts));
      Undisturbed(cleanup, sent) && |sent| <= clientTakes
    ensures var sent := Sent(true, c, req, INITIAL, Raws(c, ts));
      var lines := Collected(Cleaned(cleanup, sent), Anthropic, clientTakes);
      && lines == sent
      && (SomeTerminal(lines, Anthropic) <==> exists i :: 0 <= i < |ts| && ts[i].name == "message_stop")
      && UsageFromMessageLines(c, lines) == LastUsage(c, Live(c, ReadEvents(Raws(c, ts))))
  {
    CleanedUndisturbed(cleanup, Sent(true, c, req, INITIAL, Raws(c, ts)));
    TypedIsCollected(c, req, ts, clientTakes);
    TypedEndIsSeen(c, req, ts);
    NativeUsageIsTheLastReported(c, req, ts);
  }

  lemma TypedEndIsSeen(c: Codec, req: Request, ts: seq<Typed>)
    requires Lawful(c) && AllLabelled(c, ts)
    ensures SomeTerminal(Sent(true, c, req, INITIAL, Raws(c, ts)), Anthropic)
      <==> exists i :: 0 <= i < |ts| && ts[i].name == "message_stop"
  {
    var raws := Raws(c, ts);
    var n := FirstStop(raws);
    ForwardedEndIsSeenWhen(c, req, raws);
    forall i | 0 <= i < |ts|
      ensures ProviderStops(raws[i]) <==> ts[i].name == "message_stop"
      ensures ProxyStops(raws[i]) <==> ts[i].name == "message_stop"
    {
      StopsAlike(c, ts, i);
    }
    if n < |ts| {
      assert ProxyStops(raws[n]) && ts[n].name == "message_stop";
    }
  }
}
