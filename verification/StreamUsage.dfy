/**
 * The proxy's side of a stream: it collects the lines it passes on, and reads
 * the token usage off them afterwards.
 */
module StreamUsage {
  import opened Outcomes
  import opened Text
  import opened Payloads

  /** Token counts, cached input apart from fresh input. */
  datatype Usage = Usage(input: u64, output: u64, cacheRead: u64, cacheCreation: u64)

  datatype Ingress = OpenAi | Anthropic

  // --- complete responses ---

  function PromptTokens(payload: Json): Option<u64> {
    AsU64(GetIn(Get(payload, "usage"), "prompt_tokens"))
  }

  function CompletionTokens(payload: Json): Option<u64> {
    AsU64(GetIn(Get(payload, "usage"), "completion_tokens"))
  }

  function CachedTokens(payload: Json): u64 {
    UnwrapOr(AsU64(GetIn(GetIn(Get(payload, "usage"), "prompt_tokens_details"), "cached_tokens")), 0)
  }

  /**
   * Usage of a completion, present exactly with both counts. Its cached tokens are
   * part of its prompt tokens: as many as reported, but never more than those.
   */
  function UsageFromCompletion(payload: Json): (r: Option<Usage>)
    ensures r.Some? <==> PromptTokens(payload).Some? && CompletionTokens(payload).Some?
    ensures r.Some? ==> PromptTokens(payload) == Some(r.value.input + r.value.cacheRead)
    ensures r.Some? ==> CompletionTokens(payload) == Some(r.value.output)
    ensures r.Some? ==> r.value.cacheCreation == 0 && r.value.cacheRead <= CachedTokens(payload)
    ensures r.Some? && r.value.cacheRead < CachedTokens(payload) ==> r.value.input == 0
  {
    var usage := Get(payload, "usage");
    var prompt := AsU64(GetIn(usage, "prompt_tokens"));
    var output := AsU64(GetIn(usage, "completion_tokens"));
    if prompt.None? || output.None? then None
    else
      var cached := UnwrapOr(AsU64(GetIn(GetIn(usage, "prompt_tokens_details"), "cached_tokens")), 0);
      var read: u64 := if cached < prompt.value then cached else prompt.value;
      Some(Usage(prompt.value - read, output.value, read, 0))
  }

  function CompletionWith(prompt: u64, completion: u64, cached: u64): Json {
    Obj(map["usage" := Obj(map[
      "prompt_tokens" := Int(prompt),
      "completion_tokens" := Int(completion),
      "prompt_tokens_details" := Obj(map["cached_tokens" := Int(cached)])])])
  }

  /** A completion that reports all three counts, under their names. */
  lemma CompletionUsageReads(prompt: u64, completion: u64, cached: u64)
    ensures var read := if cached < prompt then cached else prompt;
            UsageFromCompletion(CompletionWith(prompt, completion, cached))
            == Some(Usage(prompt - read, completion, read, 0))
  {
    var details := map["cached_tokens" := Int(cached)];
    var usage := map[
      "prompt_tokens" := Int(prompt), "completion_tokens" := Int(completion), "prompt_tokens_details" := Obj(details)];
    assert usage["prompt_tokens"] == Int(prompt) && usage["completion_tokens"] == Int(completion);
    assert usage["prompt_tokens_details"] == Obj(details) && details["cached_tokens"] == Int(cached);
  }

  /** Usage of a message: fresh, read and written input are reported apart. */
  function UsageFromMessage(payload: Json): Option<Usage> {
    var usage := Get(payload, "usage");
    var input := AsU64(GetIn(usage, "input_tokens"));
    var output := AsU64(GetIn(usage, "output_tokens"));
    if input.None? || output.None? then None
    else
      Some(Usage(
             input.value,
             output.value,
             UnwrapOr(AsU64(GetIn(usage, "cache_read_input_tokens")), 0),
             UnwrapOr(AsU64(GetIn(usage, "cache_creation_input_tokens")), 0)))
  }

  // --- completion streams ---

  /** What a line of a completion stream says about usage. */
  datatype Reading = Skip | Stop | Found(usage: Usage)

  function ReadLine(c: Codec, line: string): Reading {
    match DropPrefix(line, "data:")
    case None => Skip
    case Some(rest) =>
      var data := Trim(rest);
      if EqualsIgnoringCase(data, "[DONE]") then Skip
      else
        match c.parse(data)
        case None => Stop
        case Some(payload) =>
          match UsageFromCompletion(payload)
          case Some(usage) => Found(usage)
          case None => Skip
  }

  function UsageFromCompletionLines(c: Codec, lines: seq<string>): Option<Usage> {
    if lines == [] then None
    else
      match ReadLine(c, lines[0])
      case Skip => UsageFromCompletionLines(c, lines[1..])
      case Stop => None
      case Found(usage) => Some(usage)
  }

  /** The usage of completion lines is that of the first data line that has one, provided no data line before
      it, other than a terminal marker in either case, fails to read as JSON. */
  lemma {:induction false} UsageIsTheFirstFound(c: Codec, lines: seq<string>, i: nat)
    requires i < |lines| && "data:" <= lines[i]
    requires forall j :: 0 <= j < i && "data:" <= lines[j] ==> PassesOver(c, lines[j][5..])
    requires !PassesOver(c, lines[i][5..])
    ensures UsageFromCompletionLines(c, lines)
         == match c.parse(Trim(lines[i][5..])) case None => None case Some(payload) => UsageFromCompletion(payload)
  {
    if i > 0 {
      forall j | 0 <= j < i - 1 && "data:" <= lines[1..][j]
        ensures PassesOver(c, lines[1..][j][5..])
      {
        assert lines[1..][j] == lines[j + 1];
      }
      UsageIsTheFirstFound(c, lines[1..], i - 1);
    }
  }

  /** A data line that is a terminal marker, or JSON without a usage. */
  predicate PassesOver(c: Codec, rest: string) {
    EqualsIgnoringCase(Trim(rest), "[DONE]")
    || match c.parse(Trim(rest)) case None => false case Some(payload) => UsageFromCompletion(payload).None?
  }

  method ProviderUsageFromOpenAiSseLines(c: Codec, lines: seq<string>) returns (usage: Option<Usage>)
    ensures usage == UsageFromCompletionLines(c, lines)
    ensures usage.Some? ==> exists i :: 0 <= i < |lines| && ReadLine(c, lines[i]) == Found(usage.value)
  {
    for i := 0 to |lines|
      invariant UsageFromCompletionLines(c, lines) == UsageFromCompletionLines(c, lines[i..])
    {
      assert lines[i..][1..] == lines[i + 1..];
      var line := lines[i];
      var rest := DropPrefix(line, "data:");
      if rest.None? {
        continue;
      }
      var data := Trim(rest.value);
      if EqualsIgnoringCase(data, "[DONE]") {
        continue;
      }
      var parsed := c.parse(data);
      if parsed.None? {
        return None;
      }
      usage := UsageFromCompletion(parsed.value);
      if usage.Some? {
        assert ReadLine(c, lines[i]) == Found(usage.value);
        return;
      }
    }
    usage := None;
  }

  // --- message streams ---

  /** The last values seen so far. */
  datatype Tally = Tally(input: Option<u64>, output: Option<u64>, cacheRead: u64, cacheCreation: u64)

  const NO_TALLY := Tally(None, None, 0, 0)

  function TallyStart(t: Tally, usage: Option<Json>): Tally {
    Tally(
      OrElse(AsU64(GetIn(usage, "input_tokens")), t.input),
      OrElse(AsU64(GetIn(usage, "output_tokens")), t.output),
      UnwrapOr(AsU64(GetIn(usage, "cache_read_input_tokens")), t.cacheRead),
      UnwrapOr(AsU64(GetIn(usage, "cache_creation_input_tokens")), t.cacheCreation))
  }

  function TallyPayload(t: Tally, payload: Json): Tally {
    var name := AsStr(Get(payload, "type"));
    if name == Some("message_start") then TallyStart(t, GetIn(Get(payload, "message"), "usage"))
    else if name == Some("message_delta") then
      t.(output := OrElse(AsU64(GetIn(Get(payload, "usage"), "output_tokens")), t.output))
    else t
  }

  /** The payload on a physical line, if it holds one. */
  function PayloadOn(c: Codec, physical: string): Option<Json> {
    match DropPrefix(TrimStart(physical), "data:")
    case None => None
    case Some(rest) =>
      var data := Trim(rest);
      if data == "" || EqualsIgnoringCase(data, "[DONE]") then None else c.parse(data)
  }

  function TallyLine(c: Codec, t: Tally, physical: string): Tally {
    match PayloadOn(c, physical) case Some(payload) => TallyPayload(t, payload) case None => t
  }

  function TallyLines(c: Codec, t: Tally, physicals: seq<string>): Tally
    decreases |physicals|
  {
    if physicals == [] then t else TallyLines(c, TallyLine(c, t, physicals[0]), physicals[1..])
  }

  function TallyStream(c: Codec, t: Tally, chunks: seq<string>): Tally
    decreases |chunks|
  {
    if chunks == [] then t else TallyStream(c, TallyLines(c, t, Lines(chunks[0])), chunks[1..])
  }

  function TallyUsage(t: Tally): Option<Usage> {
    match t.input
    case None => None
    case Some(input) => Some(Usage(input, UnwrapOr(t.output, 0), t.cacheRead, t.cacheCreation))
  }

  function UsageFromMessageLines(c: Codec, chunks: seq<string>): Option<Usage> {
    TallyUsage(TallyStream(c, NO_TALLY, chunks))
  }

  /** A data line adds to the tally what its payload reports; a blank one, the terminal marker in either case,
      and one that is not JSON add nothing. */
  lemma DataLineTallies(c: Codec, t: Tally, rest: string)
    ensures TallyLine(c, t, "data:" + rest)
         == if IsBlank(rest) || EqualsIgnoringCase(Trim(rest), "[DONE]") || c.parse(Trim(rest)).None? then t
            else TallyPayload(t, c.parse(Trim(rest)).value)
  {
    var line := "data:" + rest;
    assert line[0] == 'd' && TrimStart(line) == line && line[5..] == rest;
    TrimsToNothing(rest);
  }

  /** A message_start that holds a message reads as the message itself, except that a stream takes
      missing output tokens for zero and the message then has no usage. */
  lemma StreamReadsAMessageAlike(payload: Json)
    requires Get(payload, "type") == Some(Str("message_start")) && Get(payload, "message").Some?
    ensures var message := Get(payload, "message").value;
            UsageFromMessage(message)
            == if AsU64(GetIn(Get(message, "usage"), "output_tokens")).Some?
               then TallyUsage(TallyPayload(NO_TALLY, payload)) else None
  {
    assert AsStr(Get(payload, "type")) == Some("message_start");
  }

  method TallyChunk(c: Codec, t: Tally, chunk: string) returns (after: Tally)
    ensures after == TallyLines(c, t, Lines(chunk))
  {
    after := t;
    var physicals := Lines(chunk);
    for j := 0 to |physicals|
      invariant TallyLines(c, t, physicals) == TallyLines(c, after, physicals[j..])
    {
      assert physicals[j..][1..] == physicals[j + 1..];
      var rest := DropPrefix(TrimStart(physicals[j]), "data:");
      if rest.None? {
        continue;
      }
      var data := Trim(rest.value);
      if data == "" || EqualsIgnoringCase(data, "[DONE]") {
        continue;
      }
      var parsed := c.parse(data);
      if parsed.None? {
        continue;
      }
      after := TallyPayload(after, parsed.value);
    }
  }

  method ProviderUsageFromAnthropicSseLines(c: Codec, chunks: seq<string>) returns (usage: Option<Usage>)
    ensures usage == UsageFromMessageLines(c, chunks)
  {
    var tally := NO_TALLY;
    for i := 0 to |chunks|
      invariant TallyStream(c, NO_TALLY, chunks) == TallyStream(c, tally, chunks[i..])
    {
      assert chunks[i..][1..] == chunks[i + 1..];
      tally := TallyChunk(c, tally, chunks[i]);
    }
    if tally.input.None? {
      return None;
    }
    usage := Some(Usage(tally.input.value, UnwrapOr(tally.output, 0), tally.cacheRead, tally.cacheCreation));
  }

  // --- passing a stream on ---

  predicate SomeLineTrimsTo(lines: seq<string>, text: string) {
    exists i :: 0 <= i < |lines| && Trim(lines[i]) == text
  }

  predicate ChunkIsTerminal(chunk: string, ingress: Ingress) {
    match ingress
    case OpenAi => EqualsIgnoringCase(Trim(chunk), "data: [done]")
    case Anthropic => SomeLineTrimsTo(Lines(chunk), "event: message_stop")
  }

  predicate NoneTerminal(lines: seq<string>, ingress: Ingress) {
    forall i :: 0 <= i < |lines| ==> !ChunkIsTerminal(lines[i], ingress)
  }

  predicate SomeTerminal(lines: seq<string>, ingress: Ingress) {
    exists i :: 0 <= i < |lines| && ChunkIsTerminal(lines[i], ingress)
  }

  /** A stream with every line cleaned up. */
  function Cleaned(cleanup: string -> string, lines: seq<string>): (r: seq<string>)
    ensures |r| == |lines| && forall i :: 0 <= i < |lines| ==> r[i] == cleanup(lines[i])
  {
    seq(|lines|, i requires 0 <= i < |lines| => cleanup(lines[i]))
  }

  /** The lines kept of a stream: to the first terminal one, or the one the client no longer takes. */
  function Collected(lines: seq<string>, ingress: Ingress, clientTakes: nat): (kept: seq<string>)
    decreases |lines|
  {
    if lines == [] then []
    else
      [lines[0]] + if clientTakes == 0 || ChunkIsTerminal(lines[0], ingress) then []
                   else Collected(lines[1..], ingress, clientTakes - 1)
  }

  /** The same without the recursion: a prefix that ends at a terminal line, at the client's last, or at the end. */
  predicate IsKept(all: seq<string>, ingress: Ingress, clientTakes: nat, kept: seq<string>) {
    && kept <= all && |kept| <= clientTakes + 1
    && (kept != [] ==> NoneTerminal(kept[..|kept| - 1], ingress))
    && (|kept| == |all| || |kept| == clientTakes + 1 || (kept != [] && ChunkIsTerminal(kept[|kept| - 1], ingress)))
  }

  lemma {:induction false} CollectedIs(all: seq<string>, ingress: Ingress, clientTakes: nat, kept: seq<string>)
    requires IsKept(all, ingress, clientTakes, kept)
    ensures Collected(all, ingress, clientTakes) == kept
    decreases |all|
  {
    if |kept| > 1 {
      assert kept[..|kept| - 1][0] == all[0];
      KeptBehind(all, ingress, clientTakes, kept);
      CollectedIs(all[1..], ingress, clientTakes - 1, kept[1..]);
      assert kept == [all[0]] + kept[1..];
    } else if |kept| == 1 {
      assert kept == [all[0]] && (|all| == 1 ==> all[1..] == []);
    }
  }

  lemma KeptBehind(all: seq<string>, ingress: Ingress, clientTakes: nat, kept: seq<string>)
    requires IsKept(all, ingress, clientTakes, kept) && |kept| > 1
    ensures clientTakes > 0 && IsKept(all[1..], ingress, clientTakes - 1, kept[1..])
  {
    var front := kept[..|kept| - 1];
    assert kept[1..][..|kept| - 2] == front[1..];
    assert NoneTerminal(front[1..], ingress) by {
      assert forall i :: 0 <= i < |front| - 1 ==> front[1..][i] == front[i + 1];
    }
    assert kept[1..][|kept| - 2] == kept[|kept| - 1];
    assert kept == all[..|kept|] && kept[1..] == all[1..][..|kept| - 1];
  }

  lemma CollectsAll(lines: seq<string>, ingress: Ingress, clientTakes: nat)
    requires |lines| <= clientTakes && (lines != [] ==> NoneTerminal(lines[..|lines| - 1], ingress))
    ensures Collected(lines, ingress, clientTakes) == lines
  {
    CollectedIs(lines, ingress, clientTakes, lines);
  }

  lemma {:induction false} CollectedIsKept(all: seq<string>, ingress: Ingress, clientTakes: nat)
    ensures IsKept(all, ingress, clientTakes, Collected(all, ingress, clientTakes))
    decreases |all|
  {
    if all != [] {
      if clientTakes == 0 || ChunkIsTerminal(all[0], ingress) {
        assert [all[0]] + [] == [all[0]];
      } else {
        CollectedIsKept(all[1..], ingress, clientTakes - 1);
        KeptInFront(all, ingress, clientTakes, Collected(all[1..], ingress, clientTakes - 1));
      }
    }
  }

  lemma KeptInFront(all: seq<string>, ingress: Ingress, clientTakes: nat, rest: seq<string>)
    requires all != [] && clientTakes > 0 && !ChunkIsTerminal(all[0], ingress)
    requires IsKept(all[1..], ingress, clientTakes - 1, rest)
    ensures IsKept(all, ingress, clientTakes, [all[0]] + rest)
  {
    var kept := [all[0]] + rest;
    if rest != [] {
      var front := rest[..|rest| - 1];
      assert kept[..|kept| - 1] == [all[0]] + front && kept[|kept| - 1] == rest[|rest| - 1];
      assert NoneTerminal([all[0]] + front, ingress) by {
        assert forall i :: 0 < i <= |front| ==> ([all[0]] + front)[i] == front[i - 1];
      }
    }
  }

  /** For a client that takes them all, there is a terminal line among those kept exactly when there is one. */
  lemma KeptEnds(all: seq<string>, ingress: Ingress, clientTakes: nat, kept: seq<string>)
    requires IsKept(all, ingress, clientTakes, kept) && |all| <= clientTakes
    ensures SomeTerminal(kept, ingress) <==> SomeTerminal(all, ingress)
  {
    if |kept| == |all| {
      assert kept == all;
    } else {
      assert kept[|kept| - 1] == all[|kept| - 1];
    }
  }

  /** The lines collected so far: none of them terminal, all of them taken by the client. */
  predicate Collecting(all: seq<string>, ingress: Ingress, clientTakes: nat, lines: seq<string>) {
    lines <= all && |lines| <= clientTakes && NoneTerminal(lines, ingress)
  }

  lemma CollectNext(all: seq<string>, ingress: Ingress, clientTakes: nat, lines: seq<string>)
    requires Collecting(all, ingress, clientTakes, lines) && |lines| < |all|
    ensures var line := all[|lines|];
      && (if ChunkIsTerminal(line, ingress) || |lines| == clientTakes
          then IsKept(all, ingress, clientTakes, lines + [line])
          else Collecting(all, ingress, clientTakes, lines + [line]))
      && (SomeTerminal(lines + [line], ingress) <==> ChunkIsTerminal(line, ingress))
  {
    var line := all[|lines|];
    assert (lines + [line])[..|lines|] == lines && (lines + [line])[|lines|] == line;
  }

  lemma CollectEnd(all: seq<string>, ingress: Ingress, clientTakes: nat, lines: seq<string>)
    requires Collecting(all, ingress, clientTakes, lines) && |lines| == |all|
    ensures IsKept(all, ingress, clientTakes, lines) && !SomeTerminal(lines, ingress)
  {
  }

  /**
   * The lines passed on, cleaned up: to the first that is then terminal, or to the
   * one the client no longer takes, or to the end of the upstream.
   */
  method CollectStream(upstream: seq<string>, ingress: Ingress, cleanup: string -> string, clientTakes: nat)
    returns (lines: seq<string>, sawDone: bool)
    ensures IsKept(Cleaned(cleanup, upstream), ingress, clientTakes, lines)
    ensures lines == Collected(Cleaned(cleanup, upstream), ingress, clientTakes)
    ensures sawDone <==> SomeTerminal(lines, ingress)
    ensures |upstream| <= clientTakes ==> (sawDone <==> SomeTerminal(Cleaned(cleanup, upstream), ingress))
  {
    lines, sawDone := [], false;
    ghost var all := Cleaned(cleanup, upstream);
    for i := 0 to |upstream|
      invariant |lines| == i && !sawDone && Collecting(all, ingress, clientTakes, lines)
    {
      var line := cleanup(upstream[i]);
      CollectNext(all, ingress, clientTakes, lines);
      if ChunkIsTerminal(line, ingress) {
        sawDone := true;
      }
      lines := lines + [line];
      if i >= clientTakes {
        break;
      }
      if sawDone {
        break;
      }
    }
    if Collecting(all, ingress, clientTakes, lines) {
      CollectEnd(all, ingress, clientTakes, lines);
    }
    CollectedIs(all, ingress, clientTakes, lines);
    if |upstream| <= clientTakes {
      KeptEnds(all, ingress, clientTakes, lines);
    }
  }

  // --- the cleanup's quick scan ---

  predicate EscapeAt(payload: string, i: nat) {
    && i + 5 < |payload| && payload[i] == '\\' && payload[i + 1] == 'u' && payload[i + 2] == '0' && payload[i + 3] == '0'
    && payload[i + 4] == '1' && (payload[i + 5] == 'b' || payload[i + 5] == 'B')
  }

  /** The escape is these six characters, whatever the case of the last. */
  lemma EscapeIsSpelled(payload: string, i: nat, lower: string, upper: string)
    requires lower == "\\u001b" && upper == "\\u001B"
    ensures EscapeAt(payload, i)
       <==> i + 6 <= |payload| && (payload[i..i + 6] == lower || payload[i..i + 6] == upper)
  {
    if i + 6 <= |payload| {
      var piece := payload[i..i + 6];
      assert forall k :: 0 <= k < 6 ==> piece[k] == payload[i + k];
      assert piece[0] == payload[i] && piece[1] == payload[i + 1] && piece[2] == payload[i + 2];
      assert piece[3] == payload[i + 3] && piece[4] == payload[i + 4] && piece[5] == payload[i + 5];
    }
  }

  /** True exactly when an escape character, raw or as a JSON escape, occurs anywhere. */
  method PayloadContainsAnsiMarker(payload: string) returns (found: bool)
    ensures found <==> exists i :: 0 <= i < |payload| && (payload[i] == '\U{1B}' || EscapeAt(payload, i))
  {
    var idx := 0;
    while idx < |payload|
      invariant idx <= |payload|
      invariant forall i :: 0 <= i < idx ==> payload[i] != '\U{1B}' && !EscapeAt(payload, i)
    {
      if payload[idx] == '\U{1B}' {
        return true;
      }
      if idx + 5 < |payload| && payload[idx] == '\\' && payload[idx + 1] == 'u' && payload[idx + 2] == '0'
        && payload[idx + 3] == '0' && payload[idx + 4] == '1' && (payload[idx + 5] == 'b' || payload[idx + 5] == 'B')
      {
        assert EscapeAt(payload, idx);
        return true;
      }
      idx := idx + 1;
    }
    found := false;
  }
}
