/**
 * A stream from the upstream's bytes to the tokens it is settled on: the provider
 * sends lines, the proxy cleans them up, passes them on and reads the usage.
 */
module StreamRelay {
  import opened Outcomes
  import opened Utf8
  import opened Payloads
  import opened SseFraming
  import opened StreamTranslation
  import opened StreamUsage
  import opened StreamMeaning
  import opened NativeStream

  function UsageOf(c: Codec, lines: seq<string>, ingress: Ingress): Option<Usage> {
    match ingress
    case OpenAi => UsageFromCompletionLines(c, lines)
    case Anthropic => UsageFromMessageLines(c, lines)
  }

  /** The proxy's loop and what it settles on: the usage it reads, or else the estimate. */
  method StreamPassthroughResponse(c: Codec, upstream: seq<string>, ingress: Ingress, cleanup: string -> string,
    clientTakes: nat, estimate: Usage)
    returns (lines: seq<string>, usage: Usage, complete: bool)
    ensures lines == Collected(Cleaned(cleanup, upstream), ingress, clientTakes)
    ensures usage == UnwrapOr(UsageOf(c, lines, ingress), estimate)
    ensures complete <==> SomeTerminal(lines, ingress)
  {
    lines, complete := CollectStream(upstream, ingress, cleanup, clientTakes);
    var reported: Option<Usage>;
    match ingress {
      case OpenAi => reported := ProviderUsageFromOpenAiSseLines(c, lines);
      case Anthropic => reported := ProviderUsageFromAnthropicSseLines(c, lines);
    }
    usage := if reported.Some? then reported.value else estimate;
  }

  function AllSent(native: bool, c: Codec, req: Request, upstream: seq<seq<byte>>): seq<string> {
    Sent(native, c, req, INITIAL, EventsOf(Frame(Concat(upstream)).pieces))
  }

  /** Nothing of the stream is lost on the way: both ends take every line, and the cleanup keeps it. */
  predicate TakesAll(sent: seq<string>, takes: nat, cleanup: string -> string, clientTakes: nat) {
    |sent| <= takes && |sent| <= clientTakes && Undisturbed(cleanup, sent)
  }

  lemma TypedUsage(c: Codec, req: Request, raws: seq<string>, cleanup: string -> string, clientTakes: nat)
    requires Lawful(c)
    requires var sent := Sent(true, c, req, INITIAL, raws);
      Undisturbed(cleanup, sent) && |sent| <= clientTakes
    ensures var lines := Collected(Cleaned(cleanup, Sent(true, c, req, INITIAL, raws)), Anthropic, clientTakes);
      forall ts: seq<Typed> :: AllLabelled(c, ts) && raws == Raws(c, ts) ==>
        UsageFromMessageLines(c, lines) == LastUsage(c, Live(c, ReadEvents(raws)))
  {
    forall ts: seq<Typed> | AllLabelled(c, ts) && raws == Raws(c, ts)
      ensures UsageFromMessageLines(c, Collected(Cleaned(cleanup, Sent(true, c, req, INITIAL, raws)), Anthropic, clientTakes))
           == LastUsage(c, Live(c, ReadEvents(raws)))
    {
      ProxyReadsTheNativeUsage(c, req, ts, cleanup, clientTakes);
    }
  }

  /**
   * Provider and proxy together. A translated stream is settled on the tokens the
   * upstream last reported when a message_stop ended it, on the estimate
   * otherwise, and is complete exactly when the upstream ended it; a native one is
   * complete exactly when the proxy takes some forwarded block for its end, and
   * of typed events it is settled on the last counts reported.
   */
  method RelayStream(native: bool, c: Codec, req: Request, upstream: seq<seq<byte>>, takes: nat,
    cleanup: string -> string, clientTakes: nat, estimate: Usage)
    returns (usage: Usage, complete: bool)
    requires Lawful(c)
    ensures !native && TakesAll(AllSent(native, c, req, upstream), takes, cleanup, clientTakes) ==>
      var events := ReadEvents(EventsOf(Frame(Concat(upstream)).pieces));
      && (complete <==> EndsAtAll(c, events))
      && usage == UnwrapOr(UpstreamUsage(c, events), estimate)
    ensures native && TakesAll(AllSent(native, c, req, upstream), takes, cleanup, clientTakes) ==>
      var raws := EventsOf(Frame(Concat(upstream)).pieces);
      complete <==> exists i :: 0 <= i < |raws| && i <= FirstStop(raws) && ProxyStops(raws[i])
    ensures native && TakesAll(AllSent(native, c, req, upstream), takes, cleanup, clientTakes) ==>
      var raws := EventsOf(Frame(Concat(upstream)).pieces);
      forall ts: seq<Typed> :: AllLabelled(c, ts) && raws == Raws(c, ts) ==>
        usage == UnwrapOr(LastUsage(c, Live(c, ReadEvents(raws))), estimate)
  {
    var sent := SendLoop(native, c, req, upstream, takes);
    var lines: seq<string>;
    lines, usage, complete :=
      StreamPassthroughResponse(c, sent, if native then Anthropic else OpenAi, cleanup, clientTakes, estimate);
    if TakesAll(AllSent(native, c, req, upstream), takes, cleanup, clientTakes) {
      if native {
        NativeEndIsSeenWhen(c, req, EventsOf(Frame(Concat(upstream)).pieces), cleanup, clientTakes);
        TypedUsage(c, req, EventsOf(Frame(Concat(upstream)).pieces), cleanup, clientTakes);
      } else {
        ProxyReadsTheUpstreamUsage(c, req, Concat(upstream), cleanup, clientTakes);
      }
    }
  }
}
