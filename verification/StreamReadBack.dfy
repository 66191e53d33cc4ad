/**
 * The bytes of a translated stream, read again as an event stream: one event for
 * each chunk, that holds the chunk.
 */
module StreamReadBack {
  import opened Outcomes
  import opened Text
  import opened Utf8
  import opened Payloads
  import opened SseFraming
  import opened SseAgreement
  import opened StreamTranslation
  import opened StreamMeaning

  /** The text a chunk is sent as. */
  function PayloadText(c: Codec, k: Chunk): string {
    match k case Data(members) => c.render(Obj(members)) case Done => "[DONE]"
  }

  function Body(c: Codec, k: Chunk): string {
    "data: " + PayloadText(c, k)
  }

  /** The bytes of the lines, one after the other. */
  function Bytes(lines: seq<string>): seq<byte> {
    if lines == [] then [] else Encode(lines[0]) + Bytes(lines[1..])
  }

  lemma {:induction false} EncodeConcat(a: string, b: string)
    ensures Encode(a + b) == Encode(a) + Encode(b)
  {
    if a == "" {
      assert a + b == b && Encode(a) + Encode(b) == Encode(b);
    } else {
      assert (a + b)[0] == a[0] && (a + b)[1..] == a[1..] + b;
      EncodeConcat(a[1..], b);
      assert EncodeChar(a[0]) + (Encode(a[1..]) + Encode(b)) == EncodeChar(a[0]) + Encode(a[1..]) + Encode(b);
    }
  }

  lemma FeedsEncode(feeds: string)
    requires feeds == "\n\n"
    ensures Encode(feeds) == [LF] + [LF]
  {
    assert feeds[1..] == "\n" && feeds[1..][1..] == "";
    assert Encode("") == [] && Encode(feeds[1..]) == EncodeChar('\n') + [];
  }

  // --- one line ---

  lemma BlockOfBody(body: string, tail: seq<byte>)
    requires '\n' !in body
    ensures Frame(Encode(body + "\n\n") + tail) == Prepend(Piece(Encode(body), [LF] + [LF]), Frame(tail))
  {
    var raw := Encode(body);
    EncodeConcat(body, "\n\n");
    FeedsEncode("\n\n");
    DecodeUndoesEncode(body);
    DecodeAddsNoAscii(raw, LF);
    EndsAtTheFeeds(raw);
    FrameOfPiece(Piece(raw, [LF] + [LF]), tail);
  }

  lemma EndsAtTheFeeds(raw: seq<byte>)
    requires LF !in raw
    ensures IsPiece(Piece(raw, [LF] + [LF]))
  {
    var s, i := raw + ([LF] + [LF]), |raw|;
    assert s[i] == LF && s[i + 1] == LF && forall k :: 0 <= k < i ==> s[k] == raw[k];
    DelimiterIsFirst(s, i);
  }

  lemma BodyReads(c: Codec, k: Chunk)
    requires Lawful(c) && IsWritableChunk(c, k)
    ensures var body := Body(c, k);
      && '\n' !in body && Trim(body) != "" && ReadEvent(body) == SseEvent(None, PayloadText(c, k))
  {
    var text, body := PayloadText(c, k), Body(c, k);
    TextIsOneLine(c, k);
    assert forall i :: 0 <= i < |text| ==> body[6 + i] == text[i];
    assert body[|body| - 1] == text[|text| - 1];
    assert '\n' !in body;
    TrimsToItself(body);
    ReadsDataLine(body, text);
  }

  lemma TextIsOneLine(c: Codec, k: Chunk)
    requires Lawful(c) && IsWritableChunk(c, k)
    ensures var text := PayloadText(c, k);
      '\n' !in text && text != "" && !IsWhitespace(text[|text| - 1])
  {
    if k.Data? {
      assert ReadsBack(c, k.members);
    }
  }

  lemma ReadsDataLine(body: string, text: string)
    requires body == "data: " + text && '\n' !in body && DropReturn(body) == body
    ensures ReadEvent(body) == SseEvent(None, text)
  {
    assert body[0] != "event:"[0] && "data:" <= body && body[5..] == " " + text;
    assert (" " + text)[1..] == text;
    assert Lines(body) == [body];
    ReadLinesFirst(NO_FIELDS, body, []);
    assert [body] + [] == [body];
    assert ReadField(NO_FIELDS, body) == Fields(None, [text]);
  }

  // --- whole streams ---

  /** Reading the bytes of the sent lines gives an event for each chunk, in order, and nothing is left over. */
  lemma {:induction false} LinesReadBack(c: Codec, chunks: seq<Chunk>)
    requires Lawful(c) && AreWritable(c, chunks)
    ensures var f := Frame(Bytes(LinesOf(c, chunks)));
      && f.rest == [] && |EventsOf(f.pieces)| == |chunks|
      && forall i :: 0 <= i < |chunks| ==> ReadEvent(EventsOf(f.pieces)[i]) == SseEvent(None, PayloadText(c, chunks[i]))
  {
    if chunks != [] {
      var k, rest := chunks[0], chunks[1..];
      assert IsWritableChunk(c, k);
      LinesReadBack(c, rest);
      OneLineReadsBack(c, k, rest);
    }
  }

  lemma OneLineReadsBack(c: Codec, k: Chunk, rest: seq<Chunk>)
    requires Lawful(c) && IsWritableChunk(c, k)
    ensures var f, g := Frame(Bytes(LinesOf(c, [k] + rest))), Frame(Bytes(LinesOf(c, rest)));
      && f.rest == g.rest && EventsOf(f.pieces) == [Body(c, k)] + EventsOf(g.pieces)
      && ReadEvent(Body(c, k)) == SseEvent(None, PayloadText(c, k))
  {
    var tail := Bytes(LinesOf(c, rest));
    var lines := LinesOf(c, [k] + rest);
    assert ([k] + rest)[1..] == rest;
    assert lines[0] == Line(c, k) == Body(c, k) + "\n\n" && lines[1..] == LinesOf(c, rest);
    BodyReads(c, k);
    BlockOfBody(Body(c, k), tail);
    DecodeUndoesEncode(Body(c, k));
    EventsOfPrepend(Piece(Encode(Body(c, k)), [LF] + [LF]), Frame(tail));
  }

  /**
   * A client that cuts and parses the translated stream, as the translation does
   * the upstream's, reads exactly the chunks: the payload of each, and the marker
   * for the terminal one.
   */
  lemma TranslationReadsBack(c: Codec, req: Request, events: seq<SseEvent>, i: nat)
    requires Lawful(c) && i < |Translated(c, req, INITIAL, events)|
    ensures var chunks := Translated(c, req, INITIAL, events);
      var f := Frame(Bytes(LinesOf(c, chunks)));
      && f.rest == [] && |EventsOf(f.pieces)| == |chunks|
      && var e := ReadEvent(EventsOf(f.pieces)[i]);
         match chunks[i]
         case Done => IsDone(e.data)
         case Data(members) => PayloadOf(c, e) == Some(Obj(members))
  {
    var chunks := Translated(c, req, INITIAL, events);
    TranslatedIsWritable(c, req, INITIAL, events);
    LinesReadBack(c, chunks);
    assert IsWritableChunk(c, chunks[i]);
    PayloadIsReadBack(c, chunks[i]);
  }

  lemma PayloadIsReadBack(c: Codec, k: Chunk)
    requires Lawful(c) && IsWritableChunk(c, k)
    ensures match k
            case Done => IsDone(PayloadText(c, k))
            case Data(members) =>
              !IsDone(PayloadText(c, k)) && c.parse(PayloadText(c, k)) == Some(Obj(members))
  {
    match k {
      case Done =>
      case Data(members) =>
        var text := c.render(Obj(members));
        assert ReadsBack(c, members);
        assert LowerAscii(text[0]) != LowerAscii("[done]"[0]);
    }
  }
}
