/**
 * The event-stream decoder of the tail command: it reads line by line and
 * hands a message out at each blank line.
 */
module SseDecoding {
  import opened Outcomes
  import opened Text
  import opened Utf8
  import opened SseFraming

  function LineEnd(s: seq<byte>): (i: nat)
    ensures i <= |s|
    ensures i < |s| ==> s[i] == LF
    ensures forall j :: 0 <= j < i ==> s[j] != LF
  {
    if s == [] || s[0] == LF then 0 else 1 + LineEnd(s[1..])
  }

  /** The message the collected fields make, if any field was seen. */
  function MessageOf(f: Fields): (m: Option<SseEvent>) {
    if f == NO_FIELDS then None else Some(EventOf(f))
  }

  function Listed<T>(o: Option<T>): seq<T> {
    match o case None => [] case Some(x) => [x]
  }

  function Take(f: Fields): seq<SseEvent> {
    Listed(MessageOf(f))
  }

  /** What is pushed out so far, the unfinished line, the fields collected. */
  datatype Fed = Fed(messages: seq<SseEvent>, buffer: seq<byte>, fields: Fields)

  function LineOf(s: seq<byte>): string {
    DropReturn(Decode(s))
  }

  function MessagesAt(f: Fields, line: string): seq<SseEvent> {
    if line == "" then Take(f) else []
  }

  function FieldsAfter(f: Fields, line: string): Fields {
    if line == "" then NO_FIELDS else ReadField(f, line)
  }

  function Emit(messages: seq<SseEvent>, d: Fed): Fed {
    d.(messages := messages + d.messages)
  }

  function FirstLine(s: seq<byte>): string {
    LineOf(s[..LineEnd(s)])
  }

  function NextLines(s: seq<byte>): (t: seq<byte>)
    requires LineEnd(s) < |s|
    ensures |t| < |s|
  {
    s[LineEnd(s) + 1..]
  }

  /** All finished lines of a buffer, read one after the other. */
  function Feed(f: Fields, s: seq<byte>): (d: Fed)
    decreases |s|
  {
    if LineEnd(s) == |s| then Fed([], s, f)
    else Emit(MessagesAt(f, FirstLine(s)), Feed(FieldsAfter(f, FirstLine(s)), NextLines(s)))
  }

  /** What the end of the stream pushes out: the unfinished line is ended once. */
  function Finished(f: Fields, buffer: seq<byte>): seq<SseEvent> {
    if buffer != [] then Feed(f, buffer + [LF]).messages else Take(f)
  }

  method FindLineEnd(s: seq<byte>) returns (i: nat)
    ensures i == LineEnd(s)
  {
    i := 0;
    while i < |s| && s[i] != LF
      invariant i <= |s| && LineEnd(s) == i + LineEnd(s[i..])
    {
      i := i + 1;
    }
  }

  class SseDecoder {
    var buffer: seq<byte>
    var currentEvent: Option<string>
    var currentData: seq<string>

    ghost function Current(): Fields
      reads this
    {
      Fields(currentEvent, currentData)
    }

    constructor ()
      ensures buffer == [] && Current() == NO_FIELDS
    {
      buffer, currentEvent, currentData := [], None, [];
    }

    method TakeMessage() returns (message: Option<SseEvent>)
      modifies this`currentEvent, this`currentData
      ensures message == MessageOf(old(Current())) && Current() == NO_FIELDS
    {
      if currentEvent.None? && currentData == [] {
        return None;
      }
      var event, data := currentEvent, Join(currentData, "\n");
      currentEvent, currentData := None, [];
      message := Some(SseEvent(event, data));
    }

    method ReadLine(line: string) returns (message: Option<SseEvent>)
      modifies this`currentEvent, this`currentData
      ensures Listed(message) == MessagesAt(old(Current()), line)
      ensures Current() == FieldsAfter(old(Current()), line)
    {
      message := None;
      if line == "" {
        message := TakeMessage();
        return;
      }
      var field := DropPrefix(line, "event:");
      if field.Some? {
        currentEvent := Some(DropSpace(field.value));
        return;
      }
      field := DropPrefix(line, "data:");
      if field.Some? {
        currentData := currentData + [DropSpace(field.value)];
      }
    }

    method Push(chunk: seq<byte>) returns (messages: seq<SseEvent>)
      modifies this
      ensures Fed(messages, buffer, Current()) == Feed(old(Current()), old(buffer) + chunk)
    {
      buffer := buffer + chunk;
      messages := [];
      EmitNothing(Feed(Current(), buffer));
      var index := FindLineEnd(buffer);
      while index < |buffer|
        invariant index == LineEnd(buffer)
        invariant Emit(messages, Feed(Current(), buffer)) == Feed(old(Current()), old(buffer) + chunk)
        decreases |buffer|
      {
        var line := DropReturn(Decode(buffer[..index]));
        ghost var f := Current();
        EmitTwice(messages, MessagesAt(f, line), Feed(FieldsAfter(f, line), NextLines(buffer)));
        buffer := buffer[index + 1..];
        var message := ReadLine(line);
        messages := messages + Listed(message);
        index := FindLineEnd(buffer);
      }
    }

    method Finish() returns (messages: seq<SseEvent>)
      modifies this
      ensures messages == Finished(old(Current()), old(buffer))
    {
      if buffer != [] {
        buffer := buffer + [LF];
        assert buffer + [] == buffer;
        messages := Push([]);
        return;
      }
      var message := TakeMessage();
      messages := Listed(message);
    }
  }

  lemma EmitTwice(a: seq<SseEvent>, b: seq<SseEvent>, d: Fed)
    ensures Emit(a, Emit(b, d)) == Emit(a + b, d)
  {
    assert a + (b + d.messages) == a + b + d.messages;
  }

  lemma EmitNothing(d: Fed)
    ensures Emit([], d) == d
  {
    assert [] + d.messages == d.messages;
  }

  // --- chunks ---

  lemma LineEndIs(s: seq<byte>, i: nat)
    requires i < |s| && s[i] == LF && forall j :: 0 <= j < i ==> s[j] != LF
    ensures LineEnd(s) == i
  {
  }

  lemma NoLineEnd(s: seq<byte>)
    ensures LineEnd(s) == |s| <==> LF !in s
  {
  }

  lemma LineIsStable(s: seq<byte>, later: seq<byte>)
    requires LineEnd(s) < |s|
    ensures LineEnd(s + later) == LineEnd(s) < |s + later|
    ensures FirstLine(s + later) == FirstLine(s) && NextLines(s + later) == NextLines(s) + later
  {
    LineEndIs(s + later, LineEnd(s));
    LineCut(s, later, LineEnd(s));
  }

  lemma LineCut(s: seq<byte>, later: seq<byte>, i: nat)
    requires i < |s|
    ensures (s + later)[..i] == s[..i] && (s + later)[i + 1..] == s[i + 1..] + later
  {
  }

  /** Reading may stop at the end of any chunk and go on from its state. */
  lemma {:induction false} FeedResumes(f: Fields, s: seq<byte>, later: seq<byte>)
    ensures var d := Feed(f, s);
      Feed(f, s + later) == Emit(d.messages, Feed(d.fields, d.buffer + later))
    decreases |s|
  {
    if LineEnd(s) < |s| {
      LineIsStable(s, later);
      var messages, g := MessagesAt(f, FirstLine(s)), FieldsAfter(f, FirstLine(s));
      FeedResumes(g, NextLines(s), later);
      var d := Feed(g, NextLines(s));
      EmitTwice(messages, d.messages, Feed(d.fields, d.buffer + later));
    } else {
      EmitNothing(Feed(f, s + later));
    }
  }

  lemma {:induction false} LeftoverHasNoLineEnd(f: Fields, s: seq<byte>)
    ensures LF !in Feed(f, s).buffer
    decreases |s|
  {
    if LineEnd(s) < |s| {
      LeftoverHasNoLineEnd(FieldsAfter(f, FirstLine(s)), NextLines(s));
    } else {
      NoLineEnd(s);
    }
  }

  function FeedChunks(f: Fields, buffer: seq<byte>, chunks: seq<seq<byte>>): Fed
    decreases |chunks|
  {
    if chunks == [] then Fed([], buffer, f)
    else
      var d := Feed(f, buffer + chunks[0]);
      Emit(d.messages, FeedChunks(d.fields, d.buffer, chunks[1..]))
  }

  lemma {:induction false} ChunksFeedAsOne(f: Fields, buffer: seq<byte>, chunks: seq<seq<byte>>)
    requires LF !in buffer
    ensures FeedChunks(f, buffer, chunks) == Feed(f, buffer + Concat(chunks))
    decreases |chunks|
  {
    if chunks == [] {
      assert buffer + [] == buffer;
      NoLineEnd(buffer);
    } else {
      var s, later := buffer + chunks[0], Concat(chunks[1..]);
      LeftoverHasNoLineEnd(f, s);
      var d := Feed(f, s);
      ChunksFeedAsOne(d.fields, d.buffer, chunks[1..]);
      FeedResumes(f, s, later);
      ConcatFirst(buffer, chunks);
    }
  }

  lemma ConcatFirst(buffer: seq<byte>, chunks: seq<seq<byte>>)
    requires chunks != []
    ensures buffer + Concat(chunks) == buffer + chunks[0] + Concat(chunks[1..])
  {
  }

  /** The messages, the leftover and the fields are a function of the bytes alone. */
  lemma PushingIgnoresChunkBoundaries(a: seq<seq<byte>>, b: seq<seq<byte>>)
    requires Concat(a) == Concat(b)
    ensures FeedChunks(NO_FIELDS, [], a) == FeedChunks(NO_FIELDS, [], b)
  {
    ChunksFeedAsOne(NO_FIELDS, [], a);
    ChunksFeedAsOne(NO_FIELDS, [], b);
    assert [] + Concat(a) == [] + Concat(b);
  }

  // --- the end of the stream ---

  /** A buffer the end of the stream reads as a blank line. */
  predicate ReadsBlank(buffer: seq<byte>) {
    buffer == [] || buffer == [CR]
  }

  lemma BlankLine(s: seq<byte>)
    ensures LineOf(s) == "" <==> ReadsBlank(s)
  {
    if s != [] {
      var d, last := Decode(s), s[|s| - 1];
      DecodeKeepsTheEnd(s, CR);
      if last == CR {
        assert s == s[..|s| - 1] + [CR] + [];
        DecodeSplitsAtAscii(s[..|s| - 1], CR, []);
        EmptyDecodesEmpty(s[..|s| - 1]);
      }
    }
  }

  lemma FeedOneLine(f: Fields, s: seq<byte>, rest: seq<byte>)
    requires LF !in s
    ensures Feed(f, s + [LF] + rest) == Emit(MessagesAt(f, LineOf(s)), Feed(FieldsAfter(f, LineOf(s)), rest))
  {
    var t := s + [LF] + rest;
    assert t[..|s|] == s && t[|s| + 1..] == rest;
    LineEndIs(t, |s|);
  }

  /**
   * Finish delivers what a closing blank line would have delivered exactly when
   * the last line was finished or leaves no field behind; otherwise the whole
   * pending message is lost.
   */
  lemma FinishDeliversThePendingMessage(f: Fields, buffer: seq<byte>)
    requires LF !in buffer
    ensures Finished(f, buffer) == Feed(f, buffer + [LF, LF]).messages <==>
      ReadsBlank(buffer) || ReadField(f, LineOf(buffer)) == NO_FIELDS
    ensures !ReadsBlank(buffer) ==> Finished(f, buffer) == []
  {
    BlankLine(buffer);
    FinishedFeeds(f, buffer);
    ClosedFeeds(f, buffer);
    assert Take(NO_FIELDS) == [] && [] + Take(NO_FIELDS) == [];
  }

  lemma FinishedFeeds(f: Fields, buffer: seq<byte>)
    requires LF !in buffer
    ensures Finished(f, buffer) == if buffer == [] then Take(f) else MessagesAt(f, LineOf(buffer))
  {
    FeedOneLine(f, buffer, []);
    assert buffer + [LF] + [] == buffer + [LF];
    var g := FieldsAfter(f, LineOf(buffer));
    assert Feed(g, []).messages == [];
    assert MessagesAt(f, LineOf(buffer)) + [] == MessagesAt(f, LineOf(buffer));
  }

  lemma ClosedFeeds(f: Fields, buffer: seq<byte>)
    requires LF !in buffer
    ensures Feed(f, buffer + [LF, LF]).messages
      == MessagesAt(f, LineOf(buffer)) + Take(FieldsAfter(f, LineOf(buffer)))
  {
    var g := FieldsAfter(f, LineOf(buffer));
    FeedOneLine(f, buffer, [LF]);
    assert buffer + [LF] + [LF] == buffer + [LF, LF];
    FeedOneLine(g, [], []);
    assert [] + [LF] + [] == [LF];
    BlankLine([]);
    assert Feed(NO_FIELDS, []).messages == [];
    assert Take(g) + [] == Take(g);
  }

  lemma ReadsDataX(text: string)
    requires text == "data:x"
    ensures LF !in Encode(text) && LineOf(Encode(text)) == text && ReadField(NO_FIELDS, text) != NO_FIELDS
  {
    DecodeUndoesEncode(text);
    DecodeAddsNoAscii(Encode(text), LF);
    assert text[0] != "event:"[0] && "data:" <= text;
  }

  lemma UnfinishedFieldIsLost(buffer: seq<byte>)
    requires LF !in buffer && LineOf(buffer) != "" && ReadField(NO_FIELDS, LineOf(buffer)) != NO_FIELDS
    ensures Finished(NO_FIELDS, buffer) == [] && Feed(NO_FIELDS, buffer + [LF, LF]).messages != []
  {
    BlankLine(buffer);
    FinishDeliversThePendingMessage(NO_FIELDS, buffer);
  }

  lemma UnfinishedDataIsLost()
    ensures var buffer := Encode("data:x");
      Finished(NO_FIELDS, buffer) == [] && Feed(NO_FIELDS, buffer + [LF, LF]).messages != []
  {
    ReadsDataX("data:x");
    UnfinishedFieldIsLost(Encode("data:x"));
  }
}
