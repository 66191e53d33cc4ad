/**
 * Incremental framing of an upstream event stream: a byte buffer is cut at
 * blank lines, and each block read into an event.
 */
module SseFraming {
  import opened Outcomes
  import opened Text
  import opened Utf8

  const LF: byte := 10
  const CR: byte := 13

  // --- delimiters ---

  /** The width of the delimiter that starts at i, zero when none does. */
  function DelimiterAt(s: seq<byte>, i: nat): (width: nat) {
    if i + 2 <= |s| && s[i] == LF && s[i + 1] == LF then 2
    else if i + 4 <= |s| && s[i] == CR && s[i + 1] == LF && s[i + 2] == CR && s[i + 3] == LF then 4
    else 0
  }

  predicate Undelimited(s: seq<byte>, upTo: nat) {
    forall i :: 0 <= i < upTo ==> DelimiterAt(s, i) == 0
  }

  /** The first delimiter at or after an index; the length when there is none. */
  function DelimiterFrom(s: seq<byte>, from: nat): (i: nat)
    requires from <= |s|
    ensures from <= i <= |s|
    ensures i < |s| ==> DelimiterAt(s, i) > 0 && i + DelimiterAt(s, i) <= |s|
    ensures forall j :: from <= j < i ==> DelimiterAt(s, j) == 0
    decreases |s| - from
  {
    if from == |s| || DelimiterAt(s, from) > 0 then from else DelimiterFrom(s, from + 1)
  }

  predicate FoundAt(s: seq<byte>, idx: nat, width: nat) {
    idx == DelimiterFrom(s, 0) < |s| && width == DelimiterAt(s, idx)
  }

  /** The scan for the first delimiter and its width. */
  method FindSseDelimiter(buffer: seq<byte>) returns (found: Option<(nat, nat)>)
    ensures found.Some? <==> HasDelimiter(buffer)
    ensures found.Some? ==> FoundAt(buffer, found.value.0, found.value.1)
  {
    if |buffer| < 2 {
      return None;
    }
    for idx := 0 to |buffer| - 1
      invariant Undelimited(buffer, idx)
    {
      if buffer[idx] == LF && buffer[idx + 1] == LF {
        assert DelimiterAt(buffer, idx) == 2;
        return Some((idx, 2));
      }
      if idx + 3 < |buffer| && buffer[idx] == CR && buffer[idx + 1] == LF
        && buffer[idx + 2] == CR && buffer[idx + 3] == LF
      {
        assert DelimiterAt(buffer, idx) == 4;
        return Some((idx, 4));
      }
    }
    return None;
  }

  // --- framing ---

  datatype Piece = Piece(raw: seq<byte>, delimiter: seq<byte>)
  datatype Framed = Framed(pieces: seq<Piece>, rest: seq<byte>)

  function Spelled(pieces: seq<Piece>): seq<byte> {
    if pieces == [] then [] else pieces[0].raw + pieces[0].delimiter + Spelled(pieces[1..])
  }

  predicate HasDelimiter(s: seq<byte>) {
    DelimiterFrom(s, 0) < |s|
  }

  /** The first block of a buffer, with its delimiter. */
  function Head(s: seq<byte>): (p: Piece)
    requires HasDelimiter(s)
  {
    var i := DelimiterFrom(s, 0);
    Piece(s[..i], s[i..i + DelimiterAt(s, i)])
  }

  function Tail(s: seq<byte>): (t: seq<byte>)
    requires HasDelimiter(s)
    ensures |t| < |s|
  {
    var i := DelimiterFrom(s, 0);
    s[i + DelimiterAt(s, i)..]
  }

  function Prepend(p: Piece, f: Framed): Framed {
    Framed([p] + f.pieces, f.rest)
  }

  function Frame(s: seq<byte>): (f: Framed)
    decreases |s|
  {
    if HasDelimiter(s) then Prepend(Head(s), Frame(Tail(s))) else Framed([], s)
  }

  /** A block ends where its first delimiter starts. */
  predicate IsPiece(p: Piece) {
    FoundAt(p.raw + p.delimiter, |p.raw|, |p.delimiter|)
  }

  predicate ArePieces(pieces: seq<Piece>) {
    forall i :: 0 <= i < |pieces| ==> IsPiece(pieces[i])
  }

  lemma DelimiterIsFirst(s: seq<byte>, i: nat)
    requires i < |s| && DelimiterAt(s, i) > 0 && Undelimited(s, i)
    ensures DelimiterFrom(s, 0) == i
  {
  }

  lemma NoEarlierDelimiter(s: seq<byte>, later: seq<byte>, i: nat, j: nat)
    requires j < i < |s| && DelimiterAt(s, i) > 0 && DelimiterAt(s, j) == 0
    ensures DelimiterAt(s + later, j) == 0
  {
    var t := s + later;
    assert t[i] == s[i] && t[i + 1] == s[i + 1];
    assert t[j] == s[j] && t[j + 1] == s[j + 1];
    assert j + 2 < |s| && t[j + 2] == s[j + 2];
    if j + 3 < |s| {
      assert t[j + 3] == s[j + 3];
    }
  }

  // Bytes that arrive later never move a delimiter already found: one that
  // straddles the end of the buffer would have to start after it.
  lemma DelimiterIsStable(s: seq<byte>, later: seq<byte>)
    requires HasDelimiter(s)
    ensures DelimiterFrom(s + later, 0) == DelimiterFrom(s, 0)
    ensures DelimiterAt(s + later, DelimiterFrom(s, 0)) == DelimiterAt(s, DelimiterFrom(s, 0))
  {
    var i := DelimiterFrom(s, 0);
    forall j | 0 <= j < i ensures DelimiterAt(s + later, j) == 0 {
      NoEarlierDelimiter(s, later, i, j);
    }
    DelimiterIsFirst(s + later, i);
  }

  /** A delimiter already in the buffer is cut there, whatever follows. */
  lemma CutIsStable(s: seq<byte>, later: seq<byte>)
    requires HasDelimiter(s)
    ensures HasDelimiter(s + later)
    ensures Head(s + later) == Head(s) && Tail(s + later) == Tail(s) + later
  {
    DelimiterIsStable(s, later);
    var i := DelimiterFrom(s, 0);
    var j := i + DelimiterAt(s, i);
    assert (s + later)[..i] == s[..i];
    assert (s + later)[i..j] == s[i..j];
    assert (s + later)[j..] == s[j..] + later;
  }

  lemma NarrowUndelimited(s: seq<byte>, i: nat, j: nat)
    requires j <= |s| && DelimiterAt(s, i) == 0
    ensures DelimiterAt(s[..j], i) == 0
  {
  }

  lemma HeadThenTail(s: seq<byte>)
    requires HasDelimiter(s)
    ensures s == Head(s).raw + Head(s).delimiter + Tail(s)
  {
  }

  lemma NarrowFirst(s: seq<byte>, i: nat, j: nat)
    requires i == DelimiterFrom(s, 0) < |s| && j == i + DelimiterAt(s, i)
    ensures DelimiterFrom(s[..j], 0) == i && DelimiterAt(s[..j], i) == j - i
  {
    forall k | 0 <= k < i ensures DelimiterAt(s[..j], k) == 0 {
      NarrowUndelimited(s, k, j);
    }
    DelimiterIsFirst(s[..j], i);
  }

  lemma HeadIsAPiece(s: seq<byte>)
    requires HasDelimiter(s)
    ensures IsPiece(Head(s))
  {
    var i := DelimiterFrom(s, 0);
    var j := i + DelimiterAt(s, i);
    NarrowFirst(s, i, j);
    assert s[..i] + s[i..j] == s[..j];
  }

  lemma FrameOfPiece(p: Piece, tail: seq<byte>)
    requires IsPiece(p)
    ensures Frame(p.raw + p.delimiter + tail) == Prepend(p, Frame(tail))
  {
    var s := p.raw + p.delimiter;
    CutIsStable(s, tail);
    assert [] + tail == tail;
  }

  lemma SpelledPrepend(p: Piece, f: Framed)
    ensures Spelled(Prepend(p, f).pieces) + Prepend(p, f).rest == p.raw + p.delimiter + (Spelled(f.pieces) + f.rest)
    ensures IsPiece(p) && ArePieces(f.pieces) ==> ArePieces(Prepend(p, f).pieces)
  {
    assert Prepend(p, f).pieces[1..] == f.pieces;
  }

  /** Blocks, delimiters and leftover spell the input, and each is cut at its first delimiter. */
  lemma {:induction false} FramingSpellsTheInput(s: seq<byte>)
    ensures Spelled(Frame(s).pieces) + Frame(s).rest == s
    ensures ArePieces(Frame(s).pieces) && !HasDelimiter(Frame(s).rest)
    decreases |s|
  {
    if HasDelimiter(s) {
      HeadThenTail(s);
      HeadIsAPiece(s);
      FramingSpellsTheInput(Tail(s));
      SpelledPrepend(Head(s), Frame(Tail(s)));
    }
  }

  /** No other way of cutting the input does that. */
  lemma {:induction false} FramingIsUnique(pieces: seq<Piece>, rest: seq<byte>)
    requires ArePieces(pieces) && !HasDelimiter(rest)
    ensures Frame(Spelled(pieces) + rest) == Framed(pieces, rest)
    decreases |pieces|
  {
    if pieces == [] {
      assert Spelled(pieces) + rest == rest;
    } else {
      var p, f := pieces[0], Framed(pieces[1..], rest);
      FramingIsUnique(f.pieces, rest);
      SpelledPrepend(p, f);
      assert Prepend(p, f) == Framed(pieces, rest);
      FrameOfPiece(p, Spelled(f.pieces) + rest);
    }
  }

  /** Framing may stop at the end of any chunk and go on from its leftover. */
  lemma {:induction false} FramingResumes(s: seq<byte>, later: seq<byte>)
    ensures var f := Frame(s);
      var g := Frame(f.rest + later);
      Frame(s + later) == Framed(f.pieces + g.pieces, g.rest)
    decreases |s|
  {
    if HasDelimiter(s) {
      FramingResumes(Tail(s), later);
      CutIsStable(s, later);
      var f := Frame(Tail(s));
      var g := Frame(f.rest + later);
      assert [Head(s)] + (f.pieces + g.pieces) == [Head(s)] + f.pieces + g.pieces;
    } else {
      var g := Frame(s + later);
      assert [] + g.pieces == g.pieces;
    }
  }

  // --- events ---

  /** The blocks that are not blank, decoded. */
  function EventsOf(pieces: seq<Piece>): seq<string> {
    if pieces == [] then []
    else
      var raw := Decode(pieces[0].raw);
      EventIn(raw) + EventsOf(pieces[1..])
  }

  /** A block that is blank is no event. */
  function EventIn(raw: string): seq<string> {
    if Trim(raw) == "" then [] else [raw]
  }

  /** Of a stream, these events were taken and this much is left to cut. */
  predicate Drained(all: seq<byte>, events: seq<string>, left: seq<byte>) {
    && EventsOf(Frame(all).pieces) == events + EventsOf(Frame(left).pieces)
    && Frame(all).rest == Frame(left).rest
  }

  lemma HeadAndTailAt(s: seq<byte>, idx: nat, width: nat)
    requires FoundAt(s, idx, width)
    ensures HasDelimiter(s) && idx + width <= |s| && width > 0
    ensures Head(s).raw == s[..idx] && Tail(s) == s[idx + width..]
  {
  }

  lemma DrainOne(all: seq<byte>, events: seq<string>, s: seq<byte>, idx: nat, width: nat)
    requires Drained(all, events, s) && FoundAt(s, idx, width)
    ensures idx + width <= |s| && |s[idx + width..]| < |s|
    ensures Drained(all, events + EventIn(Decode(s[..idx])), s[idx + width..])
  {
    HeadAndTailAt(s, idx, width);
    EventsOfPrepend(Head(s), Frame(Tail(s)));
  }

  lemma EventsOfPrepend(p: Piece, f: Framed)
    ensures EventsOf(Prepend(p, f).pieces) == EventIn(Decode(p.raw)) + EventsOf(f.pieces)
  {
    assert Prepend(p, f).pieces[1..] == f.pieces;
  }

  /** The byte buffer a response body is collected in. */
  class StreamBuffer {
    var bytes: seq<byte>

    constructor ()
      ensures bytes == []
    {
      bytes := [];
    }

    method Extend(chunk: seq<byte>)
      modifies this
      ensures bytes == old(bytes) + chunk
    {
      bytes := bytes + chunk;
    }

    /** Removes every finished block and returns those that are not blank. */
    method DrainSseEvents() returns (events: seq<string>)
      modifies this
      ensures events == EventsOf(Frame(old(bytes)).pieces)
      ensures bytes == Frame(old(bytes)).rest
    {
      events := [];
      var found := FindSseDelimiter(bytes);
      while found.Some?
        invariant found.Some? <==> HasDelimiter(bytes)
        invariant found.Some? ==> FoundAt(bytes, found.value.0, found.value.1)
        invariant Drained(old(bytes), events, bytes)
        decreases |bytes|
      {
        var (idx, width) := found.value;
        DrainOne(old(bytes), events, bytes, idx, width);
        var raw := Decode(bytes[..idx]);
        bytes := bytes[idx + width..];
        events := events + EventIn(raw);
        found := FindSseDelimiter(bytes);
      }
    }
  }

  // --- chunked input ---

  function Concat(chunks: seq<seq<byte>>): seq<byte> {
    if chunks == [] then [] else chunks[0] + Concat(chunks[1..])
  }

  /** The blocks one buffer yields over a list of chunks, drained after each. */
  function FrameChunks(buffer: seq<byte>, chunks: seq<seq<byte>>): Framed
    decreases |chunks|
  {
    if chunks == [] then Framed([], buffer)
    else
      var f := Frame(buffer + chunks[0]);
      var g := FrameChunks(f.rest, chunks[1..]);
      Framed(f.pieces + g.pieces, g.rest)
  }

  /** Draining after every chunk yields the blocks and the leftover of the whole stream. */
  lemma {:induction false} ChunksFrameAsOne(buffer: seq<byte>, chunks: seq<seq<byte>>)
    requires !HasDelimiter(buffer)
    ensures FrameChunks(buffer, chunks) == Frame(buffer + Concat(chunks))
    decreases |chunks|
  {
    if chunks == [] {
      assert buffer + [] == buffer;
    } else {
      var s, later := buffer + chunks[0], Concat(chunks[1..]);
      LeftoverHasNoDelimiter(s);
      ChunksFrameAsOne(Frame(s).rest, chunks[1..]);
      FramingResumes(s, later);
      ChunkThenRest(buffer, chunks[0], later);
    }
  }

  lemma ChunkThenRest(buffer: seq<byte>, chunk: seq<byte>, later: seq<byte>)
    ensures buffer + (chunk + later) == buffer + chunk + later
  {
  }

  lemma LeftoverHasNoDelimiter(s: seq<byte>)
    ensures !HasDelimiter(Frame(s).rest)
  {
    FramingSpellsTheInput(s);
  }

  /** The events and the leftover are a function of the bytes alone. */
  lemma DrainingIgnoresChunkBoundaries(a: seq<seq<byte>>, b: seq<seq<byte>>)
    requires Concat(a) == Concat(b)
    ensures EventsOf(FrameChunks([], a).pieces) == EventsOf(FrameChunks([], b).pieces)
    ensures FrameChunks([], a).rest == FrameChunks([], b).rest
  {
    ChunksFrameAsOne([], a);
    ChunksFrameAsOne([], b);
    assert [] + Concat(a) == [] + Concat(b);
  }

  // --- fields ---

  /** The fields collected so far: the event name and the data lines. */
  datatype Fields = Fields(name: Option<string>, data: seq<string>)
  datatype SseEvent = SseEvent(name: Option<string>, data: string)

  const NO_FIELDS := Fields(None, [])

  /** The effect of one line that is not empty. */
  function ReadField(f: Fields, line: string): Fields {
    match DropPrefix(line, "event:")
    case Some(name) => f.(name := Some(DropSpace(name)))
    case None =>
      match DropPrefix(line, "data:")
      case Some(data) => f.(data := f.data + [DropSpace(data)])
      case None => f
  }

  function ReadLines(f: Fields, lines: seq<string>): Fields
    decreases |lines|
  {
    if lines == [] then f else ReadLines(ReadField(f, DropReturn(lines[0])), lines[1..])
  }

  /** The fields of a block. */
  function FieldsOf(raw: string): Fields {
    ReadLines(NO_FIELDS, Lines(raw))
  }

  function EventOf(f: Fields): SseEvent {
    SseEvent(f.name, Join(f.data, "\n"))
  }

  method ParseSseEvent(raw: string) returns (event: SseEvent)
    ensures event == EventOf(FieldsOf(raw))
  {
    var name: Option<string>, dataLines := None, [];
    var lines := Lines(raw);
    for i := 0 to |lines|
      invariant ReadLines(Fields(name, dataLines), lines[i..]) == FieldsOf(raw)
    {
      assert lines[i..][1..] == lines[i + 1..];
      var line := DropReturn(lines[i]);
      var field := DropPrefix(line, "event:");
      if field.Some? {
        name := Some(DropSpace(field.value));
        continue;
      }
      field := DropPrefix(line, "data:");
      if field.Some? {
        dataLines := dataLines + [DropSpace(field.value)];
      }
    }
    event := SseEvent(name, Join(dataLines, "\n"));
  }
}
