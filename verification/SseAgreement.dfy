/** The two decoders hand out the same messages on plain line endings. */
module SseAgreement {
  import opened Text
  import opened Utf8
  import opened SseFraming
  import opened SseDecoding

  // --- line endings ---

  /** One carriage return at most ends a line, and a blank line ends as the line before it. */
  predicate PlainAt(s: seq<byte>, i: nat) {
    i + 2 < |s| && s[i + 1] == CR && s[i + 2] == LF ==>
      s[i] != CR && (s[i] == LF ==> i > 0 && s[i - 1] == CR)
  }

  predicate PlainEndings(s: seq<byte>) {
    forall i :: 0 <= i < |s| ==> PlainAt(s, i)
  }

  /** Every carriage return is part of a CR LF pair, and so is every line feed. */
  predicate ReturnsPair(s: seq<byte>) {
    forall i :: 0 <= i < |s| ==> PairedAt(s, i)
  }

  predicate PairedAt(s: seq<byte>, i: nat)
    requires i < |s|
  {
    && (s[i] == CR ==> i + 1 < |s| && s[i + 1] == LF)
    && (s[i] == LF ==> i > 0 && s[i - 1] == CR)
  }

  lemma UniformEndingsArePlain(s: seq<byte>)
    requires CR !in s || ReturnsPair(s)
    ensures PlainEndings(s)
  {
    forall i | 0 <= i < |s| ensures PlainAt(s, i) {
      assert i + 2 < |s| && s[i + 1] == CR ==> CR in s;
      assert ReturnsPair(s) ==> PairedAt(s, i);
    }
  }

  predicate StartsBlank(s: seq<byte>) {
    (|s| >= 1 && s[0] == LF) || (|s| >= 2 && s[0] == CR && s[1] == LF)
  }

  predicate Clean(t: seq<byte>) {
    PlainEndings(t) && !HasDelimiter(t)
  }

  predicate Ready(f: Fields, t: seq<byte>) {
    f == NO_FIELDS || !StartsBlank(t)
  }

  lemma Undelimits(s: seq<byte>)
    ensures !HasDelimiter(s) <==> Undelimited(s, |s|)
  {
  }

  lemma NextIsPlain(t: seq<byte>, k: nat)
    requires PlainEndings(t) && k <= |t|
    requires StartsBlank(t[k..]) && t[k] == LF ==> k == |t|
    ensures PlainEndings(t[k..])
  {
    var u := t[k..];
    forall i | 0 <= i < |u| ensures PlainAt(u, i) {
      assert PlainAt(t, k + i);
    }
  }

  lemma NextIsUndelimited(t: seq<byte>, k: nat)
    requires !HasDelimiter(t) && k <= |t|
    ensures !HasDelimiter(t[k..])
  {
    Undelimits(t);
    forall j | 0 <= j < |t| - k ensures DelimiterAt(t[k..], j) == 0 {
      assert DelimiterAt(t, k + j) == 0;
    }
    Undelimits(t[k..]);
  }

  // After a line end inside a block no blank line can follow.
  lemma NextIsNotBlank(t: seq<byte>, i: nat)
    requires Clean(t) && i < |t| && t[i] == LF
    ensures !StartsBlank(t[i + 1..])
  {
    Undelimits(t);
    assert DelimiterAt(t, i) == 0;
    assert PlainAt(t, i);
    assert i > 0 ==> DelimiterAt(t, i - 1) == 0;
  }

  lemma CleanNext(t: seq<byte>)
    requires Clean(t) && LineEnd(t) < |t|
    ensures Clean(NextLines(t)) && !StartsBlank(NextLines(t))
  {
    NextIsNotBlank(t, LineEnd(t));
    NextIsUndelimited(t, LineEnd(t) + 1);
    NextIsPlain(t, LineEnd(t) + 1);
  }

  lemma FirstIsBlank(t: seq<byte>)
    requires LineEnd(t) < |t|
    ensures FirstLine(t) == "" <==> StartsBlank(t)
  {
    BlankLine(t[..LineEnd(t)]);
  }

  // --- inside a block ---

  // A block with no blank line in it pushes nothing out.
  lemma {:induction false} BlocksAreQuiet(f: Fields, t: seq<byte>)
    requires Clean(t) && Ready(f, t)
    ensures Feed(f, t).messages == []
    decreases |t|
  {
    if LineEnd(t) < |t| {
      FirstIsBlank(t);
      CleanNext(t);
      BlocksAreQuiet(FieldsAfter(f, FirstLine(t)), NextLines(t));
    }
  }

  lemma LinesOfOne(s: seq<byte>)
    requires LF !in s
    ensures Lines(Decode(s)) == if s == [] then [] else [Decode(s)]
  {
    DecodeAddsNoAscii(s, LF);
    EmptyDecodesEmpty(s);
    var text := Decode(s);
    assert IndexOf(text, '\n') < |text| ==> '\n' in text;
  }

  lemma LinesOfFirst(a: string, b: string)
    requires '\n' !in a
    ensures Lines(a + "\n" + b) == [DropReturn(a)] + Lines(b)
  {
    var t := a + "\n" + b;
    assert t[|a|] == '\n';
    assert forall k :: 0 <= k < |a| ==> t[k] == a[k];
    assert IndexOf(t, '\n') == |a|;
    assert t[..|a|] == a && t[|a| + 1..] == b;
  }

  lemma LinesOfParts(a: seq<byte>, b: seq<byte>)
    requires LF !in a
    ensures Lines(Decode(a + [LF] + b)) == [LineOf(a)] + Lines(Decode(b))
  {
    DecodeSplitsAtAscii(a, LF, b);
    DecodeAddsNoAscii(a, LF);
    LinesOfFirst(Decode(a), Decode(b));
  }

  lemma LinesOfDecoded(raw: seq<byte>)
    requires LineEnd(raw) < |raw|
    ensures Lines(Decode(raw)) == [FirstLine(raw)] + Lines(Decode(NextLines(raw)))
  {
    SplitAtLine(raw);
    LinesOfParts(raw[..LineEnd(raw)], NextLines(raw));
  }

  lemma SplitAtLine(raw: seq<byte>)
    requires LineEnd(raw) < |raw|
    ensures LF !in raw[..LineEnd(raw)]
    ensures raw == raw[..LineEnd(raw)] + [LF] + NextLines(raw)
  {
    SplitAt(raw, LineEnd(raw));
  }

  lemma SplitAt(s: seq<byte>, i: nat)
    requires i < |s|
    ensures s == s[..i] + [s[i]] + s[i + 1..]
  {
  }

  lemma ReturnIsDropped(a: seq<byte>)
    ensures LineOf(a + [CR]) == Decode(a)
  {
    assert a + [CR] == a + [CR] + [];
    DecodeSplitsAtAscii(a, CR, []);
  }

  lemma NoReturnToDrop(a: seq<byte>)
    requires a == [] || a[|a| - 1] != CR
    ensures LineOf(a) == Decode(a)
  {
    if a != [] {
      DecodeKeepsTheEnd(a, CR);
    }
  }

  lemma DropReturnTwice(s: seq<byte>)
    requires |s| >= 2 ==> !(s[|s| - 2] == CR && s[|s| - 1] == CR)
    ensures DropReturn(LineOf(s)) == LineOf(s)
  {
    if s != [] && s[|s| - 1] == CR {
      var a := s[..|s| - 1];
      assert s == a + [CR];
      ReturnIsDropped(a);
      NoReturnToDrop(a);
    } else {
      NoReturnToDrop(s);
    }
  }

  predicate IsLineEnd(end: seq<byte>) {
    end == [LF] || end == [CR, LF]
  }

  // Of a block with one line end, at the end, the one line is the block, less its returns.
  lemma OnlyLine(raw: seq<byte>, end: seq<byte>)
    requires IsLineEnd(end) && LF !in raw && PlainEndings(raw + end)
    ensures LineEnd(raw + end) == |raw + end| - 1 && NextLines(raw + end) == []
    ensures FirstLine(raw + end) == LineOf(raw)
  {
    var t := raw + end;
    LineEndIs(t, |t| - 1);
    if end == [LF] {
      assert t[..|t| - 1] == raw;
    } else {
      assert raw != [] ==> PlainAt(t, |raw| - 1);
      assert t[..|t| - 1] == raw + [CR];
      ReturnIsDropped(raw);
      NoReturnToDrop(raw);
    }
  }

  lemma ReadLinesOfOne(f: Fields, raw: seq<byte>)
    requires LF !in raw
    ensures ReadLines(f, Lines(Decode(raw)))
      == if raw == [] then f else ReadField(f, DropReturn(Decode(raw)))
  {
    LinesOfOne(raw);
    if raw != [] {
      assert [Decode(raw)][1..] == [];
    }
  }

  lemma LastLine(f: Fields, raw: seq<byte>, end: seq<byte>)
    requires IsLineEnd(end) && LF !in raw
    requires Clean(raw + end) && Ready(f, raw + end)
    ensures Feed(f, raw + end) == Fed([], [], ReadLines(f, Lines(Decode(raw))))
  {
    OnlyLine(raw, end);
    FirstIsBlank(raw + end);
    ReadLinesOfOne(f, raw);
    EmptyDecodesEmpty(raw);
    assert ReadField(NO_FIELDS, "") == NO_FIELDS;
  }

  lemma FirstOfBlock(raw: seq<byte>, end: seq<byte>)
    requires LineEnd(raw) < |raw|
    ensures LineEnd(raw + end) == LineEnd(raw)
    ensures FirstLine(raw + end) == FirstLine(raw)
    ensures NextLines(raw + end) == NextLines(raw) + end
  {
    LineIsStable(raw, end);
  }

  lemma FirstDropsOnce(raw: seq<byte>)
    requires PlainEndings(raw) && LineEnd(raw) < |raw|
    ensures DropReturn(FirstLine(raw)) == FirstLine(raw)
  {
    var i := LineEnd(raw);
    assert i >= 2 ==> PlainAt(raw, i - 2);
    DropReturnTwice(raw[..i]);
  }

  lemma PrefixIsPlain(s: seq<byte>, k: nat)
    requires PlainEndings(s) && k <= |s|
    ensures PlainEndings(s[..k])
  {
    forall i | 0 <= i < k ensures PlainAt(s[..k], i) {
      assert PlainAt(s, i);
    }
  }

  // Read line by line, a block leaves the fields that parsing it gives.
  lemma {:induction false} BlockFeeds(f: Fields, raw: seq<byte>, end: seq<byte>)
    requires IsLineEnd(end) && Clean(raw + end) && Ready(f, raw + end)
    ensures Feed(f, raw + end) == Fed([], [], ReadLines(f, Lines(Decode(raw))))
    decreases |raw|
  {
    NoLineEnd(raw);
    if LineEnd(raw) == |raw| {
      LastLine(f, raw, end);
    } else {
      var t := raw + end;
      FirstOfBlock(raw, end);
      FirstIsBlank(t);
      CleanNext(t);
      var line := FirstLine(raw);
      assert ReadField(NO_FIELDS, "") == NO_FIELDS;
      assert FieldsAfter(f, line) == ReadField(f, line);
      assert MessagesAt(f, line) == [];
      BlockFeeds(ReadField(f, line), NextLines(raw), end);
      EmitNothing(Feed(ReadField(f, line), NextLines(t)));
      assert (raw + end)[..|raw|] == raw;
      PrefixIsPlain(t, |raw|);
      FirstDropsOnce(raw);
      LinesOfDecoded(raw);
      ReadLinesFirst(f, line, Lines(Decode(NextLines(raw))));
    }
  }

  lemma ReadLinesFirst(f: Fields, line: string, lines: seq<string>)
    requires DropReturn(line) == line
    ensures ReadLines(f, [line] + lines) == ReadLines(ReadField(f, line), lines)
  {
    assert ([line] + lines)[1..] == lines;
  }

  // --- blank blocks ---

  lemma BlankReadsNothing(line: string)
    requires IsBlank(line)
    ensures ReadField(NO_FIELDS, DropReturn(line)) == NO_FIELDS
  {
    var cut := DropReturn(line);
    assert cut != "" ==> IsWhitespace(cut[0]) && cut[0] != "event:"[0] && cut[0] != "data:"[0];
  }

  lemma {:induction false} BlankHoldsNoFields(text: string)
    requires IsBlank(text)
    ensures FieldsOf(text) == NO_FIELDS
    decreases |text|
  {
    if text != "" {
      var i := IndexOf(text, '\n');
      if i == |text| {
        BlankReadsNothing(text);
        assert ReadLines(NO_FIELDS, [text]) == ReadField(NO_FIELDS, DropReturn(text));
      } else {
        BlankReadsNothing(DropReturn(text[..i]));
        BlankHoldsNoFields(text[i + 1..]);
        assert Lines(text)[1..] == Lines(text[i + 1..]);
      }
    }
  }

  // --- whole streams ---

  /** The messages of the framed events; a block without fields makes none. */
  function Messages(events: seq<string>): seq<SseEvent> {
    if events == [] then [] else Take(FieldsOf(events[0])) + Messages(events[1..])
  }

  lemma MessagesOfBlock(raw: string, later: seq<string>)
    ensures Messages(EventIn(raw) + later) == Take(FieldsOf(raw)) + Messages(later)
  {
    TrimsToNothing(raw);
    if Trim(raw) == "" {
      BlankHoldsNoFields(raw);
      assert EventIn(raw) + later == later;
    } else {
      assert ([raw] + later)[1..] == later;
    }
  }

  lemma PieceEnds(p: Piece)
    requires IsPiece(p)
    ensures p.delimiter == [LF] + [LF] || p.delimiter == [CR, LF] + [CR, LF]
  {
    var s, i := p.raw + p.delimiter, |p.raw|;
    assert s[i..] == p.delimiter;
  }

  lemma BlockIsClean(p: Piece, end: seq<byte>)
    requires IsPiece(p) && IsLineEnd(end) && p.delimiter == end + end
    ensures !HasDelimiter(p.raw + end)
  {
    var s, t := p.raw + p.delimiter, p.raw + end;
    assert t == s[..|t|];
    forall j | 0 <= j < |t| ensures DelimiterAt(t, j) == 0 {
      if j < |p.raw| {
        NarrowUndelimited(s, j, |t|);
      }
    }
    Undelimits(t);
  }

  lemma BlankLineTakes(g: Fields, end: seq<byte>, tail: seq<byte>)
    requires IsLineEnd(end)
    ensures Feed(g, end + tail) == Emit(Take(g), Feed(NO_FIELDS, tail))
  {
    var s := end[..|end| - 1];
    assert s + [LF] + tail == end + tail;
    BlankLine(s);
    FeedOneLine(g, s, tail);
  }

  lemma TailIsPlain(head: seq<byte>, tail: seq<byte>)
    requires PlainEndings(head + tail) && head != [] && head[|head| - 1] == LF
    requires |head| >= 2 && (head[|head| - 2] == LF || head[|head| - 2] == CR)
    requires |head| >= 2 && head[|head| - 2] == CR ==> |head| >= 4 && head[|head| - 3] == LF && head[|head| - 4] == CR
    ensures PlainEndings(tail)
  {
    var s := head + tail;
    forall i | 0 <= i < |tail| ensures PlainAt(tail, i) {
      assert PlainAt(s, |head| + i);
      assert i > 0 ==> s[|head| + i - 1] == tail[i - 1];
    }
  }

  lemma FeedAfter(s: seq<byte>, g: Fields, later: seq<byte>)
    requires Feed(NO_FIELDS, s) == Fed([], [], g)
    ensures Feed(NO_FIELDS, s + later) == Feed(g, later)
  {
    FeedResumes(NO_FIELDS, s, later);
    assert [] + later == later;
    EmitNothing(Feed(g, later));
  }

  lemma OneBlock(p: Piece, end: seq<byte>, tail: seq<byte>)
    requires IsPiece(p) && IsLineEnd(end) && p.delimiter == end + end
    requires PlainEndings(p.raw + end)
    ensures Feed(NO_FIELDS, p.raw + p.delimiter + tail)
      == Emit(Take(FieldsOf(Decode(p.raw))), Feed(NO_FIELDS, tail))
  {
    BlockIsClean(p, end);
    BlockFeeds(NO_FIELDS, p.raw, end);
    Regroup(p.raw, end, tail);
    BlockAndBlankLine(p.raw + end, FieldsOf(Decode(p.raw)), end, tail);
  }

  lemma Regroup(raw: seq<byte>, end: seq<byte>, tail: seq<byte>)
    ensures raw + (end + end) + tail == raw + end + (end + tail)
  {
  }

  lemma BlockAndBlankLine(s: seq<byte>, g: Fields, end: seq<byte>, tail: seq<byte>)
    requires Feed(NO_FIELDS, s) == Fed([], [], g) && IsLineEnd(end)
    ensures Feed(NO_FIELDS, s + (end + tail)) == Emit(Take(g), Feed(NO_FIELDS, tail))
  {
    FeedAfter(s, g, end + tail);
    BlankLineTakes(g, end, tail);
  }

  /** The framed blocks and the line reader hand out the same messages, in the same order. */
  lemma {:induction false} DecodersAgree(s: seq<byte>)
    requires PlainEndings(s)
    ensures Messages(EventsOf(Frame(s).pieces)) == Feed(NO_FIELDS, s).messages
    decreases |s|
  {
    if HasDelimiter(s) {
      var p, tail := Head(s), Tail(s);
      HeadThenTail(s);
      HeadIsAPiece(s);
      PieceEnds(p);
      var end := if p.delimiter == [LF] + [LF] then [LF] else [CR, LF];
      BlockPrefixIsPlain(s, p, end, tail);
      OneBlock(p, end, tail);
      DecodersAgree(tail);
      EventsOfPrepend(p, Frame(tail));
      MessagesOfBlock(Decode(p.raw), EventsOf(Frame(tail).pieces));
    } else {
      BlocksAreQuiet(NO_FIELDS, s);
    }
  }

  lemma BlockPrefixIsPlain(s: seq<byte>, p: Piece, end: seq<byte>, tail: seq<byte>)
    requires PlainEndings(s) && s == p.raw + p.delimiter + tail
    requires IsLineEnd(end) && p.delimiter == end + end
    ensures PlainEndings(p.raw + end) && PlainEndings(tail)
  {
    assert s[..|p.raw + end|] == p.raw + end;
    PrefixIsPlain(s, |p.raw + end|);
    TailIsPlain(p.raw + p.delimiter, tail);
  }

  /** However the two readers are handed the bytes of one stream. */
  lemma ChunkedDecodersAgree(a: seq<seq<byte>>, b: seq<seq<byte>>)
    requires Concat(a) == Concat(b)
    requires CR !in Concat(a) || ReturnsPair(Concat(a))
    ensures Messages(EventsOf(FrameChunks([], a).pieces)) == FeedChunks(NO_FIELDS, [], b).messages
  {
    var s := Concat(a);
    assert [] + s == s;
    ChunksFrameAsOne([], a);
    ChunksFeedAsOne(NO_FIELDS, [], b);
    UniformEndingsArePlain(s);
    DecodersAgree(s);
  }

  /** Without plain endings they differ: CR LF ends a block after LF for the line reader alone. */
  lemma MixedEndingsDisagree(raw: seq<byte>)
    requires LF !in raw && CR !in raw && ReadField(NO_FIELDS, Decode(raw)) != NO_FIELDS
    ensures var s := raw + [LF] + [CR, LF];
      Frame(s).pieces == [] && |Feed(NO_FIELDS, s).messages| == 1
  {
    var s := raw + [LF] + [CR, LF];
    Undelimits(s);
    NoReturnToDrop(raw);
    BlankLine(raw);
    EmptyDecodesEmpty(raw);
    FeedOneLine(NO_FIELDS, raw, [CR, LF]);
    var g := ReadField(NO_FIELDS, Decode(raw));
    BlankLineTakes(g, [CR, LF], []);
    assert [CR, LF] + [] == [CR, LF];
    assert Feed(NO_FIELDS, []).messages == [];
  }
}
