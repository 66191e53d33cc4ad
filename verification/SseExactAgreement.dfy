/** Exactly when the two decoders agree, on any bytes whatever. */
module SseExactAgreement {
  import opened Text
  import opened Utf8
  import opened SseFraming
  import opened SseDecoding
  import opened SseAgreement

  // --- lines ---

  /** The finished lines of a byte string, decoded, with their carriage returns. */
  function LineTexts(t: seq<byte>): (lines: seq<string>)
    decreases |t|
  {
    if LineEnd(t) == |t| then [] else [Decode(t[..LineEnd(t)])] + LineTexts(NextLines(t))
  }

  predicate IsEventLine(line: string) {
    "event:" <= line
  }

  predicate IsDataLine(line: string) {
    "data:" <= line
  }

  predicate IsField(line: string) {
    IsEventLine(line) || IsDataLine(line)
  }

  predicate IsBlankLine(line: string) {
    DropReturn(line) == ""
  }

  lemma ReturnKeepsPrefix(line: string)
    ensures IsEventLine(DropReturn(line)) <==> IsEventLine(line)
    ensures IsDataLine(DropReturn(line)) <==> IsDataLine(line)
  {
    assert "event:"[5] == ':' && "data:"[4] == ':';
    if line != "" && line[|line| - 1] == '\r' {
      var cut := DropReturn(line);
      assert line == cut + "\r";
      assert IsEventLine(line) ==> |line| > 6;
      assert IsDataLine(line) ==> |line| > 5;
    }
  }

  lemma FieldsShow(f: Fields, line: string)
    ensures if IsField(line) then ReadField(f, line) != NO_FIELDS else ReadField(f, line) == f
  {
  }

  // --- the line reader over lines ---

  function Pushed(f: Fields, lines: seq<string>): seq<SseEvent>
    decreases |lines|
  {
    if lines == [] then []
    else
      var line := DropReturn(lines[0]);
      MessagesAt(f, line) + Pushed(FieldsAfter(f, line), lines[1..])
  }

  function Held(f: Fields, lines: seq<string>): Fields
    decreases |lines|
  {
    if lines == [] then f else Held(FieldsAfter(f, DropReturn(lines[0])), lines[1..])
  }

  lemma {:induction false} FeedReadsLines(f: Fields, t: seq<byte>)
    ensures Feed(f, t).messages == Pushed(f, LineTexts(t)) && Feed(f, t).fields == Held(f, LineTexts(t))
    decreases |t|
  {
    if LineEnd(t) < |t| {
      var lines := LineTexts(t);
      assert lines[0] == Decode(t[..LineEnd(t)]) && lines[1..] == LineTexts(NextLines(t));
      assert DropReturn(lines[0]) == FirstLine(t);
      FeedReadsLines(FieldsAfter(f, FirstLine(t)), NextLines(t));
    }
  }

  /** How many groups of field lines there are, blank lines apart; `open` when one has begun. */
  function FieldGroups(open: bool, lines: seq<string>): nat
    decreases |lines|
  {
    if lines == [] then if open then 1 else 0
    else if IsBlankLine(lines[0]) then (if open then 1 else 0) + FieldGroups(false, lines[1..])
    else FieldGroups(open || IsField(lines[0]), lines[1..])
  }

  /** How many of those a blank line ends. */
  function EndedGroups(open: bool, lines: seq<string>): nat
    decreases |lines|
  {
    if lines == [] then 0
    else if IsBlankLine(lines[0]) then (if open then 1 else 0) + EndedGroups(false, lines[1..])
    else EndedGroups(open || IsField(lines[0]), lines[1..])
  }

  lemma {:induction false} GroupsAreMessages(f: Fields, lines: seq<string>)
    ensures |Pushed(f, lines)| == EndedGroups(f != NO_FIELDS, lines)
    ensures |Pushed(f, lines) + Take(Held(f, lines))| == FieldGroups(f != NO_FIELDS, lines)
    decreases |lines|
  {
    if lines != [] {
      var line := DropReturn(lines[0]);
      ReturnKeepsPrefix(lines[0]);
      FieldsShow(f, line);
      GroupsAreMessages(FieldsAfter(f, line), lines[1..]);
    }
  }

  // --- all fields of a block at once ---

  function FieldsIn(f: Fields, lines: seq<string>): Fields
    decreases |lines|
  {
    if lines == [] then f else FieldsIn(ReadField(f, lines[0]), lines[1..])
  }

  /** The lines as the line reader takes them: one carriage return off each. */
  function ReaderLines(lines: seq<string>): (r: seq<string>)
    ensures |r| == |lines|
    ensures forall i :: 0 <= i < |lines| ==> r[i] == DropReturn(lines[i])
  {
    if lines == [] then [] else [DropReturn(lines[0])] + ReaderLines(lines[1..])
  }

  function BlockLine(line: string, bareEnd: bool): string {
    if bareEnd then DropReturn(line) else DropReturn(DropReturn(line))
  }

  /** The lines as block parsing takes them: two off each, but one off the last when a bare line feed
      ends it. */
  function BlockLines(lines: seq<string>, bareEnd: bool): (r: seq<string>)
    ensures |r| == |lines|
    ensures forall i :: 0 <= i < |lines| ==> r[i] == BlockLine(lines[i], bareEnd && i == |lines| - 1)
  {
    if lines == [] then []
    else [BlockLine(lines[0], bareEnd && |lines| == 1)] + BlockLines(lines[1..], bareEnd)
  }

  lemma {:induction false} NoGroupsNoFields(f: Fields, lines: seq<string>)
    requires FieldGroups(false, lines) == 0
    ensures FieldsIn(f, ReaderLines(lines)) == f && Held(NO_FIELDS, lines) == NO_FIELDS && Pushed(NO_FIELDS, lines) == []
    decreases |lines|
  {
    if lines != [] {
      var line := DropReturn(lines[0]);
      ReturnKeepsPrefix(lines[0]);
      if !IsBlankLine(lines[0]) && IsField(lines[0]) {
        OpenGroupsCount(lines[1..]);
      }
      assert ReadField(f, "") == f;
      FieldsShow(f, line);
      FieldsShow(NO_FIELDS, line);
      NoGroupsNoFields(f, lines[1..]);
      assert ReaderLines(lines)[1..] == ReaderLines(lines[1..]);
    }
  }

  lemma {:induction false} OpenGroupsCount(lines: seq<string>)
    ensures FieldGroups(true, lines) >= 1
    decreases |lines|
  {
    if lines != [] && !IsBlankLine(lines[0]) {
      OpenGroupsCount(lines[1..]);
    }
  }

  // One line of the reader: what it pushes, what it holds, and what all fields at once make of it.
  lemma ReadsOneLine(f: Fields, lines: seq<string>)
    requires lines != []
    ensures var line, rest := DropReturn(lines[0]), lines[1..];
      var g := FieldsAfter(f, line);
      && Pushed(f, lines) + Take(Held(f, lines)) == MessagesAt(f, line) + (Pushed(g, rest) + Take(Held(g, rest)))
      && FieldsIn(f, ReaderLines(lines)) == FieldsIn(ReadField(f, line), ReaderLines(rest))
  {
    var line, rest := DropReturn(lines[0]), lines[1..];
    var g := FieldsAfter(f, line);
    assert ReaderLines(lines)[1..] == ReaderLines(rest);
    Regrouped(MessagesAt(f, line), Pushed(g, rest), Take(Held(g, rest)));
  }

  lemma GroupsInOneLine(f: Fields, lines: seq<string>)
    requires lines != []
    ensures var line, rest := DropReturn(lines[0]), lines[1..];
      && (line == "" ==> ReadField(f, line) == f)
      && FieldGroups(f != NO_FIELDS, lines)
         == (if line == "" && f != NO_FIELDS then 1 else 0) + FieldGroups(FieldsAfter(f, line) != NO_FIELDS, rest)
  {
    ReturnKeepsPrefix(lines[0]);
    FieldsShow(f, DropReturn(lines[0]));
  }

  lemma NothingMore(a: seq<SseEvent>, b: seq<SseEvent>)
    ensures b == [] ==> a + b == a && b + a == a
  {
  }

  // With one group at most, reading line by line gathers all the fields.
  lemma {:induction false} OneGroupIsAll(f: Fields, lines: seq<string>)
    requires FieldGroups(f != NO_FIELDS, lines) <= 1
    ensures Pushed(f, lines) + Take(Held(f, lines)) == Take(FieldsIn(f, ReaderLines(lines)))
    decreases |lines|
  {
    if lines == [] {
      NothingMore(Take(f), []);
    } else {
      var line, rest := DropReturn(lines[0]), lines[1..];
      var g := FieldsAfter(f, line);
      ReadsOneLine(f, lines);
      GroupsInOneLine(f, lines);
      NothingMore(MessagesAt(f, line), Pushed(g, rest) + Take(Held(g, rest)));
      NothingMore(Pushed(g, rest) + Take(Held(g, rest)), MessagesAt(f, line));
      if line == "" && f != NO_FIELDS {
        NoGroupsNoFields(f, rest);
      } else {
        OneGroupIsAll(g, rest);
      }
    }
  }

  // --- what the extra carriage return changes ---

  /** Two carriage returns at the end: the line reader drops one, block parsing both. */
  predicate IsDoubled(line: string) {
    |line| >= 2 && line[|line| - 2] == '\r' && line[|line| - 1] == '\r'
  }

  /** The line counts: it is a data line, or the last event line. */
  predicate IsEffective(lines: seq<string>, i: nat)
    requires i < |lines|
  {
    IsDataLine(lines[i]) || IsLastEvent(lines, i)
  }

  predicate IsLastEvent(lines: seq<string>, i: nat)
    requires i < |lines|
  {
    IsEventLine(lines[i]) && forall j :: i < j < |lines| ==> !IsEventLine(lines[j])
  }

  /** Equal, or one carriage return longer. */
  predicate AreTwins(a: seq<string>, b: seq<string>) {
    |a| == |b| && forall i :: 0 <= i < |a| ==> IsTwin(a[i], b[i])
  }

  predicate IsTwin(x: string, y: string) {
    x == y || x == y + "\r"
  }

  lemma TwinKeepsPrefix(x: string, y: string)
    requires IsTwin(x, y)
    ensures IsEventLine(x) <==> IsEventLine(y)
    ensures IsDataLine(x) <==> IsDataLine(y)
  {
    if x != y {
      assert "event:"[5] == ':' && "data:"[4] == ':';
      assert x[..|y|] == y && x[|x| - 1] == '\r';
      assert IsEventLine(x) ==> |x| > 6;
      assert IsDataLine(x) ==> |x| > 5;
    }
  }

  lemma TwinValues(x: string, y: string, k: nat)
    requires IsTwin(x, y) && k <= |y|
    ensures DropSpace(x[k..]) == DropSpace(y[k..]) <==> x == y
  {
    if x != y {
      assert x[k..] == y[k..] + "\r";
      assert |DropSpace(x[k..])| == |DropSpace(y[k..])| + 1;
    }
  }

  lemma TwinStep(f: Fields, g: Fields, x: string, y: string)
    requires IsTwin(x, y) && |f.data| == |g.data|
    ensures var f', g' := ReadField(f, x), ReadField(g, y);
      && |f'.data| == |g'.data|
      && (f'.data == g'.data <==> f.data == g.data && (IsDataLine(x) ==> x == y))
      && (f'.name == g'.name <==> if IsEventLine(x) then x == y else f.name == g.name)
  {
    TwinKeepsPrefix(x, y);
    if IsEventLine(x) {
      TwinValues(x, y, 6);
      assert x[0] == 'e' && !IsDataLine(x);
    } else if IsDataLine(x) {
      TwinValues(x, y, 5);
      var v, w := DropSpace(x[5..]), DropSpace(y[5..]);
      assert f.data + [v] == g.data + [w] <==> f.data == g.data && v == w by {
        assert (f.data + [v])[..|f.data|] == f.data && (g.data + [w])[..|g.data|] == g.data;
        assert (f.data + [v])[|f.data|] == v && (g.data + [w])[|g.data|] == w;
      }
    }
  }

  lemma {:induction false} FieldsInSnoc(f: Fields, lines: seq<string>, last: string)
    ensures FieldsIn(f, lines + [last]) == ReadField(FieldsIn(f, lines), last)
    decreases |lines|
  {
    var all := lines + [last];
    if lines == [] {
      assert all[1..] == [];
    } else {
      assert all[0] == lines[0] && all[1..] == lines[1..] + [last];
      FieldsInSnoc(ReadField(f, lines[0]), lines[1..], last);
    }
  }

  lemma LastEventFront(lines: seq<string>, last: string, i: nat)
    requires i < |lines|
    ensures IsLastEvent(lines + [last], i) <==> IsLastEvent(lines, i) && !IsEventLine(last)
  {
    var all := lines + [last];
    assert all[|lines|] == last;
    assert forall j :: 0 <= j < |lines| ==> all[j] == lines[j];
  }

  predicate SameData(a: seq<string>, b: seq<string>)
    requires |a| == |b|
  {
    forall i :: 0 <= i < |a| ==> (IsDataLine(a[i]) ==> a[i] == b[i])
  }

  predicate SameName(a: seq<string>, b: seq<string>)
    requires |a| == |b|
  {
    forall i :: 0 <= i < |a| ==> (IsLastEvent(a, i) ==> a[i] == b[i])
  }

  lemma SameSnoc(a: seq<string>, b: seq<string>, x: string, y: string)
    requires |a| == |b|
    ensures SameData(a + [x], b + [y]) <==> SameData(a, b) && (IsDataLine(x) ==> x == y)
    ensures SameName(a + [x], b + [y]) <==> if IsEventLine(x) then x == y else SameName(a, b)
  {
    var aa, bb := a + [x], b + [y];
    assert forall i :: 0 <= i < |a| ==> aa[i] == a[i] && bb[i] == b[i];
    assert aa[|a|] == x && bb[|a|] == y;
    forall i | 0 <= i < |a|
      ensures IsLastEvent(aa, i) <==> IsLastEvent(a, i) && !IsEventLine(x)
    {
      LastEventFront(a, x, i);
    }
    assert IsLastEvent(aa, |a|) <==> IsEventLine(x);
    if SameName(aa, bb) && !IsEventLine(x) {
      forall i | 0 <= i < |a| && IsLastEvent(a, i)
        ensures a[i] == b[i]
      {
        assert IsLastEvent(aa, i);
      }
    }
  }

  /** The fields of two lists of lines differ just where lines that count do. */
  predicate FieldsTell(a: seq<string>, b: seq<string>)
    requires |a| == |b|
  {
    var f, g := FieldsIn(NO_FIELDS, a), FieldsIn(NO_FIELDS, b);
    && |f.data| == |g.data|
    && (f.data == g.data <==> SameData(a, b))
    && (f.name == g.name <==> SameName(a, b))
  }

  lemma FieldsTellSnoc(a: seq<string>, b: seq<string>, x: string, y: string)
    requires |a| == |b| && FieldsTell(a, b) && IsTwin(x, y)
    ensures FieldsTell(a + [x], b + [y])
  {
    FieldsInSnoc(NO_FIELDS, a, x);
    FieldsInSnoc(NO_FIELDS, b, y);
    TwinStep(FieldsIn(NO_FIELDS, a), FieldsIn(NO_FIELDS, b), x, y);
    SameSnoc(a, b, x, y);
  }

  lemma TwinsInFront(a: seq<string>, b: seq<string>, n: nat)
    requires AreTwins(a, b) && |a| == n + 1
    ensures AreTwins(a[..n], b[..n]) && IsTwin(a[n], b[n])
    ensures a == a[..n] + [a[n]] && b == b[..n] + [b[n]]
  {
  }

  // Twin lines give the same fields exactly when they are equal wherever it counts.
  lemma {:induction false} TwinFields(a: seq<string>, b: seq<string>)
    requires AreTwins(a, b)
    ensures FieldsTell(a, b)
    decreases |a|
  {
    if a != [] {
      var n := |a| - 1;
      TwinsInFront(a, b, n);
      TwinFields(a[..n], b[..n]);
      FieldsTellSnoc(a[..n], b[..n], a[n], b[n]);
    }
  }

  // --- from fields to messages ---

  predicate NoFeeds(lines: seq<string>) {
    forall i :: 0 <= i < |lines| ==> '\n' !in lines[i]
  }

  lemma JoinStarts(first: string, rest: seq<string>)
    requires rest != []
    ensures Join([first] + rest, "\n") == first + "\n" + Join(rest, "\n")
  {
    assert ([first] + rest)[1..] == rest;
  }

  lemma FirstFeed(x: string, u: string)
    requires '\n' !in x
    ensures IndexOf(x + "\n" + u, '\n') == |x|
  {
    var s := x + "\n" + u;
    assert s[|x|] == '\n';
    assert forall k :: 0 <= k < |x| ==> s[k] == x[k];
  }

  lemma SameStart(x: string, y: string, u: string, v: string)
    requires '\n' !in x && '\n' !in y && x + "\n" + u == y + "\n" + v
    ensures x == y && u == v
  {
    var s, t := x + "\n" + u, y + "\n" + v;
    FirstFeed(x, u);
    FirstFeed(y, v);
    assert x == s[..|x|] && y == t[..|y|];
    assert u == s[|x| + 1..] && v == t[|y| + 1..];
  }

  lemma {:induction false} JoinIsInjective(a: seq<string>, b: seq<string>)
    requires |a| == |b| && NoFeeds(a) && NoFeeds(b) && Join(a, "\n") == Join(b, "\n")
    ensures a == b
  {
    if |a| == 1 {
      assert a == [a[0]] && b == [b[0]];
    } else if |a| > 1 {
      assert a == [a[0]] + a[1..] && b == [b[0]] + b[1..];
      JoinStarts(a[0], a[1..]);
      JoinStarts(b[0], b[1..]);
      SameStart(a[0], b[0], Join(a[1..], "\n"), Join(b[1..], "\n"));
      JoinIsInjective(a[1..], b[1..]);
    }
  }

  lemma {:induction false} DataHasNoFeeds(f: Fields, lines: seq<string>)
    requires NoFeeds(lines) && NoFeeds(f.data)
    ensures NoFeeds(FieldsIn(f, lines).data)
    decreases |lines|
  {
    if lines != [] {
      assert '\n' !in lines[0];
      DataHasNoFeeds(ReadField(f, lines[0]), lines[1..]);
    }
  }

  lemma SameMessage(f: Fields, g: Fields)
    requires |f.data| == |g.data| && NoFeeds(f.data) && NoFeeds(g.data)
    requires f.name.None? <==> g.name.None?
    ensures Take(f) == Take(g) <==> f == g
  {
    if f != NO_FIELDS && Take(f) == Take(g) {
      assert Take(f)[0] == EventOf(f);
      assert g != NO_FIELDS && Take(g)[0] == EventOf(g);
      JoinIsInjective(f.data, g.data);
    }
  }

  lemma {:induction false} TwinNames(a: seq<string>, b: seq<string>, f: Fields, g: Fields)
    requires AreTwins(a, b) && (f.name.None? <==> g.name.None?)
    ensures FieldsIn(f, a).name.None? <==> FieldsIn(g, b).name.None?
    decreases |a|
  {
    if a != [] {
      assert IsTwin(a[0], b[0]);
      TwinKeepsPrefix(a[0], b[0]);
      TwinNames(a[1..], b[1..], ReadField(f, a[0]), ReadField(g, b[0]));
    }
  }

  lemma TwinMessages(a: seq<string>, b: seq<string>)
    requires AreTwins(a, b) && NoFeeds(a) && NoFeeds(b)
    ensures Take(FieldsIn(NO_FIELDS, a)) == Take(FieldsIn(NO_FIELDS, b)) <==> SameData(a, b) && SameName(a, b)
  {
    TwinFields(a, b);
    TwinNames(a, b, NO_FIELDS, NO_FIELDS);
    DataHasNoFeeds(NO_FIELDS, a);
    DataHasNoFeeds(NO_FIELDS, b);
    SameMessage(FieldsIn(NO_FIELDS, a), FieldsIn(NO_FIELDS, b));
  }

  // --- one block ---

  /** Block parsing drops a second carriage return from this line. */
  predicate IsMisread(lines: seq<string>, bareEnd: bool, i: nat)
    requires i < |lines|
  {
    IsDoubled(lines[i]) && !(bareEnd && i == |lines| - 1)
  }

  /** The block reads the same both ways: its field lines are one group, and none that counts ends in
      two carriage returns. */
  predicate IsFaithful(lines: seq<string>, bareEnd: bool) {
    && FieldGroups(false, lines) <= 1
    && forall i :: 0 <= i < |lines| ==> (IsMisread(lines, bareEnd, i) ==> !IsEffective(lines, i))
  }

  lemma DoubledShows(line: string)
    ensures DropReturn(DropReturn(line)) != DropReturn(line) <==> IsDoubled(line)
    ensures IsTwin(DropReturn(line), DropReturn(DropReturn(line)))
  {
    var cut := DropReturn(line);
    if cut != "" && cut[|cut| - 1] == '\r' {
      assert cut == DropReturn(cut) + "\r";
    }
  }

  lemma LinesAreTwins(lines: seq<string>, bareEnd: bool)
    ensures AreTwins(ReaderLines(lines), BlockLines(lines, bareEnd))
    ensures forall i :: 0 <= i < |lines| ==>
      (ReaderLines(lines)[i] != BlockLines(lines, bareEnd)[i] <==> IsMisread(lines, bareEnd, i))
  {
    forall i | 0 <= i < |lines|
      ensures IsTwin(ReaderLines(lines)[i], BlockLines(lines, bareEnd)[i])
      ensures ReaderLines(lines)[i] != BlockLines(lines, bareEnd)[i] <==> IsMisread(lines, bareEnd, i)
    {
      DoubledShows(lines[i]);
    }
  }

  lemma LastEventAlike(a: seq<string>, b: seq<string>, i: nat)
    requires i < |a| == |b| && forall j :: 0 <= j < |a| ==> (IsEventLine(a[j]) <==> IsEventLine(b[j]))
    ensures IsLastEvent(a, i) <==> IsLastEvent(b, i)
  {
  }

  lemma EffectiveInReaderLines(lines: seq<string>, i: nat)
    requires i < |lines|
    ensures var r := ReaderLines(lines);
      && (IsDataLine(r[i]) <==> IsDataLine(lines[i]))
      && (IsLastEvent(r, i) <==> IsLastEvent(lines, i))
  {
    var r := ReaderLines(lines);
    forall j | 0 <= j < |lines|
      ensures IsEventLine(r[j]) <==> IsEventLine(lines[j])
    {
      ReturnKeepsPrefix(lines[j]);
    }
    LastEventAlike(r, lines, i);
    ReturnKeepsPrefix(lines[i]);
  }

  predicate SameWhenItCounts(a: seq<string>, b: seq<string>, i: nat)
    requires i < |a| == |b|
  {
    IsEffective(a, i) ==> a[i] == b[i]
  }

  lemma SameWhenEffective(a: seq<string>, b: seq<string>)
    requires |a| == |b|
    ensures SameData(a, b) && SameName(a, b) <==> forall i :: 0 <= i < |a| ==> SameWhenItCounts(a, b, i)
  {
    if forall i :: 0 <= i < |a| ==> SameWhenItCounts(a, b, i) {
      forall i | 0 <= i < |a|
        ensures IsDataLine(a[i]) ==> a[i] == b[i]
        ensures IsLastEvent(a, i) ==> a[i] == b[i]
      {
        assert SameWhenItCounts(a, b, i);
      }
    }
  }

  lemma MisreadWhenItCounts(lines: seq<string>, bareEnd: bool, i: nat)
    requires i < |lines|
    ensures SameWhenItCounts(ReaderLines(lines), BlockLines(lines, bareEnd), i)
      <==> (IsMisread(lines, bareEnd, i) ==> !IsEffective(lines, i))
  {
    LinesAreTwins(lines, bareEnd);
    EffectiveInReaderLines(lines, i);
  }

  lemma SameWhereItCounts(lines: seq<string>, bareEnd: bool)
    ensures var a, b := ReaderLines(lines), BlockLines(lines, bareEnd);
      SameData(a, b) && SameName(a, b)
      <==> forall i :: 0 <= i < |lines| ==> (IsMisread(lines, bareEnd, i) ==> !IsEffective(lines, i))
  {
    var a, b := ReaderLines(lines), BlockLines(lines, bareEnd);
    SameWhenEffective(a, b);
    forall i | 0 <= i < |lines|
      ensures SameWhenItCounts(a, b, i) <==> (IsMisread(lines, bareEnd, i) ==> !IsEffective(lines, i))
    {
      MisreadWhenItCounts(lines, bareEnd, i);
    }
  }

  lemma DroppedHasNoFeeds(lines: seq<string>, bareEnd: bool)
    requires NoFeeds(lines)
    ensures NoFeeds(ReaderLines(lines)) && NoFeeds(BlockLines(lines, bareEnd))
  {
    forall i | 0 <= i < |lines|
      ensures '\n' !in DropReturn(lines[i]) && '\n' !in DropReturn(DropReturn(lines[i]))
    {
      assert '\n' !in lines[i];
    }
  }

  /** Read either way a block gives the same message exactly when it is faithful. */
  lemma BlockAgrees(lines: seq<string>, bareEnd: bool)
    requires NoFeeds(lines)
    ensures Pushed(NO_FIELDS, lines) + Take(Held(NO_FIELDS, lines)) == Take(FieldsIn(NO_FIELDS, BlockLines(lines, bareEnd)))
      <==> IsFaithful(lines, bareEnd)
  {
    GroupsAreMessages(NO_FIELDS, lines);
    DroppedHasNoFeeds(lines, bareEnd);
    LinesAreTwins(lines, bareEnd);
    TwinMessages(ReaderLines(lines), BlockLines(lines, bareEnd));
    SameWhereItCounts(lines, bareEnd);
    if FieldGroups(false, lines) <= 1 {
      OneGroupIsAll(NO_FIELDS, lines);
    }
  }

  // --- the lines of a block ---

  lemma {:induction false} LineTextsHaveNoFeeds(t: seq<byte>)
    ensures NoFeeds(LineTexts(t))
    decreases |t|
  {
    if LineEnd(t) < |t| {
      var lines := LineTexts(t);
      DecodeAddsNoAscii(t[..LineEnd(t)], LF);
      LineTextsHaveNoFeeds(NextLines(t));
      assert lines == [Decode(t[..LineEnd(t)])] + LineTexts(NextLines(t));
    }
  }

  lemma LastLineText(raw: seq<byte>, end: seq<byte>)
    requires IsLineEnd(end) && LF !in raw
    ensures LineTexts(raw + end) == [Decode(raw) + if end == [LF] then "" else "\r"]
  {
    var t := raw + end;
    LineEndIs(t, |t| - 1);
    assert NextLines(t) == [] && LineTexts([]) == [];
    if end == [LF] {
      assert t[..|t| - 1] == raw;
      assert Decode(raw) + "" == Decode(raw);
    } else {
      assert t[..|t| - 1] == raw + [CR] + [];
      DecodeSplitsAtAscii(raw, CR, []);
      assert Decode(raw) + "\r" + [] == Decode(raw) + "\r";
    }
  }

  lemma OneBlockLine(text: string, bareEnd: bool)
    ensures BlockLines([text + if bareEnd then "" else "\r"], bareEnd) == [DropReturn(text)]
  {
    if bareEnd {
      assert text + "" == text;
    } else {
      assert (text + "\r")[..|text|] == text;
    }
  }

  lemma OneFieldIn(f: Fields, line: string)
    ensures FieldsIn(f, [line]) == ReadField(f, line)
    ensures line == "" ==> ReadField(f, line) == f
  {
    assert [line][1..] == [];
  }

  lemma LastBlockLine(f: Fields, raw: seq<byte>, end: seq<byte>)
    requires IsLineEnd(end) && LF !in raw
    ensures ReadLines(f, Lines(Decode(raw))) == FieldsIn(f, BlockLines(LineTexts(raw + end), end == [LF]))
  {
    LastLineText(raw, end);
    OneBlockLine(Decode(raw), end == [LF]);
    OneFieldIn(f, DropReturn(Decode(raw)));
    ReadLinesOfOne(f, raw);
    EmptyDecodesEmpty(raw);
  }

  lemma FirstBlockLine(raw: seq<byte>, end: seq<byte>)
    requires IsLineEnd(end) && LineEnd(raw) < |raw|
    ensures var rest := LineTexts(NextLines(raw) + end);
      && LineTexts(raw + end) == [Decode(raw[..LineEnd(raw)])] + rest && rest != []
      && BlockLines(LineTexts(raw + end), end == [LF]) == [DropReturn(FirstLine(raw))] + BlockLines(rest, end == [LF])
  {
    FirstOfBlock(raw, end);
    LineIsStable(raw, end);
    assert (raw + end)[..LineEnd(raw)] == raw[..LineEnd(raw)];
    SomeLine(NextLines(raw), end);
  }

  lemma SomeLine(raw: seq<byte>, end: seq<byte>)
    requires IsLineEnd(end)
    ensures LineTexts(raw + end) != []
  {
    assert (raw + end)[|raw + end| - 1] == LF;
    NoLineEnd(raw + end);
  }

  /** Parsing a block takes its lines, less the carriage returns it drops. */
  lemma {:induction false} BlockParses(f: Fields, raw: seq<byte>, end: seq<byte>)
    requires IsLineEnd(end)
    ensures ReadLines(f, Lines(Decode(raw))) == FieldsIn(f, BlockLines(LineTexts(raw + end), end == [LF]))
    decreases |raw|
  {
    NoLineEnd(raw);
    if LineEnd(raw) == |raw| {
      LastBlockLine(f, raw, end);
    } else {
      var line, rest := FirstLine(raw), NextLines(raw);
      LinesOfDecoded(raw);
      FirstBlockLine(raw, end);
      BlockParses(ReadField(f, DropReturn(line)), rest, end);
    }
  }

  // --- whole streams ---

  /** The line end that a block's delimiter doubles. */
  function EndOf(p: Piece): (end: seq<byte>)
    ensures IsLineEnd(end)
  {
    if p.delimiter == [LF] + [LF] then [LF] else [CR, LF]
  }

  function BlockText(p: Piece): seq<string> {
    LineTexts(p.raw + EndOf(p))
  }

  /** What the line reader pushes out over a block, and what block parsing makes of it. */
  function ReaderOn(p: Piece): seq<SseEvent> {
    Pushed(NO_FIELDS, BlockText(p)) + Take(Held(NO_FIELDS, BlockText(p)))
  }

  function ParserOn(p: Piece): seq<SseEvent> {
    Take(FieldsOf(Decode(p.raw)))
  }

  function ReaderOnAll(pieces: seq<Piece>): seq<SseEvent> {
    if pieces == [] then [] else ReaderOn(pieces[0]) + ReaderOnAll(pieces[1..])
  }

  function ParserOnAll(pieces: seq<Piece>): seq<SseEvent> {
    if pieces == [] then [] else ParserOn(pieces[0]) + ParserOnAll(pieces[1..])
  }

  lemma {:induction false} ParserMakesMessages(pieces: seq<Piece>)
    ensures Messages(EventsOf(pieces)) == ParserOnAll(pieces)
  {
    if pieces != [] {
      ParserMakesMessages(pieces[1..]);
      MessagesOfBlock(Decode(pieces[0].raw), EventsOf(pieces[1..]));
    }
  }

  lemma FeedEndsClean(f: Fields, raw: seq<byte>, end: seq<byte>)
    requires IsLineEnd(end)
    ensures Feed(f, raw + end).buffer == []
    decreases |raw|
  {
    var t := raw + end;
    NoLineEnd(raw);
    if LineEnd(raw) == |raw| {
      LineEndIs(t, |t| - 1);
      assert NextLines(t) == [];
    } else {
      FirstOfBlock(raw, end);
      FeedEndsClean(FieldsAfter(f, FirstLine(t)), NextLines(raw), end);
    }
  }

  lemma ReaderOverBlock(p: Piece, tail: seq<byte>)
    requires IsPiece(p)
    ensures Feed(NO_FIELDS, p.raw + p.delimiter + tail) == Emit(ReaderOn(p), Feed(NO_FIELDS, tail))
  {
    var end := EndOf(p);
    PieceEnds(p);
    Regroup(p.raw, end, tail);
    FeedEndsClean(NO_FIELDS, p.raw, end);
    FeedReadsLines(NO_FIELDS, p.raw + end);
    ReaderPastBlank(p.raw + end, Feed(NO_FIELDS, p.raw + end), end, tail);
  }

  lemma ReaderPastBlank(s: seq<byte>, d: Fed, end: seq<byte>, tail: seq<byte>)
    requires d == Feed(NO_FIELDS, s) && d.buffer == [] && IsLineEnd(end)
    ensures Feed(NO_FIELDS, s + (end + tail)) == Emit(d.messages + Take(d.fields), Feed(NO_FIELDS, tail))
  {
    FeedResumes(NO_FIELDS, s, end + tail);
    assert [] + (end + tail) == end + tail;
    BlankLineTakes(d.fields, end, tail);
    EmitTwice(d.messages, Take(d.fields), Feed(NO_FIELDS, tail));
  }

  lemma {:induction false} ReaderGoesByBlocks(s: seq<byte>)
    ensures Feed(NO_FIELDS, s).messages == ReaderOnAll(Frame(s).pieces) + Feed(NO_FIELDS, Frame(s).rest).messages
    decreases |s|
  {
    if HasDelimiter(s) {
      var p, tail := Head(s), Tail(s);
      HeadThenTail(s);
      HeadIsAPiece(s);
      ReaderOverBlock(p, tail);
      ReaderGoesByBlocks(tail);
      ReaderOnPrepended(p, Frame(tail), Feed(NO_FIELDS, Frame(tail).rest).messages);
    } else {
      NothingMore(Feed(NO_FIELDS, s).messages, []);
    }
  }

  lemma ReaderOnPrepended(p: Piece, f: Framed, last: seq<SseEvent>)
    ensures ReaderOnAll(Prepend(p, f).pieces) + last == ReaderOn(p) + (ReaderOnAll(f.pieces) + last)
  {
    ReaderOnFirst(p, f.pieces);
    Regrouped(ReaderOn(p), ReaderOnAll(f.pieces), last);
  }

  lemma ReaderOnFirst(p: Piece, rest: seq<Piece>)
    ensures ReaderOnAll([p] + rest) == ReaderOn(p) + ReaderOnAll(rest)
  {
    assert ([p] + rest)[0] == p && ([p] + rest)[1..] == rest;
  }

  lemma Regrouped(a: seq<SseEvent>, b: seq<SseEvent>, d: seq<SseEvent>)
    ensures a + b + d == a + (b + d)
  {
  }

  predicate AgreesOn(p: Piece) {
    ReaderOn(p) == ParserOn(p)
  }

  lemma BlockParsesTo(p: Piece)
    ensures ParserOn(p) == Take(FieldsIn(NO_FIELDS, BlockLines(BlockText(p), EndOf(p) == [LF])))
  {
    BlockParses(NO_FIELDS, p.raw, EndOf(p));
  }

  predicate IsFaithfulBlock(p: Piece) {
    IsFaithful(BlockText(p), EndOf(p) == [LF])
  }

  lemma FaithfulBlocksAgree(p: Piece)
    ensures AgreesOn(p) <==> IsFaithfulBlock(p)
  {
    BlockParsesTo(p);
    LineTextsHaveNoFeeds(p.raw + EndOf(p));
    BlockAgrees(BlockText(p), EndOf(p) == [LF]);
  }

  // Block parsing never makes more messages of a block than the line reader.
  lemma ParserMakesNoMore(p: Piece)
    ensures |ParserOn(p)| <= |ReaderOn(p)|
  {
    var lines := BlockText(p);
    BlockParsesTo(p);
    GroupsAreMessages(NO_FIELDS, lines);
    if FieldGroups(false, lines) == 0 {
      NoGroupsNoFields(NO_FIELDS, lines);
      LinesAreTwins(lines, EndOf(p) == [LF]);
      TwinEmptiness(ReaderLines(lines), BlockLines(lines, EndOf(p) == [LF]));
    }
  }

  lemma TwinEmptiness(a: seq<string>, b: seq<string>)
    requires AreTwins(a, b) && FieldsIn(NO_FIELDS, a) == NO_FIELDS
    ensures FieldsIn(NO_FIELDS, b) == NO_FIELDS
  {
    TwinFields(a, b);
    TwinNames(a, b, NO_FIELDS, NO_FIELDS);
  }

  lemma {:induction false} AllNoMore(pieces: seq<Piece>)
    ensures |ParserOnAll(pieces)| <= |ReaderOnAll(pieces)|
  {
    if pieces != [] {
      ParserMakesNoMore(pieces[0]);
      AllNoMore(pieces[1..]);
    }
  }

  lemma SplitEqual(a: seq<SseEvent>, b: seq<SseEvent>, x: seq<SseEvent>, y: seq<SseEvent>)
    requires |a| <= |b| && |x| <= |y| && a + x == b + y
    ensures a == b && x == y
  {
    assert |a + x| == |a| + |x| && |b + y| == |b| + |y|;
    assert a == (a + x)[..|a|] && b == (b + y)[..|b|];
    assert x == (a + x)[|a|..] && y == (b + y)[|b|..];
  }

  predicate AllAgree(pieces: seq<Piece>) {
    forall i :: 0 <= i < |pieces| ==> AgreesOn(pieces[i])
  }

  lemma AllOfMore<T>(first: T, rest: seq<T>, holds: T -> bool)
    ensures (forall i :: 0 <= i < |[first] + rest| ==> holds(([first] + rest)[i]))
      <==> holds(first) && forall i :: 0 <= i < |rest| ==> holds(rest[i])
  {
    var all := [first] + rest;
    assert all[0] == first && forall i :: 0 <= i < |rest| ==> all[i + 1] == rest[i];
    if holds(first) && forall i :: 0 <= i < |rest| ==> holds(rest[i]) {
      forall i | 0 <= i < |all|
        ensures holds(all[i])
      {
        assert i > 0 ==> all[i] == rest[i - 1];
      }
    }
  }

  lemma AllAgreeFirst(p: Piece, rest: seq<Piece>)
    ensures AllAgree([p] + rest) <==> AgreesOn(p) && AllAgree(rest)
  {
    AllOfMore(p, rest, AgreesOn);
  }

  lemma EqualInParts(a: seq<SseEvent>, b: seq<SseEvent>, x: seq<SseEvent>, y: seq<SseEvent>)
    requires |a| <= |b| && |x| <= |y|
    ensures a + x == b + y <==> a == b && x == y
  {
    if a + x == b + y {
      SplitEqual(a, b, x, y);
    }
  }

  // Equal message lists are equal block by block, with nothing from the leftover.
  lemma {:induction false} AgreeByBlocks(pieces: seq<Piece>, last: seq<SseEvent>)
    ensures ParserOnAll(pieces) == ReaderOnAll(pieces) + last <==> last == [] && AllAgree(pieces)
  {
    if pieces == [] {
      assert [] + last == last;
    } else {
      var p, rest := pieces[0], pieces[1..];
      assert pieces == [p] + rest;
      AgreeByBlocks(rest, last);
      ParserMakesNoMore(p);
      AllNoMore(rest);
      ReaderOnFirst(p, rest);
      Regrouped(ReaderOn(p), ReaderOnAll(rest), last);
      EqualInParts(ParserOn(p), ReaderOn(p), ParserOnAll(rest), ReaderOnAll(rest) + last);
      AllAgreeFirst(p, rest);
    }
  }

  lemma AllAgreeWhenFaithful(pieces: seq<Piece>)
    ensures AllAgree(pieces) <==> forall i :: 0 <= i < |pieces| ==> IsFaithfulBlock(pieces[i])
  {
    forall i | 0 <= i < |pieces|
      ensures AgreesOn(pieces[i]) <==> IsFaithfulBlock(pieces[i])
    {
      FaithfulBlocksAgree(pieces[i]);
    }
  }

  lemma QuietLeftover(rest: seq<byte>)
    ensures Feed(NO_FIELDS, rest).messages == [] <==> EndedGroups(false, LineTexts(rest)) == 0
  {
    FeedReadsLines(NO_FIELDS, rest);
    GroupsAreMessages(NO_FIELDS, LineTexts(rest));
  }

  /**
   * On any bytes, the framed blocks and the line reader give the same messages
   * exactly when every block is faithful and no blank line ends a group of field
   * lines in the leftover.
   */
  lemma DecodersAgreeExactly(s: seq<byte>)
    ensures Messages(EventsOf(Frame(s).pieces)) == Feed(NO_FIELDS, s).messages
      <==>
      && (forall i :: 0 <= i < |Frame(s).pieces| ==> IsFaithfulBlock(Frame(s).pieces[i]))
      && EndedGroups(false, LineTexts(Frame(s).rest)) == 0
  {
    var f := Frame(s);
    ParserMakesMessages(f.pieces);
    ReaderGoesByBlocks(s);
    AgreeByBlocks(f.pieces, Feed(NO_FIELDS, f.rest).messages);
    AllAgreeWhenFaithful(f.pieces);
    QuietLeftover(f.rest);
  }

  // --- streams on which they differ ---

  lemma OneLineBlock(raw: seq<byte>)
    requires LF !in raw && CR !in raw
    ensures var s := raw + [CR] + ([CR, LF] + [CR, LF]);
      HasDelimiter(s) && Head(s) == Piece(raw + [CR], [CR, LF] + [CR, LF])
  {
    var s, i := raw + [CR] + ([CR, LF] + [CR, LF]), |raw| + 1;
    DelimitedOnce(raw, s);
    DelimiterIsFirst(s, i);
    assert s[..i] == raw + [CR] && s[i..i + 4] == [CR, LF] + [CR, LF];
  }

  lemma DelimitedOnce(raw: seq<byte>, s: seq<byte>)
    requires LF !in raw && CR !in raw && s == raw + [CR] + ([CR, LF] + [CR, LF])
    ensures Undelimited(s, |raw| + 1) && DelimiterAt(s, |raw| + 1) == 4
  {
    var i := |raw| + 1;
    assert s[i - 1] == CR && s[i] == CR && s[i + 1] == LF && s[i + 2] == CR && s[i + 3] == LF;
    assert forall k :: 0 <= k < |raw| ==> s[k] == raw[k];
  }

  lemma DoubledText(raw: seq<byte>)
    requires LF !in raw && CR !in raw
    ensures LineTexts(raw + [CR] + [CR, LF]) == [Decode(raw) + "\r" + "\r"]
  {
    assert LF !in raw + [CR];
    LastLineText(raw + [CR], [CR, LF]);
    assert raw + [CR] == raw + [CR] + [];
    DecodeSplitsAtAscii(raw, CR, []);
    assert Decode(raw) + "\r" + [] == Decode(raw) + "\r";
  }

  lemma DoubledIsUnfaithful(text: string)
    requires IsDataLine(text)
    ensures !IsFaithful([text + "\r" + "\r"], false)
  {
    var line := text + "\r" + "\r";
    assert IsDoubled(line) && IsDataLine(line);
    assert IsMisread([line], false, 0) && IsEffective([line], 0);
  }

  /** A data line ended by CR CR LF keeps one carriage return for the line reader, none for the parser. */
  lemma ExtraReturnsDisagree(raw: seq<byte>)
    requires LF !in raw && CR !in raw && IsDataLine(Decode(raw))
    ensures var s := raw + [CR] + ([CR, LF] + [CR, LF]);
      Messages(EventsOf(Frame(s).pieces)) != Feed(NO_FIELDS, s).messages
  {
    var s := raw + [CR] + ([CR, LF] + [CR, LF]);
    OneLineBlock(raw);
    DoubledText(raw);
    var p := Head(s);
    assert Frame(s).pieces[0] == p && BlockText(p) == [Decode(raw) + "\r" + "\r"];
    DoubledIsUnfaithful(Decode(raw));
    assert !IsFaithfulBlock(p);
    DecodersAgreeExactly(s);
  }

  lemma DataX(text: string)
    requires text == "data:x"
    ensures var raw := Encode(text);
      && Decode(raw) == text && LF !in raw && CR !in raw
      && IsDataLine(Decode(raw)) && ReadField(NO_FIELDS, Decode(raw)) != NO_FIELDS
  {
    DecodeUndoesEncode(text);
    DecodeAddsNoAscii(Encode(text), LF);
    DecodeAddsNoAscii(Encode(text), CR);
    assert IsDataLine(text);
    FieldsShow(NO_FIELDS, text);
  }

  /** `data:x` followed by LF CR LF, and by CR CR LF CR LF. */
  lemma DisagreeingInputs()
    ensures var raw := Encode("data:x");
      && Frame(raw + [LF] + [CR, LF]).pieces == [] && |Feed(NO_FIELDS, raw + [LF] + [CR, LF]).messages| == 1
      && var s := raw + [CR] + ([CR, LF] + [CR, LF]);
         Messages(EventsOf(Frame(s).pieces)) != Feed(NO_FIELDS, s).messages
  {
    DataX("data:x");
    MixedEndingsDisagree(Encode("data:x"));
    ExtraReturnsDisagree(Encode("data:x"));
  }
}
