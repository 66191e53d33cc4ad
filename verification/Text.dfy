/** The string operations the source takes from its standard library: blanks as Unicode defines them,
    trimming at either end, prefixes, the lines of a text, and joining. A string is a sequence of
    Unicode scalar values. */
module Text {
  import opened Outcomes

  /** The characters Unicode calls White_Space. */
  predicate IsWhitespace(c: char) {
    '\t' <= c <= '\r' || c == ' ' || c == '\U{85}' || c == '\U{A0}' || c == '\U{1680}'
    || '\U{2000}' <= c <= '\U{200A}' || c == '\U{2028}' || c == '\U{2029}'
    || c == '\U{202F}' || c == '\U{205F}' || c == '\U{3000}'
  }

  predicate IsBlank(s: string) {
    forall i :: 0 <= i < |s| ==> IsWhitespace(s[i])
  }

  function TrimStart(s: string): string {
    if s != [] && IsWhitespace(s[0]) then TrimStart(s[1..]) else s
  }

  function TrimEnd(s: string): string {
    if s != [] && IsWhitespace(s[|s| - 1]) then TrimEnd(s[..|s| - 1]) else s
  }

  function Trim(s: string): string {
    TrimEnd(TrimStart(s))
  }

  /** The first index of a character, or the length when it does not occur. */
  function IndexOf(s: string, c: char): (i: nat)
    ensures i <= |s|
    ensures i < |s| ==> s[i] == c
    ensures forall j :: 0 <= j < i ==> s[j] != c
  {
    if s == [] || s[0] == c then 0 else 1 + IndexOf(s[1..], c)
  }

  lemma {:induction false} TrimStartSkipsBlank(pre: string, s: string)
    requires IsBlank(pre) && s != [] && !IsWhitespace(s[0])
    ensures TrimStart(pre + s) == s
  {
    if pre == [] {
      assert pre + s == s;
    } else {
      assert (pre + s)[1..] == pre[1..] + s;
      TrimStartSkipsBlank(pre[1..], s);
    }
  }

  lemma {:induction false} TrimEndSkipsBlank(s: string, post: string)
    requires IsBlank(post) && s != [] && !IsWhitespace(s[|s| - 1])
    ensures TrimEnd(s + post) == s
    decreases |post|
  {
    if post == [] {
      assert s + post == s;
    } else {
      assert (s + post)[..|s + post| - 1] == s + post[..|post| - 1];
      TrimEndSkipsBlank(s, post[..|post| - 1]);
    }
  }

  lemma TrimRemovesSurroundings(pre: string, s: string, post: string)
    requires IsBlank(pre) && IsBlank(post)
    requires s != [] && !IsWhitespace(s[0]) && !IsWhitespace(s[|s| - 1])
    ensures Trim(pre + s + post) == s
  {
    assert pre + s + post == pre + (s + post);
    TrimStartSkipsBlank(pre, s + post);
    TrimEndSkipsBlank(s, post);
  }

  lemma TrimsToItself(s: string)
    requires s != "" && !IsWhitespace(s[0]) && !IsWhitespace(s[|s| - 1])
    ensures Trim(s) == s
  {
    assert "" + s + "" == s;
    TrimRemovesSurroundings("", s, "");
  }

  lemma {:induction false} TrimsToNothing(s: string)
    ensures Trim(s) == "" <==> IsBlank(s)
  {
    if s != "" && IsWhitespace(s[0]) {
      TrimsToNothing(s[1..]);
      assert s == [s[0]] + s[1..];
    } else if s != "" {
      TrimEndKeepsTheStart(s);
    }
  }

  lemma {:induction false} TrimEndKeepsTheStart(s: string)
    requires s != "" && !IsWhitespace(s[0])
    ensures TrimEnd(s) != ""
  {
    if IsWhitespace(s[|s| - 1]) {
      TrimEndKeepsTheStart(s[..|s| - 1]);
    }
  }

  function DropPrefix(s: string, prefix: string): (r: Option<string>) {
    if prefix <= s then Some(s[|prefix|..]) else None
  }

  /** One space off the front, if there is one. */
  function DropSpace(s: string): string {
    if s != "" && s[0] == ' ' then s[1..] else s
  }

  /** One carriage return off the end, if there is one. */
  function DropReturn(s: string): string {
    if s != "" && s[|s| - 1] == '\r' then s[..|s| - 1] else s
  }

  function Join(parts: seq<string>, separator: string): string {
    if parts == [] then ""
    else if |parts| == 1 then parts[0]
    else parts[0] + separator + Join(parts[1..], separator)
  }

  /** The lines of a text: a line feed, with the carriage return before it, ends each; an unfinished last line counts. */
  function Lines(s: string): (lines: seq<string>) {
    if s == "" then []
    else
      var i := IndexOf(s, '\n');
      if i == |s| then [s] else [DropReturn(s[..i])] + Lines(s[i + 1..])
  }

  /** Trimming takes blanks off both ends and nothing else. */
  lemma TrimSplits(s: string) returns (pre: string, post: string)
    ensures s == pre + Trim(s) + post && IsBlank(pre) && IsBlank(post)
  {
    pre := TrimStartSplits(s);
    post := TrimEndSplits(TrimStart(s));
    assert s == pre + (Trim(s) + post);
  }

  lemma {:induction false} TrimStartSplits(s: string) returns (pre: string)
    ensures s == pre + TrimStart(s) && IsBlank(pre)
  {
    pre := "";
    if s != "" && IsWhitespace(s[0]) {
      var rest := TrimStartSplits(s[1..]);
      pre := [s[0]] + rest;
    }
  }

  lemma {:induction false} TrimEndSplits(s: string) returns (post: string)
    ensures s == TrimEnd(s) + post && IsBlank(post)
  {
    post := "";
    if s != "" && IsWhitespace(s[|s| - 1]) {
      var n := |s| - 1;
      var rest := TrimEndSplits(s[..n]);
      post := rest + [s[n]];
      assert s == s[..n] + [s[n]];
    }
  }

  /** A carriage return at the end is one of the blanks trimmed off. */
  lemma TrimDropsTheReturn(s: string)
    ensures Trim(DropReturn(s)) == Trim(s)
  {
    if s != "" && s[|s| - 1] == '\r' {
      TrimStartBeforeReturn(DropReturn(s));
      assert s == DropReturn(s) + "\r";
      if TrimStart(DropReturn(s)) == "" {
        TrimsToNothing(s);
        TrimsToNothing(DropReturn(s));
        assert IsBlank(DropReturn(s)) ==> IsBlank(s);
      } else {
        var t := TrimStart(DropReturn(s));
        assert (t + "\r")[..|t|] == t;
      }
    }
  }

  lemma {:induction false} TrimStartBeforeReturn(s: string)
    ensures TrimStart(s + "\r") == if TrimStart(s) == "" then "" else TrimStart(s) + "\r"
  {
    if s == "" {
      assert (s + "\r")[1..] == "";
    } else if IsWhitespace(s[0]) {
      assert (s + "\r")[1..] == s[1..] + "\r";
      TrimStartBeforeReturn(s[1..]);
    }
  }
}
