/**
 * The text operations of Python's `str` that the repository relies on:
 * `strip`, `splitlines`, `partition` and `join`, with Python's own sets of
 * white-space characters and line boundaries.
 */
module Text {
  import opened Wrappers

  /** A character at which `str.splitlines` ends a line. */
  predicate IsBreak(c: char) {
    c == '\n' || c == '\r' || c == '\U{0B}' || c == '\U{0C}'
    || '\U{1C}' <= c <= '\U{1E}' || c == '\U{85}' || c == '\U{2028}' || c == '\U{2029}'
  }

  /** A character that `str.isspace` accepts. Every line boundary is one. */
  predicate IsSpace(c: char) {
    '\U{09}' <= c <= '\U{0D}' || '\U{1C}' <= c <= '\U{20}' || c == '\U{85}' || c == '\U{A0}'
    || c == '\U{1680}' || '\U{2000}' <= c <= '\U{200A}' || c == '\U{2028}' || c == '\U{2029}'
    || c == '\U{202F}' || c == '\U{205F}' || c == '\U{3000}'
  }

  /** The ten boundaries that `splitlines` documents, by code point. */
  lemma BreaksAre(c: char)
    ensures IsBreak(c) <==> c as int in {0x0A, 0x0B, 0x0C, 0x0D, 0x1C, 0x1D, 0x1E, 0x85, 0x2028, 0x2029}
  {
  }

  /** The white space of `isspace`: those, and the blanks that end no line. */
  lemma SpacesAre(c: char)
    ensures IsSpace(c) <==>
      IsBreak(c) || c as int in {0x09, 0x1F, 0x20, 0xA0, 0x1680, 0x202F, 0x205F, 0x3000} || 0x2000 <= c as int <= 0x200A
  {
  }

  // -- strip -------------------------------------------------------------

  function LStrip(s: string): (r: string)
    ensures |r| <= |s| && r == s[|s| - |r|..]
    ensures r != "" ==> !IsSpace(r[0])
    ensures forall i :: 0 <= i < |s| - |r| ==> IsSpace(s[i])
  {
    hide IsSpace;
    if s != "" && IsSpace(s[0]) then
      var r := LStrip(s[1..]);
      assert s == [s[0]] + s[1..];
      assert r == s[|s| - |r|..];
      assert forall i :: 0 < i < |s| ==> s[i] == s[1..][i - 1];
      r
    else s
  }

  function RStrip(s: string): (r: string)
    ensures r <= s
    ensures r != "" ==> !IsSpace(r[|r| - 1])
    ensures forall i :: |r| <= i < |s| ==> IsSpace(s[i])
  {
    hide IsSpace;
    if s != "" && IsSpace(s[|s| - 1]) then RStrip(s[..|s| - 1]) else s
  }

  function Strip(s: string): string {
    RStrip(LStrip(s))
  }

  /** Neither end of `s` is white space. */
  predicate Trimmed(s: string) {
    s != "" ==> !IsSpace(s[0]) && !IsSpace(s[|s| - 1])
  }

  /** `strip` yields a trimmed stretch of its argument and keeps exactly the trimmed strings. */
  lemma StripIsTrim(s: string)
    ensures Trimmed(Strip(s))
    ensures Strip(s) == s <==> Trimmed(s)
    ensures exists i, j :: 0 <= i <= j <= |s| && Strip(s) == s[i..j]
  {
    var l := LStrip(s);
    var r := RStrip(l);
    var i := |s| - |l|;
    assert r == l[..|r|];
    assert r == s[i..i + |r|];
    if Trimmed(s) && s != "" {
      assert i == 0;
      assert |r| == |l|;
    }
  }

  // -- lines -------------------------------------------------------------

  /** The length of the first line of `s`, its line boundary included. */
  function LineEnd(s: string): (n: nat)
    requires s != ""
    ensures 0 < n <= |s|
  {
    if s[0] == '\r' && |s| > 1 && s[1] == '\n' then 2
    else if IsBreak(s[0]) || |s| == 1 then 1
    else 1 + LineEnd(s[1..])
  }

  /** `s.splitlines(keepends=True)`. */
  function SplitKeep(s: string): (lines: seq<string>)
    ensures s == "" <==> lines == []
  {
    if s == "" then [] else [s[..LineEnd(s)]] + SplitKeep(s[LineEnd(s)..])
  }

  /** A line without its line boundary. */
  function Chop(line: string): string {
    if |line| >= 2 && line[|line| - 2..] == "\r\n" then line[..|line| - 2]
    else if line != "" && IsBreak(line[|line| - 1]) then line[..|line| - 1]
    else line
  }

  /** `s.splitlines()`. */
  function SplitLines(s: string): seq<string> {
    Map(Chop, SplitKeep(s))
  }

  /** `"".join(lines)`. */
  function Join(lines: seq<string>): string {
    if lines == [] then "" else lines[0] + Join(lines[1..])
  }

  predicate NoBreak(s: string) {
    forall i :: 0 <= i < |s| ==> !IsBreak(s[i])
  }

  /** One physical line: it ends at its own first line boundary, or has none. */
  predicate OneLine(line: string) {
    line != "" && LineEnd(line) == |line|
  }

  /**
   * A physical line that ends in a line boundary other than a bare `\r`, so
   * that whatever follows it stays a line of its own.
   */
  predicate Closed(line: string) {
    OneLine(line) && IsBreak(line[|line| - 1]) && line[|line| - 1] != '\r'
  }

  lemma {:induction false} LineEndStable(s: string, t: string)
    requires Closed(s)
    ensures LineEnd(s + t) == |s|
  {
    if |s| > 1 && !IsBreak(s[0]) {
      assert (s + t)[1..] == s[1..] + t;
      LineEndStable(s[1..], t);
    }
  }

  lemma {:induction false} FirstLineIsOneLine(s: string)
    requires s != ""
    ensures OneLine(s[..LineEnd(s)])
  {
    var n := LineEnd(s);
    if (s[0] == '\r' && |s| > 1 && s[1] == '\n') || IsBreak(s[0]) || |s| == 1 {
    } else {
      FirstLineIsOneLine(s[1..]);
      assert s[..n][1..] == s[1..][..n - 1];
    }
  }

  /** Splitting loses nothing: joining the lines gives the text back, and each piece is one line. */
  lemma {:induction false} JoinSplit(s: string)
    ensures Join(SplitKeep(s)) == s
    ensures forall l :: l in SplitKeep(s) ==> OneLine(l)
  {
    if s != "" {
      JoinSplit(s[LineEnd(s)..]);
      FirstLineIsOneLine(s);
      assert s == s[..LineEnd(s)] + s[LineEnd(s)..];
    }
  }

  /** A line stops at a boundary or at the end, and never between `\r` and `\n`. */
  lemma {:induction false} LineEndStops(s: string)
    requires s != ""
    ensures var n := LineEnd(s);
      n < |s| ==> IsBreak(s[n - 1]) && (s[n - 1] == '\r' ==> s[n] != '\n')
  {
    if (s[0] == '\r' && |s| > 1 && s[1] == '\n') || IsBreak(s[0]) || |s| == 1 {
    } else {
      LineEndStops(s[1..]);
    }
  }

  predicate NoBareReturn(s: string) {
    forall i :: 0 <= i < |s| && s[i] == '\r' ==> i + 1 < |s| && s[i + 1] == '\n'
  }

  /** A text that ends in a line feed and has no bare `\r` is made of closed lines. */
  lemma {:induction false} FeedClosesAll(s: string)
    requires s != "" ==> s[|s| - 1] == '\n'
    requires NoBareReturn(s)
    ensures forall l :: l in SplitKeep(s) ==> Closed(l)
    decreases |s|
  {
    if s != "" {
      var n := LineEnd(s);
      LineEndStops(s);
      FirstLineIsOneLine(s);
      FeedClosesAll(s[n..]);
      assert Closed(s[..n]);
      hide Closed;
      hide LineEnd;
    }
  }

  /** Nothing less will do: in a text made of closed lines there is no bare `\r`. */
  lemma {:induction false} ClosedLinesReturnNone(s: string)
    requires forall l :: l in SplitKeep(s) ==> Closed(l)
    ensures NoBareReturn(s)
    decreases |s|
  {
    if s != "" {
      var n := LineEnd(s);
      var line, rest := s[..n], s[n..];
      assert SplitKeep(s) == [line] + SplitKeep(rest);
      ClosedLinesReturnNone(rest);
      assert line in SplitKeep(s);
      forall i | 0 <= i < |s| && s[i] == '\r' ensures i + 1 < |s| && s[i + 1] == '\n' {
        if i < n - 1 { assert line[i] == s[i]; LineInterior(line, i); }
        assert i >= n ==> rest[i - n] == s[i];
      }
    }
  }

  /** The exception: a line that ends in a bare `\r` is glued to a blank line that follows it. */
  lemma BareReturnGlued(body: string, feed: string, back: string)
    requires NoBreak(body) && feed == "\n" && back == "\r"
    ensures SplitKeep(Join([feed, body + back])) == [feed, body + back]
    ensures SplitKeep(Join([body + back, feed])) == [body + back + feed]
  {
    ReturnLine(body, back);
    ReturnFeedLine(body, feed, back);
    JoinTwo(feed, body + back);
    JoinTwo(body + back, feed);
    FeedFirst(feed, body + back);
  }

  lemma FeedFirst(feed: string, rest: string)
    requires feed == "\n"
    ensures SplitKeep(feed + rest) == [feed] + SplitKeep(rest)
  {
    var s := feed + rest;
    assert s[..1] == feed && s[1..] == rest;
  }

  lemma JoinTwo(x: string, y: string)
    ensures Join([x, y]) == x + y
  {
    assert [x, y][1..] == [y] && [y][1..] == [];
    assert Join([y]) == y + Join([]);
    assert Join([x, y]) == x + Join([y]);
  }

  lemma {:induction false} ReturnLine(body: string, back: string)
    requires NoBreak(body) && back == "\r"
    ensures LineEnd(body + back) == |body| + 1 && SplitKeep(body + back) == [body + back]
  {
    if body != "" {
      ReturnLine(body[1..], back);
      assert (body + back)[1..] == body[1..] + back;
    }
    assert (body + back)[..|body| + 1] == body + back && (body + back)[|body| + 1..] == "";
  }

  lemma {:induction false} ReturnFeedLine(body: string, feed: string, back: string)
    requires NoBreak(body) && feed == "\n" && back == "\r"
    ensures LineEnd(body + back + feed) == |body| + 2 && SplitKeep(body + back + feed) == [body + back + feed]
  {
    var s := body + back + feed;
    if body != "" {
      ReturnFeedLine(body[1..], feed, back);
      assert s[1..] == body[1..] + back + feed;
    }
    assert s[..|body| + 2] == s && s[|body| + 2..] == "";
  }

  /** Closed lines survive joining, in any order and number. */
  lemma {:induction false} SplitJoin(lines: seq<string>)
    requires forall l :: l in lines ==> Closed(l)
    ensures SplitKeep(Join(lines)) == lines
  {
    if lines != [] {
      var rest := Join(lines[1..]);
      LineEndStable(lines[0], rest);
      SplitJoin(lines[1..]);
      assert Join(lines) == lines[0] + rest;
      assert (lines[0] + rest)[..|lines[0]|] == lines[0];
      assert (lines[0] + rest)[|lines[0]|..] == rest;
      assert forall l :: l in lines[1..] ==> l in lines;
    }
  }

  lemma {:induction false} ClosedByLineFeed(body: string)
    requires NoBreak(body)
    ensures Closed(body + "\n") && Chop(body + "\n") == body
  {
    var s := body + "\n";
    if body != "" {
      ClosedByLineFeed(body[1..]);
      assert s[1..] == body[1..] + "\n";
      assert !IsBreak(body[0]) && !IsBreak(body[|body| - 1]);
    }
  }

  /** Inside one line the only boundary before the last character is the `\r` of a final `\r\n`. */
  lemma {:induction false} LineInterior(s: string, i: nat)
    requires OneLine(s) && i < |s| - 1 && IsBreak(s[i])
    ensures i == |s| - 2 && s[i] == '\r' && s[i + 1] == '\n'
  {
    if (s[0] == '\r' && |s| > 1 && s[1] == '\n') || IsBreak(s[0]) || |s| == 1 {
    } else {
      assert OneLine(s[1..]);
      LineInterior(s[1..], i - 1);
    }
  }

  lemma LineBodyNoBreak(s: string)
    requires OneLine(s)
    ensures NoBreak(Chop(s))
  {
    forall i | 0 <= i < |Chop(s)| ensures !IsBreak(Chop(s)[i]) {
      assert Chop(s)[i] == s[i];
      if IsBreak(s[i]) && i < |s| - 1 {
        LineInterior(s, i);
      }
    }
  }

  /** No line that `splitlines` returns holds a line boundary. */
  lemma SplitLinesNoBreak(s: string)
    ensures forall l :: l in SplitLines(s) ==> NoBreak(l)
  {
    JoinSplit(s);
    forall l | l in SplitLines(s) ensures NoBreak(l) {
      var i :| 0 <= i < |SplitLines(s)| && SplitLines(s)[i] == l;
      assert SplitKeep(s)[i] in SplitKeep(s);
      LineBodyNoBreak(SplitKeep(s)[i]);
    }
  }

  // -- partition ---------------------------------------------------------

  /** The index of the first `c` in `s`, or `|s|` when there is none. */
  function Find(s: string, c: char): (n: nat)
    ensures n <= |s|
    ensures c !in s[..n]
    ensures n < |s| ==> s[n] == c
  {
    if s == "" || s[0] == c then 0
    else
      var n := Find(s[1..], c);
      assert s[..1 + n] == [s[0]] + s[1..][..n];
      1 + n
  }

  /** `key, sep, value = s.partition("=")`. */
  function Key(s: string): string { s[..Find(s, '=')] }

  predicate HasSep(s: string) { Find(s, '=') < |s| }

  function Value(s: string): string {
    if HasSep(s) then s[Find(s, '=') + 1..] else ""
  }

  /** `partition` undoes gluing a key without `=` to any value. */
  lemma PartitionGlue(key: string, value: string)
    requires '=' !in key
    ensures HasSep(key + "=" + value)
    ensures Key(key + "=" + value) == key && Value(key + "=" + value) == value
  {
    var s := key + "=" + value;
    var n := Find(s, '=');
    assert s[|key|] == '=';
    assert forall i :: 0 <= i < |key| ==> s[i] == key[i] && key[i] in key;
    assert forall i :: 0 <= i < n ==> s[i] in s[..n];
    assert s[..|key|] == key && s[|key| + 1..] == value;
  }
}
