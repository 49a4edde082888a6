/**
 * The comment scanner of `formatter.py`, which the formatter uses to prove that
 * a rewrite kept every comment. The scanner restarts on every line, so what it
 * counts does not depend on the order of the lines.
 */
module Comments {
  import opened Wrappers
  import opened Text

  /** Where the scanner is in a line: inside a quoted scalar, after a backslash, and the last character that counts. */
  datatype Scan = Scan(quote: Option<char>, escaped: bool, prev: Option<char>)

  const START := Scan(None, false, None)

  predicate Spaced(line: string, i: nat)
    requires i < |line|
  {
    i > 0 && (line[i - 1] == ' ' || line[i - 1] == '\t')
  }

  /** A quote opens a scalar only where a scalar can start. */
  predicate OpensQuote(st: Scan, line: string, i: nat)
    requires i < |line|
  {
    (line[i] == '"' || line[i] == '\'')
    && (st.prev.None? || st.prev.value in "[{," || (st.prev.value in ":-?" && Spaced(line, i)))
  }

  predicate CommentStarts(st: Scan, line: string, i: nat)
    requires i < |line|
  {
    st.quote != Some('"') && st.quote != Some('\'') && !OpensQuote(st, line, i)
    && line[i] == '#' && (i == 0 || Spaced(line, i))
  }

  /** The scanner's state after reading one character that does not start a comment. */
  function Advance(st: Scan, line: string, i: nat): Scan
    requires i < |line|
  {
    var c := line[i];
    var next :=
      if st.quote == Some('"') then
        if st.escaped then st.(escaped := false)
        else if c == '\\' then st.(escaped := true)
        else if c == '"' then st.(quote := None)
        else st
      else if st.quote == Some('\'') then
        if c == '\'' then st.(quote := None) else st
      else if OpensQuote(st, line, i) then st.(quote := Some(c))
      else st;
    if !IsSpace(c) && next.quote.None? then next.(prev := Some(c)) else next
  }

  function ScanFrom(st: Scan, line: string, i: nat): Option<string>
    requires i <= |line|
    decreases |line| - i
  {
    if i == |line| then None
    else if CommentStarts(st, line, i) then Some(Strip(line[i..]))
    else ScanFrom(Advance(st, line, i), line, i + 1)
  }

  /** The comment on one line, if it has one. */
  function CommentIn(line: string): Option<string> { ScanFrom(START, line, 0) }

  function One(line: string): multiset<string> {
    var c := CommentIn(line);
    if c.Some? then multiset{c.value} else multiset{}
  }

  function CommentsOf(lines: seq<string>): multiset<string> {
    if lines == [] then multiset{} else One(lines[0]) + CommentsOf(lines[1..])
  }

  /** Every comment of a text, with its number of occurrences. */
  function CommentsIn(text: string): multiset<string> { CommentsOf(SplitLines(text)) }

  /** `_comments`, as the source's nested loops. */
  method CountComments(text: string) returns (found: multiset<string>)
    ensures found == CommentsIn(text)
  {
    found := multiset{};
    var lines := SplitLines(text);
    for k := 0 to |lines|
      invariant found + CommentsOf(lines[k..]) == CommentsOf(lines)
    {
      var comment := FindComment(lines[k]);
      if comment.Some? {
        found := found + multiset{comment.value};
      }
    }
  }

  /** The inner loop: one line, up to its comment. */
  method FindComment(line: string) returns (comment: Option<string>)
    ensures comment == CommentIn(line)
  {
    var quote: Option<char>, escaped, prev: Option<char> := None, false, None;
    var i := 0;
    while i < |line|
      invariant 0 <= i <= |line|
      invariant ScanFrom(Scan(quote, escaped, prev), line, i) == CommentIn(line)
    {
      var c := line[i];
      var spaced := i > 0 && (line[i - 1] == ' ' || line[i - 1] == '\t');
      ghost var st := Scan(quote, escaped, prev);
      if quote == Some('"') {
        if escaped {
          escaped := false;
        } else if c == '\\' {
          escaped := true;
        } else if c == '"' {
          quote := None;
        }
      } else if quote == Some('\'') {
        if c == '\'' {
          quote := None;
        }
      } else if (c == '"' || c == '\'')
             && (prev.None? || prev.value in "[{," || (prev.value in ":-?" && spaced)) {
        quote := Some(c);
      } else if c == '#' && (i == 0 || spaced) {
        return Some(Strip(line[i..]));
      }
      if !IsSpace(c) && quote.None? {
        prev := Some(c);
      }
      assert Scan(quote, escaped, prev) == Advance(st, line, i);
      i := i + 1;
    }
    return None;
  }

  // -- what a comment is -----------------------------------------------------

  /** A character that can open neither a quoted scalar nor a comment. */
  predicate PlainChar(c: char) { c != '"' && c != '\'' && c != '#' }

  predicate Plain(s: string) { forall k :: 0 <= k < |s| ==> PlainChar(s[k]) }

  lemma {:induction false} ScanPlain(st: Scan, line: string, i: nat, j: nat) returns (t: Scan)
    requires st.quote.None? && i <= j <= |line| && forall k :: i <= k < j ==> PlainChar(line[k])
    ensures t.quote.None? && t.escaped == st.escaped && ScanFrom(st, line, i) == ScanFrom(t, line, j)
    ensures i < j && !IsSpace(line[j - 1]) ==> t.prev == Some(line[j - 1])
    ensures i == j ==> t == st
    decreases j - i
  {
    t := st;
    if i < j { t := ScanPlain(Advance(st, line, i), line, i + 1, j); }
  }

  /** After plain text, a `#` that follows a blank starts the comment, and the rest of the line is that comment. */
  lemma CommentAfterPlain(body: string, blank: char, mark: string, rest: string)
    requires Plain(body) && (blank == ' ' || blank == '\t') && mark == "#"
    ensures CommentIn(body + [blank] + mark + rest) == Some(Strip(mark + rest))
  {
    var line := body + [blank] + mark + rest;
    var n := |body| + 1;
    assert line[n..] == mark + rest && line[n] == '#' && line[n - 1] == blank;
    assert forall k :: 0 <= k < |body| ==> line[k] == body[k];
    hide Strip;
    hide Advance;
    hide IsSpace;
    var t := ScanPlain(START, line, 0, n);
    hide Plain;
    assert CommentStarts(t, line, n);
  }

  /** A `#` glued to plain text starts none, and a line of plain text holds none. */
  lemma GluedMarkIsPlain(body: string, last: char, mark: string, rest: string)
    requires Plain(body) && PlainChar(last) && last != ' ' && last != '\t' && mark == "#" && Plain(rest)
    ensures CommentIn(body + [last] + mark + rest) == None && CommentIn(body) == None
  {
    var line := body + [last] + mark + rest;
    var n := |body| + 1;
    assert line[n] == '#' && line[n - 1] == last;
    assert forall k :: 0 <= k < |body| ==> line[k] == body[k];
    assert forall k :: n < k < |line| ==> line[k] == rest[k - n - 1];
    var t := ScanPlain(START, line, 0, n);
    var u := ScanPlain(Advance(t, line, n), line, n + 1, |line|);
    var v := ScanPlain(START, body, 0, |body|);
  }

  lemma {:induction false} ScanDouble(st: Scan, line: string, i: nat, j: nat)
    requires st.quote == Some('"') && !st.escaped && i <= j < |line| && line[j] == '"'
    requires forall k :: i <= k < j ==> line[k] != '"' && line[k] != '\\'
    ensures ScanFrom(st, line, i) == ScanFrom(Scan(None, false, Some('"')), line, j + 1)
    decreases j - i
  {
    if i < j { ScanDouble(st, line, i + 1, j); }
  }

  lemma {:induction false} ScanSingle(st: Scan, line: string, i: nat, j: nat)
    requires st.quote == Some('\'') && i <= j < |line| && line[j] == '\'' && forall k :: i <= k < j ==> line[k] != '\''
    ensures ScanFrom(st, line, i) == ScanFrom(Scan(None, st.escaped, Some('\'')), line, j + 1)
    decreases j - i
  {
    if i < j { ScanSingle(st, line, i + 1, j); }
  }

  lemma BlankThenMark(st: Scan, line: string, j: nat)
    requires st.quote.None? && j + 1 < |line| && line[j] == ' ' && line[j + 1] == '#'
    ensures ScanFrom(st, line, j) == Some(Strip(line[j + 1..]))
  {
    hide Strip;
    hide IsSpace;
    assert !CommentStarts(st, line, j) && Advance(st, line, j).quote.None?;
    assert CommentStarts(Advance(st, line, j), line, j + 1);
  }

  lemma QuoteOpens(st: Scan, line: string, i: nat)
    requires st == Scan(None, false, Some(':')) && 0 < i < |line| && line[i - 1] == ' '
    requires line[i] == '"' || line[i] == '\''
    ensures ScanFrom(st, line, i) == ScanFrom(st.(quote := Some(line[i])), line, i + 1)
  {
    hide Strip;
    hide IsSpace;
    assert OpensQuote(st, line, i);
  }

  lemma ScanQuoted(line: string, quote: char, i: nat, j: nat)
    requires (quote == '"' || quote == '\'') && i < j < |line| - 2 && line[i] == quote && line[j] == quote
    requires forall k :: i < k < j ==> line[k] != quote && line[k] != '\\'
    requires i > 0 && line[i - 1] == ' ' && line[j + 1] == ' ' && line[j + 2] == '#'
    ensures ScanFrom(Scan(None, false, Some(':')), line, i) == Some(Strip(line[j + 2..]))
  {
    var st := Scan(None, false, Some(':'));
    QuoteOpens(st, line, i);
    BlankThenMark(Scan(None, false, Some(quote)), line, j + 1);
    hide ScanFrom;
    if quote == '"' {
      ScanDouble(st.(quote := Some(quote)), line, i + 1, j);
    } else {
      ScanSingle(st.(quote := Some(quote)), line, i + 1, j);
    }
  }

  /**
   * In a quoted value, after `key: `, no `#` starts a comment: the comment of
   * the line is the one after the closing quote.
   */
  lemma CommentAfterQuoted(key: string, colon: string, quote: string, inner: string, mark: string, rest: string)
    requires Plain(key) && colon == ": " && (quote == "\"" || quote == "'") && mark == " #"
    requires forall k :: 0 <= k < |inner| ==> inner[k] != quote[0] && inner[k] != '\\'
    ensures CommentIn(key + colon + quote + inner + quote + mark + rest) == Some(Strip(mark[1..] + rest))
  {
    var line := key + colon + quote + inner + quote + mark + rest;
    var a, b := |key| + 2, |key| + 3 + |inner|;
    assert forall k :: 0 <= k < |key| ==> line[k] == key[k];
    assert line[a - 2] == ':' && line[a - 1] == ' ' && line[a] == quote[0];
    assert forall k :: a < k < b ==> line[k] == inner[k - a - 1];
    assert line[b] == quote[0] && line[b + 1] == ' ' && line[b + 2] == '#' && line[b + 2..] == mark[1..] + rest;
    hide Plain;
    var t := ValueStarts(line, a, key);
    ScanQuoted(line, quote[0], a, b);
  }

  lemma ValueStarts(line: string, a: nat, key: string) returns (t: Scan)
    requires Plain(key) && a == |key| + 2 <= |line| && line[a - 2] == ':' && line[a - 1] == ' '
    requires forall k :: 0 <= k < |key| ==> line[k] == key[k]
    ensures t == Scan(None, false, Some(':')) && CommentIn(line) == ScanFrom(t, line, a)
  {
    t := ScanPlain(START, line, 0, a - 1);
  }

  /** Where no scalar can start, as in `it's`, a quote is a character like any other. */
  lemma ApostropheIsPlain(body: string, last: char, quote: char, mark: string, rest: string)
    requires Plain(body) && PlainChar(last) && !IsSpace(last) && last !in "[{,:-?" && (quote == '"' || quote == '\'')
    requires mark == " #"
    ensures CommentIn(body + [last] + [quote] + mark + rest) == Some(Strip(mark[1..] + rest))
  {
    var line := body + [last] + [quote] + mark + rest;
    var n := |body| + 1;
    assert forall k :: 0 <= k < |body| ==> line[k] == body[k];
    assert line[n - 1] == last && line[n] == quote && line[n + 1] == ' ' && line[n + 2] == '#';
    assert line[n + 2..] == mark[1..] + rest;
    hide Strip;
    var t := ScanPlain(START, line, 0, n);
    hide IsSpace;
    hide Plain;
    assert !OpensQuote(t, line, n) && !CommentStarts(t, line, n);
    BlankThenMark(Advance(t, line, n), line, n + 1);
  }

  // -- order independence --------------------------------------------------

  lemma {:induction false} CommentsAppend(a: seq<string>, b: seq<string>)
    ensures CommentsOf(a + b) == CommentsOf(a) + CommentsOf(b)
  {
    if a == [] {
      assert a + b == b;
    } else {
      assert (a + b)[0] == a[0] && (a + b)[1..] == a[1..] + b;
      CommentsAppend(a[1..], b);
    }
  }

  /** The comments of a list of lines depend only on the multiset of lines. */
  lemma {:induction false} CommentsPermuted(a: seq<string>, b: seq<string>)
    requires multiset(a) == multiset(b)
    ensures CommentsOf(a) == CommentsOf(b)
  {
    if a == [] {
      assert |multiset(b)| == 0;
    } else {
      var k := HeadInPermutation(a, b);
      var x, y := b[..k], b[k + 1..];
      assert a == [a[0]] + a[1..] && b == x + ([b[k]] + y);
      CommentsPermuted(a[1..], x + y);
      CommentsAppend(x, y);
      CommentsAppend(x, [b[k]] + y);
      CommentsAppend([b[k]], y);
      assert CommentsOf([b[k]]) == One(a[0]);
    }
  }

  /**
   * Putting the lines of a text in any other order keeps every comment, as
   * long as each line ends in a boundary that is not a bare `\r`.
   */
  lemma CommentsSurviveReordering(text: string, lines: seq<string>)
    requires multiset(lines) == multiset(SplitKeep(text))
    requires forall l :: l in lines ==> Closed(l)
    ensures CommentsIn(Join(lines)) == CommentsIn(text)
  {
    SplitJoin(lines);
    MapPermuted(Chop, lines, SplitKeep(text));
    CommentsPermuted(Map(Chop, lines), SplitLines(text));
  }

  /**
   * The line feed is needed: an unterminated last line, put first, is glued to
   * its new neighbour, and the scanner reads the two as one line.
   */
  lemma UnterminatedLineGlued(a: string, c: string, feed: string)
    requires NoBreak(a) && NoBreak(c) && c != "" && feed == "\n"
    ensures SplitKeep(a + feed + c) == [a + feed, c]
    ensures CommentsIn(a + feed + c) == One(a) + One(c)
    ensures CommentsIn(Join([c, a + feed])) == One(c + a)
  {
    KeptApart(a, c, feed);
    Glued(a, c, feed);
    hide *;
    CommentsOfTwo(a + feed + c, a + feed, c);
    CommentsOfOne(Join([c, a + feed]), c + a + feed);
  }

  lemma CommentsOfTwo(text: string, x: string, y: string)
    requires SplitKeep(text) == [x, y]
    ensures CommentsIn(text) == One(Chop(x)) + One(Chop(y))
  {
    hide SplitKeep;
    hide Chop;
    hide One;
    assert SplitLines(text) == [Chop(x), Chop(y)];
    TwoLines(Chop(x), Chop(y));
  }

  lemma CommentsOfOne(text: string, x: string)
    requires SplitKeep(text) == [x]
    ensures CommentsIn(text) == One(Chop(x))
  {
    hide SplitKeep;
    hide Chop;
    hide One;
    assert SplitLines(text) == [Chop(x)];
    TwoLines(Chop(x), Chop(x));
  }

  lemma KeptApart(a: string, c: string, feed: string)
    requires NoBreak(a) && NoBreak(c) && c != "" && feed == "\n"
    ensures SplitKeep(a + feed + c) == [a + feed, c] && Chop(a + feed) == a && Chop(c) == c
  {
    ClosedLine(a, feed);
    LastLine(c);
    hide *;
    ClosedThenRest(a + feed, c);
  }

  lemma Glued(a: string, c: string, feed: string)
    requires NoBreak(a) && NoBreak(c) && feed == "\n"
    ensures SplitKeep(Join([c, a + feed])) == [c + a + feed] && Chop(c + a + feed) == c + a
  {
    var glued := c + a;
    ClosedLine(glued, feed);
    hide *;
    JoinTwo(c, a + feed);
    assert c + (a + feed) == glued + feed;
  }

  lemma ClosedLine(a: string, feed: string)
    requires NoBreak(a) && feed == "\n"
    ensures Closed(a + feed) && Chop(a + feed) == a && SplitKeep(a + feed) == [a + feed]
  {
    ClosedByLineFeed(a);
    LastLine(a + feed);
  }

  lemma ClosedThenRest(first: string, c: string)
    requires Closed(first) && c != "" && SplitKeep(c) == [c]
    ensures SplitKeep(first + c) == [first, c]
  {
    LineEndStable(first, c);
    hide LineEnd;
    var text := first + c;
    assert text[..|first|] == first && text[|first|..] == c;
  }

  lemma {:induction false} LastLine(s: string)
    requires s != "" && (NoBreak(s) || OneLine(s))
    ensures SplitKeep(s) == [s]
    ensures NoBreak(s) ==> Chop(s) == s
  {
    if NoBreak(s) { NoBreakOneLine(s); }
    assert s[..|s|] == s && s[|s|..] == "";
  }

  lemma {:induction false} NoBreakOneLine(s: string)
    requires s != "" && NoBreak(s)
    ensures OneLine(s)
  {
    if |s| > 1 { NoBreakOneLine(s[1..]); }
  }

  lemma TwoLines(a: string, b: string)
    ensures CommentsOf([a, b]) == One(a) + One(b)
    ensures CommentsOf([a]) == One(a)
  {
    assert [a, b] == [a] + [b];
    assert [a][1..] == [] && [b][1..] == [];
    CommentsAppend([a], [b]);
  }

  /** So every file that ends in an unterminated comment line loses that comment when the line is moved up. */
  lemma GluedCommentLost(a: string, c: string, feed: string)
    requires NoBreak(a) && NoBreak(c) && a != "" && Trimmed(a) && c != "" && Trimmed(c) && c[0] == '#' && feed == "\n"
    ensures c in CommentsIn(a + feed + c) && c !in CommentsIn(Join([c, a + feed]))
  {
    UnterminatedLineGlued(a, c, feed);
    CommentLine(c);
    CommentLine(c + a);
    assert |c| != |c + a|;
  }

  lemma CommentLine(s: string)
    requires s != "" && Trimmed(s) && s[0] == '#'
    ensures One(s) == multiset{s}
  {
    StripIsTrim(s);
    assert s[0..] == s;
  }
}
