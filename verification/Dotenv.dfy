/**
 * The `.env` parser and printer of `gitcrypt.py`. A Python `dict` keeps the
 * order in which keys were first set, so it is a sequence of entries here, and
 * every equality below includes key order.
 */
module Dotenv {
  import opened Wrappers
  import opened Text
  import opened PyDict

  type Dict = seq<Entry<string, string>>

  // -- the source's functions ----------------------------------------------

  predicate WordStart(c: char) { 'A' <= c <= 'Z' || 'a' <= c <= 'z' || c == '_' }

  /** `[A-Za-z_][A-Za-z0-9_]*`, matched in full. */
  predicate ValidKey(key: string) {
    key != "" && WordStart(key[0]) && forall c :: c in key ==> WordStart(c) || '0' <= c <= '9'
  }

  /** What `check_dotenv_entry` lets through. */
  predicate EntryAccepted(key: string, value: string) {
    ValidKey(key) && '\n' !in value && '\r' !in value
  }

  /** An ASCII letter or digit, by code point. */
  predicate Letter(c: char) { 65 <= c as int <= 90 || 97 <= c as int <= 122 }

  predicate Digit(c: char) { 48 <= c as int <= 57 }

  /** The key is a word of letters, digits and underscores that starts with no digit, and the value holds neither line feed nor return. */
  lemma AcceptedExactly(key: string, value: string)
    ensures EntryAccepted(key, value) <==>
      key != "" && (forall i :: 0 <= i < |key| ==> Letter(key[i]) || Digit(key[i]) || key[i] == '_') && !Digit(key[0])
      && forall i :: 0 <= i < |value| ==> value[i] != '\n' && value[i] != '\r'
  {
    assert forall i :: 0 <= i < |key| ==> key[i] in key;
  }

  predicate Skipped(stripped: string) {
    stripped == "" || stripped[0] == '#' || !HasSep(stripped)
  }

  /** One turn of the parser's loop. */
  function ParseLine(d: Dict, line: string): Dict {
    var l := Strip(line);
    if Skipped(l) then d else Put(d, Strip(Key(l)), Strip(Value(l)))
  }

  function ParseLines(d: Dict, lines: seq<string>): Dict
    decreases |lines|
  {
    if lines == [] then d else ParseLines(ParseLine(d, lines[0]), lines[1..])
  }

  function Parsed(content: string): Dict {
    ParseLines([], SplitLines(content))
  }

  function Lines(d: Dict): (lines: seq<string>)
    ensures |lines| == |d|
    ensures forall i :: 0 <= i < |d| ==> lines[i] == d[i].key + "=" + d[i].value + "\n"
  {
    if d == [] then [] else [d[0].key + "=" + d[0].value + "\n"] + Lines(d[1..])
  }

  /** `serialize_dotenv`. */
  function Serialized(d: Dict): string { Join(Lines(d)) }

  /** The body of the loop: skip, or set one key. */
  method ParseOne(result: Dict, raw: string) returns (after: Dict)
    ensures after == ParseLine(result, raw)
  {
    after := result;
    var line := Strip(raw);
    if line == "" || line[0] == '#' {
      return;
    }
    if HasSep(line) {
      after := Put(after, Strip(Key(line)), Strip(Value(line)));
    }
  }

  /** The loop of `parse_dotenv` over the lines it was given. */
  method ParseEach(lines: seq<string>) returns (result: Dict)
    ensures result == ParseLines([], lines)
  {
    result := [];
    for i := 0 to |lines|
      invariant ParseLines(result, lines[i..]) == ParseLines([], lines)
    {
      result := ParseOne(result, lines[i]);
    }
  }

  /** `parse_dotenv`. */
  method ParseDotenv(content: string) returns (result: Dict)
    ensures result == Parsed(content)
    ensures Clean(result)
  {
    result := ParseEach(SplitLines(content));
    ParsedClean(content);
  }

  // -- what a line sets --------------------------------------------------------

  predicate AllSpace(s: string) { forall i :: 0 <= i < |s| ==> IsSpace(s[i]) }

  lemma {:induction false} LStripPadded(a: string, s: string)
    requires AllSpace(a) && (s != "" ==> !IsSpace(s[0]))
    ensures LStrip(a + s) == s
  {
    if a == "" {
      assert a + s == s;
    } else {
      assert (a + s)[1..] == a[1..] + s;
      LStripPadded(a[1..], s);
    }
  }

  lemma {:induction false} RStripPadded(s: string, b: string)
    requires AllSpace(b) && (s != "" ==> !IsSpace(s[|s| - 1]))
    ensures RStrip(s + b) == s
  {
    if b == "" {
      assert s + b == s;
    } else {
      assert (s + b)[..|s + b| - 1] == s + b[..|b| - 1];
      RStripPadded(s, b[..|b| - 1]);
    }
  }

  /** Stripping takes the white space around a trimmed text, and no more. */
  lemma StripPadded(a: string, s: string, b: string)
    requires AllSpace(a) && AllSpace(b) && Trimmed(s)
    ensures Strip(a + s + b) == s
  {
    hide IsSpace;
    if s == "" {
      assert a + s + b == (a + b) + "";
      LStripPadded(a + b, "");
    } else {
      assert a + s + b == a + (s + b);
      LStripPadded(a, s + b);
      RStripPadded(s, b);
    }
  }

  lemma StrippedSets(d: Dict, line: string, key: string, b: string, sep: string, tail: string, value: string)
    requires AllSpace(b) && sep == "=" && key != "" && Trimmed(key) && '=' !in key && key[0] != '#'
    requires Strip(line) == key + b + sep + tail && Strip(tail) == value
    ensures ParseLine(d, line) == Put(d, key, value)
  {
    EqualsIsNotSpace(b);
    hide IsSpace;
    hide Strip;
    var l := key + b + sep + tail;
    assert l[0] == key[0] && l == (key + b) + "=" + tail;
    assert '=' !in key + b;
    PartitionGlue(key + b, tail);
    hide Key;
    hide Value;
    hide HasSep;
    StripPadded("", key, b);
    assert "" + key + b == key + b;
  }

  /** `key = value` sets that key to that value, with white space anywhere around the two. */
  lemma EntrySets(d: Dict, a: string, key: string, b: string, sep: string, c: string, value: string, e: string)
    requires AllSpace(a) && AllSpace(b) && AllSpace(c) && AllSpace(e) && sep == "="
    requires key != "" && Trimmed(key) && Trimmed(value) && '=' !in key && key[0] != '#'
    ensures ParseLine(d, a + key + b + sep + c + value + e) == Put(d, key, value)
  {
    EqualsIsNotSpace(sep);
    hide IsSpace;
    hide Strip;
    var line := a + key + b + sep + c + value + e;
    var tail, rest := if value == "" then "" else c + value, if value == "" then c + e else e;
    var l := key + b + sep + tail;
    assert l[0] == key[0] && l[|l| - 1] == if value == "" then sep[0] else value[|value| - 1];
    assert line == a + l + rest;
    StripPadded(a, l, rest);
    StripPadded(if value == "" then "" else c, value, "");
    assert (if value == "" then "" else c) + value + "" == tail;
    StrippedSets(d, line, key, b, sep, tail, value);
  }

  lemma EqualsIsNotSpace(s: string)
    ensures AllSpace(s) ==> '=' !in s
    ensures s == "=" ==> !IsSpace(s[0])
  {
  }

  /** Blank lines, comment lines and lines without `=` set nothing. */
  lemma OtherLinesSetNothing(d: Dict, a: string, s: string, e: string)
    requires AllSpace(a) && AllSpace(e) && Trimmed(s) && (s == "" || s[0] == '#' || '=' !in s)
    ensures ParseLine(d, a + s + e) == d
  {
    StripPadded(a, s, e);
    hide Strip;
    assert forall i :: 0 <= i < |s| ==> s[i] in s;
  }

  // -- what survives printing ------------------------------------------------

  predicate CleanValue(v: string) { NoBreak(v) && Trimmed(v) }

  predicate CleanKey(k: string) {
    NoBreak(k) && Trimmed(k) && '=' !in k && (k != "" ==> k[0] != '#')
  }

  /** A dictionary each of whose entries prints as one line that reads back as itself. */
  predicate Clean(d: Dict) {
    Distinct(d) && forall e :: e in d ==> CleanKey(e.key) && CleanValue(e.value)
  }

  lemma StripClean(s: string)
    requires NoBreak(s)
    ensures CleanValue(Strip(s))
    ensures s != "" && !IsSpace(s[0]) && Strip(s) != "" ==> Strip(s)[0] == s[0]
    ensures '=' !in s ==> '=' !in Strip(s)
  {
    StripIsTrim(s);
    var i, j :| 0 <= i <= j <= |s| && Strip(s) == s[i..j];
  }

  lemma CleanPut(d: Dict, key: string, value: string)
    requires Clean(d)
    ensures CleanKey(key) && CleanValue(value) ==> Clean(Put(d, key, value))
    ensures Entry(key, value) in Put(d, key, value)
  {
    hide CleanKey;
    hide CleanValue;
    PutSets(d, key, value);
  }

  lemma ParseLineClean(d: Dict, line: string)
    requires Clean(d) && NoBreak(line)
    ensures Clean(ParseLine(d, line))
  {
    hide Clean;
    var l := Strip(line);
    StripClean(line);
    if !Skipped(l) {
      LineClean(l);
      CleanPut(d, Strip(Key(l)), Strip(Value(l)));
    }
  }

  lemma LineClean(l: string)
    requires CleanValue(l) && !Skipped(l)
    ensures CleanKey(Strip(Key(l))) && CleanValue(Strip(Value(l)))
  {
    StripClean(Key(l));
    StripClean(Value(l));
    hide Strip;
  }

  lemma {:induction false} ParseLinesClean(d: Dict, lines: seq<string>)
    requires Clean(d)
    requires forall l :: l in lines ==> NoBreak(l)
    ensures Clean(ParseLines(d, lines))
    decreases |lines|
  {
    if lines != [] {
      ParseLineClean(d, lines[0]);
      ParseLinesClean(ParseLine(d, lines[0]), lines[1..]);
    }
  }

  /** Whatever the text, the parser returns clean entries under distinct keys. */
  lemma ParsedClean(content: string)
    ensures Clean(Parsed(content))
  {
    SplitLinesNoBreak(content);
    ParseLinesClean([], SplitLines(content));
  }

  lemma ReadBackEntry(d: Dict, e: Entry<string, string>)
    requires CleanKey(e.key) && CleanValue(e.value)
    requires forall x :: x in d ==> x.key != e.key
    ensures ParseLine(d, e.key + "=" + e.value) == d + [e]
  {
    EntryLineKept(e);
    KeptStripped(e);
    PutNew(d, e.key, e.value);
    hide *;
    ParseKept(d, e.key + "=" + e.value, e.key, e.value);
  }

  lemma KeptStripped(e: Entry<string, string>)
    requires CleanKey(e.key) && CleanValue(e.value)
    ensures Strip(e.key) == e.key && Strip(e.value) == e.value
  {
    StripIsTrim(e.key);
    StripIsTrim(e.value);
    hide Strip;
  }

  /** A line that is kept and splits into clean parts sets one key. */
  lemma ParseKept(d: Dict, line: string, key: string, value: string)
    requires Strip(line) == line && !Skipped(line) && Key(line) == key && Value(line) == value
    requires Strip(key) == key && Strip(value) == value
    ensures ParseLine(d, line) == Put(d, key, value)
  {
    hide Strip;
    hide Key;
    hide Value;
    hide Skipped;
    hide Put;
  }

  lemma EntryLineTrimmed(e: Entry<string, string>)
    requires CleanKey(e.key) && CleanValue(e.value)
    ensures var line := e.key + "=" + e.value; line != "" && Trimmed(line) && line[0] != '#'
  {
    hide NoBreak;
    var line := e.key + "=" + e.value;
    assert line[0] == if e.key != "" then e.key[0] else '=';
    assert line[|line| - 1] == if e.value != "" then e.value[|e.value| - 1] else '=';
  }

  lemma EntryLineKept(e: Entry<string, string>)
    requires CleanKey(e.key) && CleanValue(e.value)
    ensures var line := e.key + "=" + e.value;
      Strip(line) == line && !Skipped(line) && Key(line) == e.key && Value(line) == e.value
  {
    EntryLineTrimmed(e);
    StripIsTrim(e.key + "=" + e.value);
    PartitionGlue(e.key, e.value);
    hide Strip;
    hide Trimmed;
    hide NoBreak;
    hide Key;
    hide Value;
    hide HasSep;
  }

  lemma {:induction false} ReadBackLines(done: Dict, d: Dict, chopped: seq<string>)
    requires Clean(done + d) && |chopped| == |d|
    requires forall i :: 0 <= i < |d| ==> chopped[i] == d[i].key + "=" + d[i].value
    ensures ParseLines(done, chopped) == done + d
    decreases |d|
  {
    hide Clean;
    hide ParseLine;
    if d != [] {
      var next, rest := done + [d[0]], chopped[1..];
      assert next + d[1..] == done + d;
      ReadBackFirst(done, d);
      assert forall i :: 0 <= i < |rest| ==> rest[i] == chopped[i + 1];
      ReadBackLines(next, d[1..], rest);
      assert ParseLines(done, chopped) == ParseLines(next, rest);
    } else {
      assert done + d == done;
    }
  }

  lemma ReadBackFirst(done: Dict, d: Dict)
    requires Clean(done + d) && d != []
    ensures ParseLine(done, d[0].key + "=" + d[0].value) == done + [d[0]]
  {
    var all := done + d;
    assert all[|done|] == d[0] && d[0] in all;
    forall x | x in done ensures x.key != d[0].key {
      var i :| 0 <= i < |done| && done[i] == x;
      assert all[i] == x;
    }
    ReadBackEntry(done, d[0]);
  }

  /** Printing then parsing is the identity on clean dictionaries. */
  lemma ParseSerialize(d: Dict)
    requires Clean(d)
    ensures Parsed(Serialized(d)) == d
  {
    var lines := Lines(d);
    forall i | 0 <= i < |d| ensures Closed(lines[i]) && Chop(lines[i]) == d[i].key + "=" + d[i].value {
      EntryLineClosed(d, i);
    }
    hide Clean;
    hide Lines;
    hide Closed;
    hide Chop;
    SplitJoin(lines);
    assert [] + d == d;
    hide Join;
    hide SplitKeep;
    hide ParseLines;
    ReadBackLines([], d, Map(Chop, lines));
  }

  lemma EntryLineClosed(d: Dict, i: nat)
    requires Clean(d) && i < |d|
    ensures Closed(Lines(d)[i]) && Chop(Lines(d)[i]) == d[i].key + "=" + d[i].value
  {
    assert d[i] in d;
    var body := d[i].key + "=" + d[i].value;
    assert NoBreak(body);
    hide Trimmed;
    ClosedByLineFeed(body);
  }

  // -- main results ------------------------------------------------------------

  /** Parsing what was printed from a parsed text gives the same dictionary, key order included. */
  lemma RoundTrip(content: string)
    ensures Parsed(Serialized(Parsed(content))) == Parsed(content)
  {
    ParsedClean(content);
    ParseSerialize(Parsed(content));
  }

  /**
   * Setting an accepted entry, printing and parsing again gives the old
   * dictionary with that one key set, exactly when the value has no line
   * boundary and no outer white space. The guard refuses only `\n` and `\r`.
   */
  lemma SetEntryRoundTrip(content: string, key: string, value: string)
    requires EntryAccepted(key, value)
    ensures Parsed(Serialized(Put(Parsed(content), key, value))) == Put(Parsed(content), key, value)
       <==> NoBreak(value) && Trimmed(value)
  {
    var before := Parsed(content);
    ParsedClean(content);
    CleanPut(before, key, value);
    var d := Put(before, key, value);
    ValidKeyClean(key);
    if CleanValue(value) {
      ParseSerialize(d);
    } else {
      assert !Clean(d);
      ParsedClean(Serialized(d));
    }
  }

  lemma ValidKeyClean(key: string)
    requires ValidKey(key)
    ensures CleanKey(key)
  {
    assert forall i :: 0 <= i < |key| ==> key[i] in key;
  }

  /** The guard accepts a value that does not survive: a vertical tab cuts it short. */
  lemma AcceptedValueLost()
    ensures EntryAccepted("K", "a\U{0B}b")
    ensures Parsed(Serialized(Put(Parsed(""), "K", "a\U{0B}b"))) != Put(Parsed(""), "K", "a\U{0B}b")
  {
    var v := "a\U{0B}b";
    assert IsBreak(v[1]);
    SetEntryRoundTrip("", "K", v);
  }
}
