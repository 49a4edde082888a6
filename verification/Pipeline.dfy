/**
 * The guards that chain the normalizer's stages: `normalize` and `_apply_order`
 * of `formatter.py`, `escalate` of `generator.py`, `_process_file` of
 * `engine.py`. The YAML library, the linter, the credential scrub and the
 * reasoning layer are arbitrary functions here: nothing is assumed of what
 * they return, only the guards are trusted.
 */
module Pipeline {
  import opened Wrappers
  import opened Text
  import opened Comments

  /** What Python's `float` makes of an answer: a number, an infinity, or NaN, which compares false with everything. */
  datatype Confidence = NotANumber | Infinite(positive: bool) | Number(r: real)

  /** `confidence < threshold`. */
  predicate Below(c: Confidence, threshold: real) {
    match c
    case NotANumber => false
    case Infinite(positive) => !positive
    case Number(r) => r < threshold
  }

  /** `confidence >= threshold`. */
  predicate AtLeast(c: Confidence, threshold: real) {
    match c
    case NotANumber => false
    case Infinite(positive) => positive
    case Number(r) => r >= threshold
  }

  /** What the reasoning layer answers: a whole file and how sure it is. */
  datatype Answer = Answer(content: string, confidence: Confidence)

  /** The canonical projection of a parsed text, unless the text is not YAML, or is and the projection raises. */
  datatype Reading<P> = NotYaml | Fails | Means(projection: P)

  /**
   * Everything the normalizer calls. `values` is the value stage from text to
   * text, with the rules it skipped, and `steps`, `reorder` the key orders,
   * each `None` when the source's `except` or a refusal is reached.
   */
  datatype Tools<!P(==), !S> = Tools(
    project: string -> Reading<P>,
    values: string -> Option<(string, seq<string>)>,
    steps: string -> Option<seq<S>>,
    rule: S -> string,
    reorder: (string, S) -> Option<string>,
    lints: string -> bool,
    ask: (string, string, seq<string>) -> Option<Answer>,
    scrub: string -> string,
    threshold: real)

  /** What a check says, or that it raises. */
  datatype Verdict = Yes | No | Raised

  /** `is_equivalent`: false for a text that is not YAML; otherwise both are projected, and either projection may raise. */
  function Judged<P(==), S>(t: Tools<P, S>, before: string, after: string): Verdict {
    var x, y := t.project(before), t.project(after);
    if x.NotYaml? || y.NotYaml? then No
    else if x.Fails? || y.Fails? then Raised
    else if x == y then Yes
    else No
  }

  /** `_same_meaning`. */
  function Compared<P(==), S>(t: Tools<P, S>, before: string, after: string): Verdict {
    var v := Judged(t, before, after);
    if v.Yes? && CommentsIn(before) != CommentsIn(after) then No else v
  }

  predicate Equivalent<P(==), S>(t: Tools<P, S>, before: string, after: string) {
    Judged(t, before, after).Yes?
  }

  predicate SameMeaning<P(==), S>(t: Tools<P, S>, before: string, after: string) {
    Compared(t, before, after).Yes?
  }

  /** Two texts are equivalent exactly when both are YAML and their projections are defined and equal; */
  lemma EquivalentIs<P, S>(t: Tools<P, S>, before: string, after: string)
    ensures Equivalent(t, before, after) <==> t.project(before).Means? && t.project(after) == t.project(before)
    ensures SameMeaning(t, before, after) <==> Equivalent(t, before, after) && CommentsIn(before) == CommentsIn(after)
    ensures Judged(t, before, after).Raised? <==> RaisesOn(t, before, after)
    ensures Compared(t, before, after).Raised? <==> RaisesOn(t, before, after)
  {
    hide CommentsIn;
  }

  datatype Normalized = Normalized(content: string, changed: bool, skipped: seq<string>)

  /** The reorders in turn, each checked on its own: the text left and the rules skipped; `None` if a check raises. */
  function Chain<P(==), S>(t: Tools<P, S>, text: string, steps: seq<S>): Option<(string, seq<string>)>
    decreases |steps|
  {
    if steps == [] then Some((text, []))
    else
      var reordered := t.reorder(text, steps[0]);
      var v := if reordered.None? then No else Compared(t, text, reordered.value);
      match v
      case Raised => None
      case Yes => Chain(t, reordered.value, steps[1..])
      case No =>
        var rest := Chain(t, text, steps[1..]);
        if rest.None? then None else Some((rest.value.0, [t.rule(steps[0])] + rest.value.1))
  }

  /** However many reorders go through, the last text means what the first one meant. */
  lemma {:induction false} ChainKeepsMeaning<P, S>(t: Tools<P, S>, text: string, steps: seq<S>)
    requires t.project(text).Means? && Chain(t, text, steps).Some?
    ensures SameMeaning(t, text, Chain(t, text, steps).value.0)
    decreases |steps|
  {
    hide CommentsIn;
    if steps != [] {
      var reordered := t.reorder(text, steps[0]);
      if reordered.None? || !SameMeaning(t, text, reordered.value) {
        ChainKeepsMeaning(t, text, steps[1..]);
      } else {
        ChainKeepsMeaning(t, reordered.value, steps[1..]);
      }
    }
  }

  /** The loop of `_apply_order`; `None` when a check in it raises. */
  method ApplyOrder<P(==), S>(t: Tools<P, S>, reshaped: string, steps: seq<S>) returns (r: Option<(string, seq<string>)>)
    ensures r == Chain(t, reshaped, steps)
  {
    hide Compared;
    var text, skipped := reshaped, [];
    assert steps[0..] == steps;
    ChainFrom(t, reshaped, [], steps);
    for i := 0 to |steps|
      invariant After(skipped, Chain(t, text, steps[i..])) == Chain(t, reshaped, steps)
    {
      assert steps[i..][1..] == steps[i + 1..];
      var reordered := t.reorder(text, steps[i]);
      var v := if reordered.None? then No else Compared(t, text, reordered.value);
      match v
      case Raised => return None;
      case Yes => text := reordered.value;
      case No =>
        AfterMore(skipped, t.rule(steps[i]), Chain(t, text, steps[i + 1..]));
        skipped := skipped + [t.rule(steps[i])];
    }
    assert skipped + [] == skipped;
    r := Some((text, skipped));
  }

  /** What is left to do, after the rules skipped so far. */
  function After(skipped: seq<string>, rest: Option<(string, seq<string>)>): Option<(string, seq<string>)> {
    if rest.None? then None else Some((rest.value.0, skipped + rest.value.1))
  }

  lemma ChainFrom<P, S>(t: Tools<P, S>, text: string, none: seq<string>, steps: seq<S>)
    requires none == []
    ensures After(none, Chain(t, text, steps)) == Chain(t, text, steps)
  {
    hide Chain;
    var rest := Chain(t, text, steps);
    assert rest.Some? ==> none + rest.value.1 == rest.value.1;
  }

  lemma AfterMore(skipped: seq<string>, rule: string, rest: Option<(string, seq<string>)>)
    ensures After(skipped, After([rule], rest)) == After(skipped + [rule], rest)
  {
    if rest.Some? { assert skipped + ([rule] + rest.value.1) == (skipped + [rule]) + rest.value.1; }
  }

  /** What `normalize` does with a text: it refuses, it lets an exception escape, or it returns a result. */
  datatype Formatting = Refused | Crashed | Done(file: Normalized)

  /** `normalize`. Only the first of its checks stands outside its `try` blocks. */
  function FormattingOf<P(==), S>(t: Tools<P, S>, text: string): Formatting {
    var staged := t.values(text);
    if staged.None? then Refused
    else
      var (reshaped, skipped) := staged.value;
      match Compared(t, text, reshaped)
      case Raised => Crashed
      case No => Refused
      case Yes =>
        var steps := t.steps(reshaped);
        if steps.None? then Refused
        else
          var ordered := Chain(t, reshaped, steps.value);
          if ordered.None? || !t.lints(ordered.value.0) then Refused
          else Done(Normalized(ordered.value.0, ordered.value.0 != text, skipped + ordered.value.1))
  }

  method Normalize<P(==), S>(t: Tools<P, S>, text: string) returns (r: Formatting)
    ensures r == FormattingOf(t, text)
    ensures r.Done? ==> SameMeaning(t, text, r.file.content)
    ensures r.Done? ==> t.lints(r.file.content) && r.file.changed == (r.file.content != text)
    ensures r.Done? ==> t.values(text).Some? && t.values(text).value.1 <= r.file.skipped
    ensures r.Crashed? <==> t.values(text).Some? && RaisesOn(t, text, t.values(text).value.0)
  {
    FormattedIsSafe(t, text);
    var staged := t.values(text);
    if staged.None? {
      return Refused;
    }
    var (reshaped, skipped) := staged.value;
    var v := Compared(t, text, reshaped);
    if v.Raised? {
      return Crashed;
    }
    if v.No? {
      return Refused;
    }
    var steps := t.steps(reshaped);
    if steps.None? {
      return Refused;
    }
    var ordered := ApplyOrder(t, reshaped, steps.value);
    if ordered.None? {
      return Refused;
    }
    skipped := skipped + ordered.value.1;
    if !t.lints(ordered.value.0) {
      return Refused;
    }
    r := Done(Normalized(ordered.value.0, ordered.value.0 != text, skipped));
  }

  /** Both texts are YAML, and the projection of one of them raises. */
  predicate RaisesOn<P(==), S>(t: Tools<P, S>, before: string, after: string) {
    !t.project(before).NotYaml? && !t.project(after).NotYaml? && (t.project(before).Fails? || t.project(after).Fails?)
  }

  /** A result means what the text meant; an exception escapes exactly when the projection of the text, or of its reshaped form, raises. */
  lemma FormattedIsSafe<P, S>(t: Tools<P, S>, text: string)
    ensures var r := FormattingOf(t, text);
      (r.Done? ==> SameMeaning(t, text, r.file.content) && t.lints(r.file.content)
                   && t.values(text).Some? && t.values(text).value.1 <= r.file.skipped)
      && (r.Crashed? <==> t.values(text).Some? && RaisesOn(t, text, t.values(text).value.0))
  {
    hide CommentsIn;
    var staged := t.values(text);
    if staged.Some? && SameMeaning(t, text, staged.value.0) {
      var steps := t.steps(staged.value.0);
      if steps.Some? && Chain(t, staged.value.0, steps.value).Some? {
        ChainKeepsMeaning(t, staged.value.0, steps.value);
        hide Chain;
      }
    }
  }

  /** The value stage and the reorders return, the first under a check that passes. */
  ghost predicate Formats<P, S>(t: Tools<P, S>, text: string, reshaped: string, first: seq<string>, steps: seq<S>,
                              content: string, rest: seq<string>) {
    && t.values(text) == Some((reshaped, first)) && SameMeaning(t, text, reshaped)
    && t.steps(reshaped) == Some(steps) && Chain(t, reshaped, steps) == Some((content, rest))
  }

  /**
   * `normalize` returns a result exactly when the value stage keeps what the
   * text means, the reorders return and the linter passes: the text they left,
   * whether it is another one, and all the rules skipped on the way.
   */
  lemma ReturnsExactly<P(!new), S(!new)>(t: Tools<P, S>, text: string, content: string, changed: bool, skipped: seq<string>)
    ensures FormattingOf(t, text) == Done(Normalized(content, changed, skipped)) <==>
      t.lints(content) && changed == (content != text)
      && exists reshaped, first, steps, rest ::
           Formats(t, text, reshaped, first, steps, content, rest) && skipped == first + rest
  {
    hide CommentsIn;
    if FormattingOf(t, text) == Done(Normalized(content, changed, skipped)) {
      var (reshaped, first) := t.values(text).value;
      var steps := t.steps(reshaped).value;
      var rest := Chain(t, reshaped, steps).value.1;
      assert Formats(t, text, reshaped, first, steps, content, rest);
    }
  }

  datatype Escalation = Escalation(ok: bool, content: string, confidence: Confidence) | EscalationRaised

  /** `content.replace("\t", "  ")`. */
  function Untabbed(s: string): string {
    if s == "" then "" else (if s[0] == '\t' then "  " else [s[0]]) + Untabbed(s[1..])
  }

  /** `escalate`: the gate chain an answer of the reasoning layer has to pass. */
  function Escalate<P(==), S>(t: Tools<P, S>, path: string, current: string, violations: seq<string>): Escalation {
    var raw := t.ask(path, current, violations);
    if raw.None? then Escalation(false, "", Number(0.0))
    else
      var scrubbed := t.scrub(raw.value.content);
      var confidence := raw.value.confidence;
      if Below(confidence, t.threshold) then Escalation(false, "", confidence)
      else if Strip(scrubbed) == "" then Escalation(false, "", confidence)
      else
        var content := Untabbed(scrubbed);
        if t.project(content).NotYaml? then Escalation(false, "", confidence)
        else
          match Judged(t, current, content)
          case Raised => EscalationRaised
          case No => Escalation(false, "", confidence)
          case Yes => Escalation(true, content, confidence)
  }

  lemma {:induction false} UntabbedHasNoTab(s: string)
    ensures '\t' !in Untabbed(s)
    ensures Untabbed(s) == s <==> '\t' !in s
    ensures |Untabbed(s)| >= |s|
  {
    if s != "" {
      UntabbedHasNoTab(s[1..]);
      assert s == [s[0]] + s[1..];
      assert '\t' in s <==> s[0] == '\t' || '\t' in s[1..];
      assert |s[1..]| == |s| - 1;
    }
  }

  /** Each tab becomes two spaces and every other character stays. */
  lemma {:induction false} TabsReplaced(a: string, b: string, tab: string)
    requires '\t' !in a && tab == "\t"
    ensures Untabbed(a + tab + b) == a + "  " + Untabbed(b)
  {
    if a == "" {
      assert (a + tab + b)[1..] == b;
    } else {
      assert (a + tab + b)[1..] == a[1..] + tab + b;
      TabsReplaced(a[1..], b, tab);
    }
  }

  /** The gates an answer has to pass, in the order they are asked. */
  predicate Passes<P(==), S>(t: Tools<P, S>, current: string, raw: Answer, content: string) {
    && (match raw.confidence
        case Number(r) => r >= t.threshold
        case Infinite(positive) => positive
        case NotANumber => true)
    && Strip(t.scrub(raw.content)) != "" && content == Untabbed(t.scrub(raw.content))
    && t.project(content) != NotYaml && t.project(current) == t.project(content) && t.project(content) != Fails
  }

  /** An answer is let through exactly when it is sure enough, not blank and equivalent; it comes without its credentials and tabs. */
  lemma EscalateAccepts<P, S>(t: Tools<P, S>, path: string, current: string, violations: seq<string>,
                                content: string, confidence: Confidence)
    ensures Escalate(t, path, current, violations) == Escalation(true, content, confidence) <==>
      var raw := t.ask(path, current, violations);
      raw.Some? && raw.value.confidence == confidence && Passes(t, current, raw.value, content)
    ensures var e := Escalate(t, path, current, violations); e.Escalation? && !e.ok ==> e.content == ""
  {
    hide Strip;
    hide Untabbed;
  }

  /**
   * Only an equivalent answer passes, with no tab in it and a confidence that
   * is not below the threshold; it is at the threshold or above exactly when
   * it is not NaN.
   */
  lemma EscalateIsSafe<P, S>(t: Tools<P, S>, path: string, current: string, violations: seq<string>)
    ensures var e := Escalate(t, path, current, violations);
      e.Escalation? && e.ok ==> Equivalent(t, current, e.content) && '\t' !in e.content && !Below(e.confidence, t.threshold)
    ensures var e := Escalate(t, path, current, violations);
      e.Escalation? && e.ok ==> (AtLeast(e.confidence, t.threshold) <==> !e.confidence.NotANumber?)
  {
    var raw := t.ask(path, current, violations);
    if raw.Some? { UntabbedHasNoTab(t.scrub(raw.value.content)); }
  }

  /** Escalating a file whose own projection is defined raises only over an answer whose projection raises. */
  lemma EscalateRaises<P, S>(t: Tools<P, S>, path: string, current: string, violations: seq<string>)
    ensures var raw := t.ask(path, current, violations);
      Escalate(t, path, current, violations).EscalationRaised?
      <==> raw.Some? && !Below(raw.value.confidence, t.threshold) && Strip(t.scrub(raw.value.content)) != ""
           && RaisesOn(t, current, Untabbed(t.scrub(raw.value.content)))
  {
    hide Strip;
    hide Untabbed;
  }

  /** An answer that is otherwise in order passes with NaN for its confidence, whatever the threshold. */
  lemma NaNPasses<P, S>(t: Tools<P, S>, path: string, current: string, violations: seq<string>)
    requires t.ask(path, current, violations) == Some(Answer(current, NotANumber))
    requires t.scrub(current) == current && Strip(current) != "" && '\t' !in current && t.project(current).Means?
    ensures Escalate(t, path, current, violations) == Escalation(true, current, NotANumber)
    ensures !AtLeast(Escalate(t, path, current, violations).confidence, t.threshold)
  {
    UntabbedHasNoTab(current);
    hide Untabbed;
    hide Strip;
  }

  /** One scanned file: where it is, what it holds, and what the scanner said of it. */
  datatype Report = Report(path: string, content: string, misnamed: bool, notCompose: bool)

  datatype FileChange = FileChange(oldPath: string, newPath: string, content: string, rename: bool, confidence: Confidence)

  /** How a proposed content came about. */
  datatype Origin = Formatted | FormattedThenEscalated | Escalated

  /** `path.rsplit("/", 1)[0]`. */
  function Directory(path: string): string {
    var n := LastSlash(path);
    if n.Some? then path[..n.value] else path
  }

  function LastSlash(path: string): (n: Option<nat>)
    ensures n.Some? ==> n.value < |path| && path[n.value] == '/' && '/' !in path[n.value + 1..]
    ensures n.None? ==> '/' !in path
  {
    if path == "" then None
    else if path[|path| - 1] == '/' then Some(|path| - 1)
    else
      assert path == path[..|path| - 1] + [path[|path| - 1]];
      var n := LastSlash(path[..|path| - 1]);
      if n.Some? then
        assert path[n.value + 1..] == path[..|path| - 1][n.value + 1..] + [path[|path| - 1]];
        n
      else n
  }

  lemma {:induction false} LastSlashIs(path: string, n: nat)
    requires n < |path| && path[n] == '/' && '/' !in path[n + 1..]
    ensures LastSlash(path) == Some(n)
  {
    var end := |path| - 1;
    if n < end {
      assert path[n + 1..][end - n - 1] == path[end];
      assert path[n + 1..] == path[..end][n + 1..] + [path[end]];
      LastSlashIs(path[..end], n);
    }
  }

  /** Everything before the last slash of a path is its directory; a name without a slash stands for itself. */
  lemma DirectoryOf(dir: string, slash: string, name: string)
    requires slash == "/" && '/' !in name
    ensures Directory(dir + slash + name) == dir && Directory(name) == name
  {
    var path := dir + slash + name;
    assert path[|dir| + 1..] == name && path[|dir|] == '/' && path[..|dir|] == dir;
    LastSlashIs(path, |dir|);
  }

  /** A misnamed file is moved, when asked for, to `compose.yaml` in its directory. */
  function NewPath(report: Report, renameMisnamed: bool): (path: string)
    ensures !report.misnamed || !renameMisnamed ==> path == report.path
    ensures report.misnamed && renameMisnamed ==>
      forall dir: string, name: string :: '/' !in name && report.path == dir + "/" + name ==> path == dir + "/compose.yaml"
  {
    if report.misnamed && renameMisnamed then
      MovedWithin(report.path);
      Directory(report.path) + "/compose.yaml"
    else report.path
  }

  lemma MovedWithin(path: string)
    ensures forall dir: string, name: string :: '/' !in name && path == dir + "/" + name ==> Directory(path) == dir
  {
    forall dir: string, name: string | '/' !in name && path == dir + "/" + name ensures Directory(path) == dir {
      DirectoryOf(dir, "/", name);
    }
  }

  /** What becomes of one file: nothing, an exception, or a change. */
  datatype Outcome = Unchanged | Raises | Proposed(change: FileChange)

  /** An exception escapes `_process_file`: from `normalize`, or from an escalation it asks for. */
  predicate CrashesOn<P(==), S>(t: Tools<P, S>, report: Report) {
    !report.notCompose
    && match FormattingOf(t, report.content)
       case Crashed => true
       case Refused => Escalate(t, report.path, report.content, []).EscalationRaised?
       case Done(file) => file.skipped != [] && Escalate(t, report.path, file.content, file.skipped).EscalationRaised?
  }

  /** The file would end up with this content under this path: a change, unless that is what is there. */
  predicate Proposes(outcome: Outcome, report: Report, newPath: string, content: string, confidence: Confidence) {
    if content == report.content && newPath == report.path then outcome == Unchanged
    else outcome == Proposed(FileChange(report.path, newPath, content, newPath != report.path, confidence))
  }

  /**
   * `_process_file`: a file that formats in full is proposed as formatted, with
   * certainty; one whose rules were skipped as the reasoning layer answers, if
   * it is let through, and else as formatted; and one that does not format only
   * as an answer that is let through. Whichever it is, it means to Docker what
   * the file meant, and a content that the reasoning layer did not write keeps
   * every comment of the file.
   */
  method ProcessFile<P(==), S>(t: Tools<P, S>, report: Report, renameMisnamed: bool)
    returns (outcome: Outcome, ghost origin: Origin)
    ensures outcome.Raises? <==> CrashesOn(t, report)
    ensures report.notCompose ==> outcome == Unchanged
    ensures !report.notCompose && FormattingOf(t, report.content).Done? && FormattingOf(t, report.content).file.skipped == [] ==>
      Proposes(outcome, report, NewPath(report, renameMisnamed), FormattingOf(t, report.content).file.content, Number(1.0))
      && origin == Formatted
    ensures !report.notCompose && FormattingOf(t, report.content).Done? && FormattingOf(t, report.content).file.skipped != [] ==>
      var file := FormattingOf(t, report.content).file;
      match Escalate(t, report.path, file.content, file.skipped)
      case EscalationRaised => outcome == Raises
      case Escalation(true, content, confidence) =>
        Proposes(outcome, report, NewPath(report, renameMisnamed), content, confidence) && origin == FormattedThenEscalated
      case Escalation(false, _, _) =>
        Proposes(outcome, report, NewPath(report, renameMisnamed), file.content, Number(1.0)) && origin == Formatted
    ensures !report.notCompose && FormattingOf(t, report.content).Refused? ==>
      match Escalate(t, report.path, report.content, [])
      case EscalationRaised => outcome == Raises
      case Escalation(true, content, confidence) =>
        Proposes(outcome, report, NewPath(report, renameMisnamed), content, confidence) && origin == Escalated
      case Escalation(false, _, _) => outcome == Unchanged
    ensures outcome.Proposed? ==>
      && Equivalent(t, report.content, outcome.change.content)
      && !report.notCompose && outcome.change.oldPath == report.path
      && outcome.change.rename == (outcome.change.newPath != report.path)
      && (outcome.change.content != report.content || outcome.change.rename)
      && (outcome.change.rename ==> report.misnamed && renameMisnamed)
    ensures outcome.Proposed? && origin == Formatted ==>
      CommentsIn(outcome.change.content) == CommentsIn(report.content) && outcome.change.confidence == Number(1.0)
    ensures outcome.Proposed? && origin != Formatted ==>
      '\t' !in outcome.change.content && !Below(outcome.change.confidence, t.threshold)
      && (AtLeast(outcome.change.confidence, t.threshold) <==> !outcome.change.confidence.NotANumber?)
  {
    hide CommentsIn;
    hide Escalate;
    origin := Formatted;
    if report.notCompose {
      return Unchanged, origin;
    }
    var newPath := report.path;
    if report.misnamed && renameMisnamed {
      newPath := Directory(report.path) + "/compose.yaml";
    }
    var content, confidence;
    var formatted := Normalize(t, report.content);
    hide FormattingOf;
    if formatted.Crashed? {
      return Raises, origin;
    }
    if formatted.Refused? {
      var escalated := Escalate(t, report.path, report.content, []);
      EscalateIsSafe(t, report.path, report.content, []);
      if escalated.EscalationRaised? {
        return Raises, origin;
      }
      if !escalated.ok {
        return Unchanged, origin;
      }
      content, confidence, origin := escalated.content, escalated.confidence, Escalated;
    } else if formatted.file.skipped != [] {
      var escalated := Escalate(t, report.path, formatted.file.content, formatted.file.skipped);
      EscalateIsSafe(t, report.path, formatted.file.content, formatted.file.skipped);
      if escalated.EscalationRaised? {
        return Raises, origin;
      }
      content := if escalated.ok then escalated.content else formatted.file.content;
      confidence := if escalated.ok then escalated.confidence else Number(1.0);
      origin := if escalated.ok then FormattedThenEscalated else Formatted;
    } else {
      content, confidence := formatted.file.content, Number(1.0);
    }
    var changed := content != report.content;
    var renamed := newPath != report.path;
    if !changed && !renamed {
      return Unchanged, origin;
    }
    outcome := Proposed(FileChange(report.path, newPath, content, renamed, confidence));
  }
}
