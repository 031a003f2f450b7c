/**
 * The statement splitter of the utilities module (`split_sql_file`), over
 * the text of the file.  The text is cut into lines; each line passes
 * through a small state machine that skips comment lines, tracks block
 * comments and quotes, cuts `--` comments, and closes a statement at every
 * line holding a ';'.
 */
module SqlSplit {
  import opened Outcomes
  import opened Text

  /** What the line loop carries: the closed statements, the open one, and the three flags. */
  datatype State = State(statements: seq<string>, current: seq<string>,
                         inComment: bool, inQuote: bool, quoteChar: Option<char>)

  const Initial := State([], [], false, false, None)

  predicate IsQuote(c: char) { c == '"' || c == '\'' }

  /** Where a `--` comment starts in a line, and the quote state after the scan. */
  datatype Cut = Cut(pos: Option<nat>, inQuote: bool, quoteChar: Option<char>)

  /**
   * The character scan from index `i`: a quote opens when none is open and
   * closes on the same quote character; a `--` outside quotes stops the
   * scan.
   */
  function CutComment(line: string, i: nat, inQuote: bool, quoteChar: Option<char>): (r: Cut)
    requires i <= |line|
    ensures r.pos.Some? ==> i <= r.pos.value && OccursAt(line, "--", r.pos.value)
    decreases |line| - i
  {
    if i == |line| then Cut(None, inQuote, quoteChar)
    else
      var c := line[i];
      if IsQuote(c) then
        if !inQuote then CutComment(line, i + 1, true, Some(c))
        else if quoteChar == Some(c) then CutComment(line, i + 1, false, quoteChar)
        else CutComment(line, i + 1, inQuote, quoteChar)
      else if c == '-' && i + 1 < |line| && line[i + 1] == '-' && !inQuote then
        assert line[i..i + 2] == "--";
        Cut(Some(i), inQuote, quoteChar)
      else CutComment(line, i + 1, inQuote, quoteChar)
  }

  lemma DashAt(line: string, i: nat)
    ensures OccursAt(line, "--", i) <==> i + 1 < |line| && line[i] == '-' && line[i + 1] == '-'
  {
    if i + 2 <= |line| {
      assert line[i..i + 2][0] == line[i] && line[i..i + 2][1] == line[i + 1];
      assert line[i..i + 2] == [line[i], line[i + 1]];
    }
  }

  /**
   * With no quote open and no quote character in the rest of the line, the
   * comment starts at the first `--` from `i`, and the quote state stays.
   */
  lemma {:induction false} CutOutsideQuotes(line: string, i: nat, quoteChar: Option<char>)
    requires i <= |line| && forall j :: i <= j < |line| ==> !IsQuote(line[j])
    ensures var r := CutComment(line, i, false, quoteChar);
            !r.inQuote && r.quoteChar == quoteChar
            && (r.pos.Some? ==> forall j :: i <= j < r.pos.value ==> !OccursAt(line, "--", j))
            && (r.pos.None? ==> forall j :: i <= j ==> !OccursAt(line, "--", j))
    decreases |line| - i
  {
    if i < |line| {
      CutOutsideQuotes(line, i + 1, quoteChar);
      DashAt(line, i);
    }
  }

  /** Inside an open quote with no quote character ahead, nothing is cut and the quote stays open. */
  lemma {:induction false} CutInsideQuote(line: string, i: nat, quoteChar: Option<char>)
    requires i <= |line| && forall j :: i <= j < |line| ==> !IsQuote(line[j])
    ensures CutComment(line, i, true, quoteChar) == Cut(None, true, quoteChar)
    decreases |line| - i
  {
    if i < |line| {
      CutInsideQuote(line, i + 1, quoteChar);
    }
  }

  /** A line whose stripped text starts with `--` or `#`. */
  predicate IsCommentLine(line: string)
  {
    var t := Strip(line);
    "--" <= t || "#" <= t
  }

  /**
   * The second half of the loop body, on the text left of a line once block
   * comments are dealt with: cut a `--` comment, keep a non-blank line, and
   * close the statement when the line holds a ';'.
   */
  function KeepText(st: State, text: string): State
  {
    var cut := CutComment(text, 0, st.inQuote, st.quoteChar);
    var kept := if cut.pos.Some? then text[..cut.pos.value] else text;
    var current := if Strip(kept) != [] then st.current + [kept] else st.current;
    if ';' in kept then State(st.statements + [Join(current, "\n")], [], false, cut.inQuote, cut.quoteChar)
    else State(st.statements, current, false, cut.inQuote, cut.quoteChar)
  }

  /** One pass of the loop body over a line. */
  function StepLine(st: State, line: string): State
  {
    if IsCommentLine(line) then st
    else
      var opens := Contains(line, "/*") && !Contains(line, "*/");
      var text1 := if opens then Before(line, "/*") else line;
      var inComment := opens || st.inComment;
      var closes := Contains(text1, "*/") && inComment;
      if closes then KeepText(st, Before(After(text1, "*/"), "*/"))
      else if inComment then st.(inComment := true)
      else KeepText(st, text1)
  }

  /** The state after the given lines, from `st`. */
  function ProcessLines(st: State, lines: seq<string>): State
    decreases |lines|
  {
    if |lines| == 0 then st
    else ProcessLines(StepLine(st, lines[0]), lines[1..])
  }

  /** `[s for s in ss if s.strip()]`. */
  function NonBlank(ss: seq<string>): (r: seq<string>)
    ensures forall k :: 0 <= k < |r| ==> Strip(r[k]) != [] && r[k] in ss
    ensures forall k :: 0 <= k < |ss| && Strip(ss[k]) != [] ==> ss[k] in r
  {
    if |ss| == 0 then []
    else
      var init := NonBlank(ss[..|ss| - 1]);
      var last := ss[|ss| - 1];
      assert forall k :: 0 <= k < |ss| - 1 ==> ss[k] == ss[..|ss| - 1][k];
      init + (if Strip(last) != [] then [last] else [])
  }

  /** The closed statements, the unterminated last one, and the blank ones dropped. */
  function Finish(st: State): seq<string>
  {
    NonBlank(st.statements + (if |st.current| > 0 then [Join(st.current, "\n")] else []))
  }

  /** `split_sql_file` applied to the text of a file. */
  function SplitSql(content: string): seq<string>
  {
    Finish(ProcessLines(Initial, Split(content, '\n')))
  }

  // ---------------------------------------------------------------------
  // The loops

  /** The inner character loop of the splitter. */
  method FindComment(line: string, inQuote0: bool, quoteChar0: Option<char>)
    returns (commentPos: int, inQuote: bool, quoteChar: Option<char>)
    ensures var c := CutComment(line, 0, inQuote0, quoteChar0);
            commentPos == (if c.pos.Some? then c.pos.value else -1)
            && inQuote == c.inQuote && quoteChar == c.quoteChar
  {
    commentPos, inQuote, quoteChar := -1, inQuote0, quoteChar0;
    var i := 0;
    while i < |line|
      invariant 0 <= i <= |line|
      invariant CutComment(line, 0, inQuote0, quoteChar0) == CutComment(line, i, inQuote, quoteChar)
    {
      var c := line[i];
      if c == '"' || c == '\'' {
        if !inQuote {
          inQuote, quoteChar := true, Some(c);
        } else if quoteChar == Some(c) {
          inQuote := false;
        }
      } else if c == '-' && i + 1 < |line| && line[i + 1] == '-' && !inQuote {
        commentPos := i;
        return;
      }
      i := i + 1;
    }
  }

  /** The part of the loop body that keeps a line's text outside a block comment. */
  method KeepLine(statements0: seq<string>, current0: seq<string>, inComment0: bool, inQuote0: bool,
                  quoteChar0: Option<char>, text: string)
    returns (statements: seq<string>, current: seq<string>, inQuote: bool, quoteChar: Option<char>)
    ensures State(statements, current, false, inQuote, quoteChar)
            == KeepText(State(statements0, current0, inComment0, inQuote0, quoteChar0), text)
  {
    statements, current := statements0, current0;
    var line := text;
    var commentPos;
    commentPos, inQuote, quoteChar := FindComment(line, inQuote0, quoteChar0);
    if commentPos >= 0 {
      line := line[..commentPos];
    }
    if Strip(line) != [] {
      current := current + [line];
    }
    if ';' in line {
      statements := statements + [Join(current, "\n")];
      current := [];
    }
  }

  /** One pass of the loop body over a line. */
  method ProcessLine(statements0: seq<string>, current0: seq<string>, inComment0: bool, inQuote0: bool,
                     quoteChar0: Option<char>, line0: string)
    returns (statements: seq<string>, current: seq<string>, inComment: bool, inQuote: bool, quoteChar: Option<char>)
    ensures State(statements, current, inComment, inQuote, quoteChar)
            == StepLine(State(statements0, current0, inComment0, inQuote0, quoteChar0), line0)
  {
    statements, current, inComment, inQuote, quoteChar := statements0, current0, inComment0, inQuote0, quoteChar0;
    if IsCommentLine(line0) {
      return;
    }
    var line := line0;
    if Contains(line, "/*") && !Contains(line, "*/") {
      inComment := true;
      line := Before(line, "/*");
    }
    if Contains(line, "*/") && inComment {
      inComment := false;
      line := Before(After(line, "*/"), "*/");
      statements, current, inQuote, quoteChar := KeepLine(statements0, current0, inComment0, inQuote0, quoteChar0, line);
    } else if !inComment {
      statements, current, inQuote, quoteChar := KeepLine(statements0, current0, inComment0, inQuote0, quoteChar0, line);
    }
  }

  /** The state after line `i` carries the rest of the lines to the same end. */
  lemma LinesStep(st: State, lines: seq<string>, i: nat, next: State)
    requires i < |lines| && next == StepLine(st, lines[i])
    ensures ProcessLines(next, lines[i + 1..]) == ProcessLines(st, lines[i..])
  {
    assert lines[i..][1..] == lines[i + 1..];
  }

  /** `split_sql_file` on the text of a file, as the line loop the source runs. */
  method SplitSqlFile(content: string) returns (result: seq<string>)
    ensures result == SplitSql(content)
  {
    var lines := Split(content, '\n');
    var statements: seq<string> := [];
    var current: seq<string> := [];
    var inComment, inQuote, quoteChar: Option<char> := false, false, None;
    var i := 0;
    assert lines[0..] == lines;
    while i < |lines|
      invariant 0 <= i <= |lines|
      invariant ProcessLines(State(statements, current, inComment, inQuote, quoteChar), lines[i..])
                == ProcessLines(Initial, lines)
    {
      ghost var st := State(statements, current, inComment, inQuote, quoteChar);
      statements, current, inComment, inQuote, quoteChar :=
        ProcessLine(statements, current, inComment, inQuote, quoteChar, lines[i]);
      LinesStep(st, lines, i, State(statements, current, inComment, inQuote, quoteChar));
      i := i + 1;
    }
    assert lines[i..] == [];
    ghost var final := State(statements, current, inComment, inQuote, quoteChar);
    if |current| > 0 {
      statements := statements + [Join(current, "\n")];
    }
    assert statements == final.statements + (if |final.current| > 0 then [Join(final.current, "\n")] else []);
    result := NonBlank(statements);
  }

  // ---------------------------------------------------------------------
  // Properties

  /** A comment line contributes nothing and changes no flag. */
  lemma CommentLineSkipped(st: State, line: string)
    requires IsCommentLine(line)
    ensures StepLine(st, line) == st
  {
  }

  lemma PrefixContains(a: string, s: string, p: string)
    requires a <= s && Contains(a, p)
    ensures Contains(s, p)
  {
    var k := IndexOf(a, p).value;
    assert s[k..k + |p|] == a[k..k + |p|];
    ContainsAt(s, p, k);
  }

  // A line that opens a block comment without closing it enters comment
  // mode and adds nothing: the text before the opening marker is computed
  // but then skipped along with the rest of the line.
  lemma BlockCommentOpens(st: State, line: string)
    requires !IsCommentLine(line) && Contains(line, "/*") && !Contains(line, "*/")
    ensures StepLine(st, line) == st.(inComment := true)
  {
    if Contains(Before(line, "/*"), "*/") {
      PrefixContains(Before(line, "/*"), line, "*/");
    }
  }

  // Inside a block comment, every line without the closing marker is skipped.
  lemma InsideBlockComment(st: State, line: string)
    requires st.inComment && !Contains(line, "*/")
    ensures StepLine(st, line) == st
  {
    if !IsCommentLine(line) && Contains(line, "/*") {
      BlockCommentOpens(st, line);
    }
  }

  // The line that closes a block comment goes on with the text after the
  // closing marker, up to a second closing marker, as `split(...)[1]` gives.
  lemma BlockCommentCloses(st: State, line: string)
    requires st.inComment && !IsCommentLine(line) && Contains(line, "*/")
    ensures StepLine(st, line) == KeepText(st, Before(After(line, "*/"), "*/"))
  {
  }

  lemma CutAtFirst(text: string, quoteChar: Option<char>, k: nat)
    requires forall j :: 0 <= j < |text| ==> !IsQuote(text[j])
    requires OccursAt(text, "--", k) && forall j :: 0 <= j < k ==> !OccursAt(text, "--", j)
    ensures CutComment(text, 0, false, quoteChar) == Cut(Some(k), false, quoteChar)
  {
    CutOutsideQuotes(text, 0, quoteChar);
  }

  lemma CutBeforeFirst(text: string, quoteChar: Option<char>, k: nat)
    requires forall j :: 0 <= j < |text| ==> !IsQuote(text[j])
    requires k <= |text| && forall j :: 0 <= j < k ==> !OccursAt(text, "--", j)
    ensures CutComment(text[..k], 0, false, quoteChar) == Cut(None, false, quoteChar)
  {
    var t := text[..k];
    CutOutsideQuotes(t, 0, quoteChar);
    forall j | 0 <= j
      ensures !OccursAt(t, "--", j)
    {
      DashAt(t, j);
      DashAt(text, j);
    }
  }

  /**
   * Outside quotes, on a line with no quote character, a `--` comment cuts
   * the line at its first occurrence.
   */
  lemma DashCommentCut(st: State, text: string, k: nat)
    requires !st.inQuote && forall j :: 0 <= j < |text| ==> !IsQuote(text[j])
    requires OccursAt(text, "--", k) && forall j :: 0 <= j < k ==> !OccursAt(text, "--", j)
    ensures CutComment(text, 0, false, st.quoteChar).pos == Some(k)
    ensures KeepText(st, text) == KeepText(st, text[..k])
  {
    CutAtFirst(text, st.quoteChar, k);
    CutBeforeFirst(text, st.quoteChar, k);
    assert text[..k][..k] == text[..k];
  }

  /** Inside an open quote, a line with no quote character is kept whole and the quote stays open. */
  lemma QuoteSpansLine(st: State, text: string)
    requires st.inQuote && forall j :: 0 <= j < |text| ==> !IsQuote(text[j])
    ensures var r := KeepText(st, text);
            r.inQuote && r.quoteChar == st.quoteChar
            && (';' !in text ==>
                  r.statements == st.statements
                  && r.current == (if Strip(text) != [] then st.current + [text] else st.current))
            && (';' in text ==> r.statements == st.statements + [Join(st.current + [text], "\n")] && r.current == [])
  {
    CutInsideQuote(text, 0, st.quoteChar);
    if ';' in text {
      var i :| 0 <= i < |text| && text[i] == ';';
      assert !IsSpace(text[i]);
      StripEmpty(text);
    }
  }

  /**
   * Outside quotes, on a line with no quote character and no `--`, the
   * whole line is kept: a line with a ';' closes the open statement with
   * that line as its last, and a line without one is added to it when it
   * is not blank.
   */
  lemma PlainLineKept(st: State, text: string)
    requires !st.inQuote && forall j :: 0 <= j < |text| ==> !IsQuote(text[j])
    requires forall j :: 0 <= j < |text| ==> !OccursAt(text, "--", j)
    ensures var r := KeepText(st, text);
            !r.inQuote && !r.inComment && r.quoteChar == st.quoteChar
            && (';' !in text ==>
                  r.statements == st.statements
                  && r.current == (if Strip(text) != [] then st.current + [text] else st.current))
            && (';' in text ==> r.statements == st.statements + [Join(st.current + [text], "\n")] && r.current == [])
  {
    CutOutsideQuotes(text, 0, st.quoteChar);
    var cut := CutComment(text, 0, false, st.quoteChar);
    assert cut.pos.None?;
    if ';' in text {
      SemicolonNotBlank(text);
    }
  }

  lemma {:induction false} JoinAppend(parts: seq<string>, x: string, sep: string)
    ensures Join(parts + [x], sep) == if |parts| == 0 then x else Join(parts, sep) + sep + x
    decreases |parts|
  {
    if |parts| >= 2 {
      assert (parts + [x])[1..] == parts[1..] + [x];
      JoinAppend(parts[1..], x, sep);
    } else if |parts| == 1 {
      assert (parts + [x])[1..] == [x];
    }
  }

  /** Every closed statement holds a ';'; the open one is non-blank lines without any. */
  ghost predicate Shaped(st: State)
  {
    (forall k :: 0 <= k < |st.statements| ==> ';' in st.statements[k])
    && (forall k :: 0 <= k < |st.current| ==> ';' !in st.current[k] && Strip(st.current[k]) != [])
  }

  /** A text holding a ';' is not blank. */
  lemma SemicolonNotBlank(kept: string)
    requires ';' in kept
    ensures Strip(kept) != []
  {
    var i :| 0 <= i < |kept| && kept[i] == ';';
    assert !AllSpace(kept) by { assert !IsSpace(kept[i]); }
    StripEmpty(kept);
  }

  /** Joining lines, the last of which holds a ';', gives a text holding a ';'. */
  lemma JoinKeepsSemicolon(parts: seq<string>, kept: string)
    requires ';' in kept
    ensures ';' in Join(parts + [kept], "\n")
  {
    var i :| 0 <= i < |kept| && kept[i] == ';';
    JoinAppend(parts, kept, "\n");
    var joined := Join(parts + [kept], "\n");
    assert joined[|joined| - |kept| + i] == ';';
  }

  /** Closing a statement on a text with a ';' keeps the state `Shaped`. */
  lemma CloseShaped(st: State, kept: string, inQuote: bool, quoteChar: Option<char>)
    requires Shaped(st) && ';' in kept
    ensures var current := if Strip(kept) != [] then st.current + [kept] else st.current;
            Shaped(State(st.statements + [Join(current, "\n")], [], false, inQuote, quoteChar))
  {
    SemicolonNotBlank(kept);
    JoinKeepsSemicolon(st.current, kept);
  }

  /** Keeping a text without a ';' in the open statement keeps the state `Shaped`. */
  lemma ExtendShaped(st: State, kept: string, inQuote: bool, quoteChar: Option<char>)
    requires Shaped(st) && ';' !in kept
    ensures var current := if Strip(kept) != [] then st.current + [kept] else st.current;
            Shaped(State(st.statements, current, false, inQuote, quoteChar))
  {
    var current := if Strip(kept) != [] then st.current + [kept] else st.current;
    assert forall k :: 0 <= k < |st.current| ==> current[k] == st.current[k];
  }

  lemma KeepTextShaped(st: State, text: string)
    requires Shaped(st)
    ensures Shaped(KeepText(st, text))
  {
    var cut := CutComment(text, 0, st.inQuote, st.quoteChar);
    var kept := if cut.pos.Some? then text[..cut.pos.value] else text;
    if ';' in kept {
      CloseShaped(st, kept, cut.inQuote, cut.quoteChar);
    } else {
      ExtendShaped(st, kept, cut.inQuote, cut.quoteChar);
    }
  }

  lemma StepLineShaped(st: State, line: string)
    requires Shaped(st)
    ensures Shaped(StepLine(st, line))
  {
    if !IsCommentLine(line) {
      var opens := Contains(line, "/*") && !Contains(line, "*/");
      var text1 := if opens then Before(line, "/*") else line;
      if Contains(text1, "*/") && (opens || st.inComment) {
        KeepTextShaped(st, Before(After(text1, "*/"), "*/"));
      } else if !(opens || st.inComment) {
        KeepTextShaped(st, text1);
      }
    }
  }

  /** The line loop keeps every state `Shaped`. */
  lemma {:induction false} ProcessLinesShaped(st: State, lines: seq<string>)
    requires Shaped(st)
    ensures Shaped(ProcessLines(st, lines))
    decreases |lines|
  {
    if |lines| > 0 {
      StepLineShaped(st, lines[0]);
      ProcessLinesShaped(StepLine(st, lines[0]), lines[1..]);
    }
  }

  /**
   * `NonBlank(ss)` keeps the order of `ss`: when every element but the
   * last holds a ';', so does every result but the last.
   */
  lemma {:induction false} NonBlankKeepsSemicolons(ss: seq<string>)
    requires forall k :: 0 <= k < |ss| - 1 ==> ';' in ss[k]
    ensures var r := NonBlank(ss); forall k :: 0 <= k < |r| - 1 ==> ';' in r[k]
  {
    if |ss| > 0 {
      var init := ss[..|ss| - 1];
      assert forall k :: 0 <= k < |init| ==> init[k] == ss[k];
      var ni := NonBlank(init);
      assert forall k :: 0 <= k < |ni| ==> ';' in ni[k] by {
        forall k | 0 <= k < |ni| ensures ';' in ni[k] {
          var m :| 0 <= m < |init| && init[m] == ni[k];
        }
      }
    }
  }

  /** Dropping blank statements works element by element, from the front. */
  lemma NonBlankAppend(ss: seq<string>, x: string)
    ensures NonBlank(ss + [x]) == NonBlank(ss) + (if Strip(x) != [] then [x] else [])
  {
    assert (ss + [x])[..|ss|] == ss;
  }

  /** A join of lines the first of which is not blank is not blank. */
  lemma JoinNotBlank(parts: seq<string>, sep: string)
    requires |parts| > 0 && Strip(parts[0]) != []
    ensures Strip(Join(parts, sep)) != []
  {
    StripEmpty(parts[0]);
    var i :| 0 <= i < |parts[0]| && !IsSpace(parts[0][i]);
    var joined := Join(parts, sep);
    assert joined[i] == parts[0][i];
    StripEmpty(joined);
  }

  /**
   * The end of the split: the closed statements in order, blank ones
   * dropped, and then the open statement when it is not blank.
   */
  lemma FinishKeepsTrailing(st: State)
    ensures |st.current| > 0 && Strip(Join(st.current, "\n")) != [] ==>
              Finish(st) == NonBlank(st.statements) + [Join(st.current, "\n")]
    ensures |st.current| == 0 ==> Finish(st) == NonBlank(st.statements)
  {
    if |st.current| > 0 {
      NonBlankAppend(st.statements, Join(st.current, "\n"));
    } else {
      assert st.statements + [] == st.statements;
    }
  }

  /** The open statement of a `Shaped` state is never dropped at the end. */
  lemma ShapedTrailingKept(st: State)
    requires Shaped(st) && |st.current| > 0
    ensures Finish(st) == NonBlank(st.statements) + [Join(st.current, "\n")]
  {
    JoinNotBlank(st.current, "\n");
    FinishKeepsTrailing(st);
  }

  /**
   * The result of the split: the closed statements in order, blank ones
   * dropped, followed by the unterminated rest when any line of it is kept.
   */
  lemma SplitSqlKeepsTrailing(content: string)
    ensures var st := ProcessLines(Initial, Split(content, '\n'));
            SplitSql(content)
            == NonBlank(st.statements) + (if |st.current| > 0 then [Join(st.current, "\n")] else [])
  {
    var st := ProcessLines(Initial, Split(content, '\n'));
    ProcessLinesShaped(Initial, Split(content, '\n'));
    if |st.current| > 0 {
      ShapedTrailingKept(st);
    } else {
      FinishKeepsTrailing(st);
    }
  }

  /**
   * Every statement of the result is non-blank, and all but the last
   * contain a ';': only a trailing statement may lack one.
   */
  lemma SplitSqlStatements(content: string)
    ensures var r := SplitSql(content);
            (forall k :: 0 <= k < |r| ==> Strip(r[k]) != [])
            && (forall k :: 0 <= k < |r| - 1 ==> ';' in r[k])
  {
    var st := ProcessLines(Initial, Split(content, '\n'));
    ProcessLinesShaped(Initial, Split(content, '\n'));
    var all := st.statements + (if |st.current| > 0 then [Join(st.current, "\n")] else []);
    assert forall k :: 0 <= k < |all| - 1 ==> ';' in all[k] by {
      forall k | 0 <= k < |all| - 1 ensures ';' in all[k] {
        assert all[k] == st.statements[k];
      }
    }
    NonBlankKeepsSemicolons(all);
  }
}
