// The failed-test extractor: it reads a detailed results file, collects the names listed under
// the FAILED group (second word of each `Test:` line) and writes them one a line as a test list.

module FailedList {
  import opened Common
  import opened Text
  import opened Classifier
  import opened Session
  import opened Reports
  import TestList

  const FailedMarker := "FAILED Tests"
  const PassedMarker := "PASSED Tests"

  // ---------------------------------------------------------------- the scan, as a function

  /** The names the scan collects from `lines` when `inSection` says whether the FAILED header
      has been seen: the FAILED header opens the section, the PASSED header ends the scan, and
      a `Test:` line inside the section gives its second word (an error when it has none). */
  function Scan(lines: seq<string>, inSection: bool): Result<seq<string>>
    decreases |lines|
  {
    if lines == [] then Ok([])
    else
      var line := lines[0];
      if Contains(line, FailedMarker) then Scan(lines[1..], true)
      else if Contains(line, PassedMarker) then Ok([])
      else if inSection && StartsWith(line, "Test:") then
        var ws := Words(line);
        if |ws| < 2 then Err("list index out of range")
        else Prepend([ws[1]], Scan(lines[1..], inSection))
      else Scan(lines[1..], inSection)
  }

  /** Names found earlier, in front of what the rest of the scan gives. */
  function Prepend(front: seq<string>, rest: Result<seq<string>>): (r: Result<seq<string>>)
    ensures r.Err? <==> rest.Err?
    ensures rest.Ok? ==> r.value == front + rest.value
  {
    match rest
    case Err(e) => Err(e)
    case Ok(ns) => Ok(front + ns)
  }

  lemma PrependAssoc(a: seq<string>, b: seq<string>, rest: Result<seq<string>>)
    ensures Prepend(a, Prepend(b, rest)) == Prepend(a + b, rest)
  {
    if rest.Ok? {
      assert a + (b + rest.value) == (a + b) + rest.value;
    }
  }

  /** A line that mentions `PASSED Tests` but not `FAILED Tests` ends the scan: whatever
      follows it is never read. */
  lemma {:induction false} ScanStopsAtPassed(a: seq<string>, line: string, b: seq<string>, c: seq<string>, inSection: bool)
    requires Contains(line, PassedMarker) && !Contains(line, FailedMarker)
    ensures Scan(a + [line] + b, inSection) == Scan(a + [line] + c, inSection)
    decreases |a|
  {
    if a == [] {
      assert ([line] + b)[0] == line && ([line] + c)[0] == line;
      assert a + [line] + b == [line] + b && a + [line] + c == [line] + c;
    } else {
      var sb := a + [line] + b;
      var sc := a + [line] + c;
      assert sb[0] == a[0] && sc[0] == a[0];
      assert sb[1..] == a[1..] + [line] + b && sc[1..] == a[1..] + [line] + c;
      ScanStopsAtPassed(a[1..], line, b, c, true);
      ScanStopsAtPassed(a[1..], line, b, c, inSection);
    }
  }

  /** Outside the FAILED section, lines without either header contribute nothing: the scan
      goes on after them unchanged. */
  lemma {:induction false} ScanBeforeFailed(a: seq<string>, b: seq<string>)
    requires forall k | 0 <= k < |a| :: !Contains(a[k], FailedMarker) && !Contains(a[k], PassedMarker)
    ensures Scan(a + b, false) == Scan(b, false)
    decreases |a|
  {
    if a == [] {
      assert a + b == b;
    } else {
      var s := a + b;
      assert s[0] == a[0] && s[1..] == a[1..] + b;
      ScanBeforeFailed(a[1..], b);
    }
  }

  /** A file with no `FAILED Tests` line yields no names at all. */
  lemma {:induction false} ScanWithoutFailed(lines: seq<string>)
    requires forall k | 0 <= k < |lines| :: !Contains(lines[k], FailedMarker)
    ensures Scan(lines, false) == Ok([])
    decreases |lines|
  {
    if lines != [] {
      ScanWithoutFailed(lines[1..]);
    }
  }

  /** The extractor on a file's content: the names in order, or the error it stops with. */
  function Extracted(content: string): Result<seq<string>> {
    Scan(Split(content, '\n'), false)
  }

  /** `test_all_previously_failed.list`: each name on its own line. */
  function ListText(names: seq<string>): string {
    Lines(names)
  }

  /** The lines `for line in f` yields from the written list, each with its newline. */
  function WrittenLines(names: seq<string>): seq<string> {
    seq(|names|, k requires 0 <= k < |names| => names[k] + "\n")
  }

  /** A name the list loader reads back: one word that does not start a comment. */
  predicate Reloadable(name: string) {
    name != [] && NoSpace(name) && name[0] != '#'
  }

  /** Every name the scan collects is a single non-empty word. */
  lemma {:induction false} ScanFindsWords(lines: seq<string>, inSection: bool)
    ensures Scan(lines, inSection).Ok? ==>
              forall k | 0 <= k < |Scan(lines, inSection).value| ::
                Scan(lines, inSection).value[k] != [] && NoSpace(Scan(lines, inSection).value[k])
    decreases |lines|
  {
    if lines != [] {
      ScanFindsWords(lines[1..], true);
      ScanFindsWords(lines[1..], inSection);
    }
  }

  /** The list the extractor writes loads back as the same names, in order. */
  lemma {:induction false} ReloadExtracted(names: seq<string>)
    requires forall k | 0 <= k < |names| :: Reloadable(names[k])
    ensures TestList.Entries(WrittenLines(names)) == names
    decreases |names|
  {
    if names != [] {
      var init := names[..|names| - 1];
      var last := names[|names| - 1];
      assert names == init + [last];
      WrittenLinesSnoc(init, last);
      var lines := WrittenLines(init) + [last + "\n"];
      ReloadExtracted(init);
      assert lines[..|lines| - 1] == WrittenLines(init);
      WrittenLineReads(last);
    }
  }

  lemma WrittenLinesSnoc(init: seq<string>, last: string)
    ensures WrittenLines(init + [last]) == WrittenLines(init) + [last + "\n"]
  {
  }

  /** One written line is an entry line that strips back to its name. */
  lemma WrittenLineReads(name: string)
    requires Reloadable(name)
    ensures TestList.IsEntry(name + "\n") && Strip(name + "\n") == name
  {
    assert !IsSpace(name[0]) && !IsSpace(name[|name| - 1]);
    StripTrailingNewline(name);
  }

  // ---------------------------------------------------------------- the scan, as a loop

  /** The extractor's loop over the file's lines. */
  method ExtractFailed(content: string) returns (r: Result<seq<string>>)
    ensures r == Extracted(content)
  {
    var lines := Split(content, '\n');
    var found: seq<string> := [];
    var inSection := false;
    var i := 0;
    assert lines[0..] == lines;
    PrependNothing(Scan(lines, false));
    while i < |lines|
      invariant 0 <= i <= |lines|
      invariant Scan(lines, false) == Prepend(found, Scan(lines[i..], inSection))
      decreases |lines| - i
    {
      var line := lines[i];
      assert lines[i..][1..] == lines[i + 1..];
      if Contains(line, FailedMarker) {
        inSection := true;
        i := i + 1;
        continue;
      }
      if Contains(line, PassedMarker) {
        assert Scan(lines[i..], inSection) == Ok([]);
        assert found + [] == found;
        return Ok(found);
      }
      if inSection && StartsWith(line, "Test:") {
        var ws := Words(line);
        if |ws| < 2 {
          return Err("list index out of range");
        }
        PrependAssoc(found, [ws[1]], Scan(lines[i + 1..], inSection));
        found := found + [ws[1]];
      }
      i := i + 1;
    }
    assert lines[i..] == [];
    assert found + [] == found;
    return Ok(found);
  }

  // ---------------------------------------------------------------- lines the scan passes over

  /** The `n` characters of `s` from `i` on. */
  function Window(s: string, i: nat, n: nat): string
    requires i + n <= |s|
  {
    s[i..i + n]
  }

  /** No slice of `s` is `t`. */
  predicate Absent(s: string, t: string) {
    forall i: nat | i + |t| <= |s| :: Window(s, i, |t|) != t
  }

  /** A line with no newline and neither group marker. */
  predicate Quiet(s: string) {
    '\n' !in s && Absent(s, FailedMarker) && Absent(s, PassedMarker)
  }

  /** The scan's marker tests fail on a quiet line. */
  lemma QuietHasNoMarker(s: string)
    requires Quiet(s)
    ensures !Contains(s, FailedMarker) && !Contains(s, PassedMarker)
  {
    if Contains(s, FailedMarker) {
      WitnessWindow(s, FailedMarker);
    }
    if Contains(s, PassedMarker) {
      WitnessWindow(s, PassedMarker);
    }
  }

  lemma WitnessWindow(s: string, t: string)
    requires Contains(s, t)
    ensures exists i: nat | i + |t| <= |s| :: Window(s, i, |t|) == t
  {
    var i := ContainsWitness(s, t);
    assert Window(s, i, |t|) == t;
  }

  /** `t` cannot occur where one of its characters is missing. */
  lemma AbsentByChar(s: string, t: string, j: nat)
    requires j < |t| && t[j] !in s
    ensures Absent(s, t)
  {
    forall i: nat | i + |t| <= |s|
      ensures Window(s, i, |t|) != t
    {
      assert Window(s, i, |t|)[j] == s[i + j];
    }
  }

  /** A head lacking `t`'s first character adds no occurrence of `t`. */
  lemma AbsentAfterHead(head: string, s: string, t: string)
    requires t != [] && t[0] !in head && Absent(s, t)
    ensures Absent(head + s, t)
  {
    var hs := head + s;
    forall i: nat | i + |t| <= |hs|
      ensures Window(hs, i, |t|) != t
    {
      if i < |head| {
        assert Window(hs, i, |t|)[0] == head[i];
      } else {
        assert Window(hs, i, |t|) == Window(s, i - |head|, |t|);
      }
    }
  }

  /** A word is quiet: both markers hold a space. */
  lemma NoSpaceQuiet(s: string)
    requires NoSpace(s)
    ensures Quiet(s)
  {
    assert forall k | 0 <= k < |s| :: s[k] != ' ' && s[k] != '\n';
    assert FailedMarker[6] == ' ' && PassedMarker[6] == ' ';
    AbsentByChar(s, FailedMarker, 6);
    AbsentByChar(s, PassedMarker, 6);
  }

  /** Both markers hold a capital D, so a line without one is quiet. */
  lemma NoCapitalDQuiet(s: string)
    requires 'D' !in s && '\n' !in s
    ensures Quiet(s)
  {
    assert FailedMarker[5] == 'D' && PassedMarker[5] == 'D';
    AbsentByChar(s, FailedMarker, 5);
    AbsentByChar(s, PassedMarker, 5);
  }

  /** A head without `F`, `P` or a newline keeps the text after it quiet. */
  lemma LabelledQuiet(head: string, s: string)
    requires 'F' !in head && 'P' !in head && '\n' !in head
    requires Quiet(s)
    ensures Quiet(head + s)
  {
    assert FailedMarker[0] == 'F' && PassedMarker[0] == 'P';
    AbsentAfterHead(head, s, FailedMarker);
    AbsentAfterHead(head, s, PassedMarker);
  }

  lemma DigitsLack(s: string, c: char)
    requires AllDigits(s) && !IsDigit(c)
    ensures c !in s
  {
    assert forall k | 0 <= k < |s| :: s[k] != c;
  }

  /** A head without a capital D or a newline, then a number. */
  lemma NumberQuiet(head: string, n: nat)
    requires 'D' !in head && '\n' !in head
    ensures Quiet(head + NatToString(n))
  {
    DigitsLack(NatToString(n), 'D');
    DigitsLack(NatToString(n), '\n');
    NoCapitalDQuiet(head + NatToString(n));
  }

  lemma TenthsPlain(t: nat)
    ensures 'D' !in Tenths(t) && '\n' !in Tenths(t) && 'F' !in Tenths(t)
  {
    var s := Tenths(t);
    var whole := NatToString(t / 10);
    assert s == whole + "." + [DigitChar(t % 10)];
    forall k | 0 <= k < |s|
      ensures s[k] == '.' || IsDigit(s[k])
    {
      if k < |whole| {
        assert s[k] == whole[k];
      }
    }
  }

  /** A line the scan passes over with the section flag as given. */
  predicate LineSkipped(line: string, inSection: bool) {
    Quiet(line) && (inSection ==> !StartsWith(line, "Test:"))
  }

  predicate Skipped(lines: seq<string>, inSection: bool) {
    forall k | 0 <= k < |lines| :: LineSkipped(lines[k], inSection)
  }

  lemma SkippedConcat(a: seq<string>, b: seq<string>, inSection: bool)
    requires Skipped(a, inSection) && Skipped(b, inSection)
    ensures Skipped(a + b, inSection)
  {
    forall k | 0 <= k < |a + b|
      ensures LineSkipped((a + b)[k], inSection)
    {
      if k < |a| {
        assert (a + b)[k] == a[k];
      } else {
        assert (a + b)[k] == b[k - |a|];
      }
    }
  }

  lemma SkippedOutside(lines: seq<string>)
    requires Skipped(lines, true)
    ensures Skipped(lines, false)
  {
  }

  /** A line whose first character is not `T` does not start with `Test:`. */
  lemma NotTestLine(head: string, s: string)
    requires head != [] && head[0] != 'T'
    ensures !StartsWith(head + s, "Test:")
  {
    assert (head + s)[0] == head[0];
  }

  lemma {:induction false} ScanSkip(a: seq<string>, b: seq<string>, inSection: bool)
    requires Skipped(a, inSection)
    ensures Scan(a + b, inSection) == Scan(b, inSection)
    decreases |a|
  {
    if a == [] {
      assert a + b == b;
    } else {
      assert LineSkipped(a[0], inSection);
      assert Skipped(a[1..], inSection) by {
        forall k | 0 <= k < |a| - 1
          ensures LineSkipped(a[1..][k], inSection)
        {
          assert a[1..][k] == a[k + 1];
        }
      }
      ScanSkip(a[1..], b, inSection);
      ScanStep(a[0], a[1..] + b, inSection);
      assert a + b == [a[0]] + (a[1..] + b);
    }
  }

  /** A skipped line in front changes nothing. */
  lemma ScanStep(line: string, rest: seq<string>, inSection: bool)
    requires LineSkipped(line, inSection)
    ensures Scan([line] + rest, inSection) == Scan(rest, inSection)
  {
    QuietHasNoMarker(line);
    assert ([line] + rest)[0] == line;
    assert ([line] + rest)[1..] == rest;
  }

  // ---------------------------------------------------------------- the detailed results file

  /** What the round trip needs of a run: its name is one word, and the message and log path
      it prints are quiet lines. */
  predicate Listable(r: JobResult, style: LogStyle) {
    r.name != [] && NoSpace(r.name) &&
    (Given(r.message) ==> Quiet(r.message.value)) &&
    (style.OwnLog? ==> Quiet(r.logFile))
  }

  predicate Plain(style: LogStyle) {
    style.Copied? ==> NoSpace(style.passDir) && NoSpace(style.noPassDir)
  }

  lemma NoSpaceConcat(a: string, b: string)
    requires NoSpace(a) && NoSpace(b)
    ensures NoSpace(a + b)
  {
    forall k | 0 <= k < |a + b|
      ensures !IsSpace((a + b)[k])
    {
      if k < |a| {
        assert (a + b)[k] == a[k];
      } else {
        assert (a + b)[k] == b[k - |a|];
      }
    }
  }

  lemma ShownLogQuiet(style: LogStyle, r: JobResult)
    requires Plain(style) && Listable(r, style)
    ensures Quiet(ShownLog(style, r))
  {
    if style.Copied? {
      var dir := if r.status == Pass then style.passDir else style.noPassDir;
      assert NoSpace("/") && NoSpace(".log");
      NoSpaceConcat(dir, "/");
      NoSpaceConcat(dir + "/", r.name);
      NoSpaceConcat(dir + "/" + r.name, ".log");
      NoSpaceQuiet(ShownLog(style, r));
    }
  }

  lemma StatusLineSkipped(s: Status)
    ensures LineSkipped(StatusLine(s), true)
  {
    var text := StatusText(s);
    assert 'D' !in text && '\n' !in text by {
      match s
      case Pass =>
      case Fail =>
      case Timeout =>
      case Error =>
    }
    NoCapitalDQuiet(StatusLine(s));
    NotTestLine("Status:   ", text);
  }

  lemma DurationLineSkipped(t: nat)
    ensures LineSkipped(DurationLine(t), true)
  {
    TenthsPlain(t);
    assert DurationLine(t) == "Duration: " + (Tenths(t) + "s");
    assert 'F' !in Tenths(t) + "s";
    assert "Duration: " + (Tenths(t) + "s") == ("Duration: " + Tenths(t)) + "s";
    assert 'F' !in DurationLine(t) && 'P' !in DurationLine(t) && '\n' !in DurationLine(t);
    assert FailedMarker[0] == 'F' && PassedMarker[0] == 'P';
    AbsentByChar(DurationLine(t), FailedMarker, 0);
    AbsentByChar(DurationLine(t), PassedMarker, 0);
    NotTestLine("Duration: ", Tenths(t) + "s");
  }

  lemma FolderLineSkipped(id: nat)
    ensures LineSkipped(FolderLine(id), true)
  {
    NumberQuiet("Folder:   ", id);
    NotTestLine("Folder:   ", NatToString(id));
  }

  lemma LogLineSkipped(style: LogStyle, r: JobResult)
    requires Plain(style) && Listable(r, style)
    ensures LineSkipped(LogLine(ShownLog(style, r)), true)
  {
    ShownLogQuiet(style, r);
    LabelledQuiet("Log:      ", ShownLog(style, r));
    NotTestLine("Log:      ", ShownLog(style, r));
  }

  lemma ErrorLinesSkipped(r: JobResult, style: LogStyle, withError: bool)
    requires Listable(r, style)
    ensures Skipped(ErrorLines(r, withError), true)
  {
    if withError && Given(r.message) {
      LabelledQuiet("Error:    ", r.message.value);
      NotTestLine("Error:    ", r.message.value);
    }
  }

  lemma EmptyLineSkipped(inSection: bool)
    ensures LineSkipped("", inSection)
  {
    NoCapitalDQuiet("");
  }

  /** Every line of a block after its `Test:` line is passed over. */
  lemma BlockTailSkipped(r: JobResult, style: LogStyle, withError: bool)
    requires Plain(style) && Listable(r, style)
    ensures Skipped(Block(r, style, withError)[1..], true)
  {
    var four := [StatusLine(r.status), DurationLine(r.tenths), FolderLine(r.folderId),
                 LogLine(ShownLog(style, r))];
    StatusLineSkipped(r.status);
    DurationLineSkipped(r.tenths);
    FolderLineSkipped(r.folderId);
    LogLineSkipped(style, r);
    assert Skipped(four, true);
    ErrorLinesSkipped(r, style, withError);
    EmptyLineSkipped(true);
    SkippedConcat(four, ErrorLines(r, withError), true);
    SkippedConcat(four + ErrorLines(r, withError), [""], true);
    assert Block(r, style, withError)[1..] == four + ErrorLines(r, withError) + [""];
  }

  lemma TestLineQuiet(name: string)
    requires NoSpace(name)
    ensures Quiet(TestLine(name)) && StartsWith(TestLine(name), "Test:")
  {
    NoSpaceQuiet(name);
    LabelledQuiet("Test:     ", name);
    assert TestLine(name)[..5] == "Test:";
  }

  /** The second word of a `Test:` line is the name. */
  lemma TestLineWords(name: string)
    requires name != [] && NoSpace(name)
    ensures Words(TestLine(name)) == ["Test:", name]
  {
    assert TestLine(name) == "Test:" + ("     " + name);
    WordsLeadingWord("Test:", "     " + name);
    assert "     " + name == "     " + (name + "");
    WordsSkipSpaces("     ", name + "");
    WordsLeadingWord(name, "");
    WordsEmpty();
  }

  /** Inside the section, a block yields its run's name. */
  lemma ScanBlock(r: JobResult, style: LogStyle, rest: seq<string>)
    requires Plain(style) && Listable(r, style)
    ensures Scan(Block(r, style, true) + rest, true) == Prepend([r.name], Scan(rest, true))
  {
    var b := Block(r, style, true);
    TestLineQuiet(r.name);
    TestLineWords(r.name);
    BlockTailSkipped(r, style, true);
    ScanSkip(b[1..], rest, true);
    ScanTestLine(TestLine(r.name), r.name, b[1..] + rest);
    assert b[0] == TestLine(r.name);
    SplitFirst(b, rest);
  }

  lemma SplitFirst(b: seq<string>, rest: seq<string>)
    requires b != []
    ensures b + rest == [b[0]] + (b[1..] + rest)
  {
  }

  /** Inside the section, a `Test:` line yields its second word. */
  lemma ScanTestLine(line: string, name: string, rest: seq<string>)
    requires Quiet(line) && StartsWith(line, "Test:") && Words(line) == ["Test:", name]
    ensures Scan([line] + rest, true) == Prepend([name], Scan(rest, true))
  {
    QuietHasNoMarker(line);
    assert ([line] + rest)[0] == line;
    assert ([line] + rest)[1..] == rest;
  }

  lemma PrependNothing(rest: Result<seq<string>>)
    ensures Prepend([], rest) == rest
  {
    if rest.Ok? {
      assert [] + rest.value == rest.value;
    }
  }

  lemma {:induction false} ScanBlocks(rs: seq<JobResult>, style: LogStyle, rest: seq<string>)
    requires Plain(style)
    requires forall k | 0 <= k < |rs| :: Listable(rs[k], style)
    ensures Scan(Blocks(rs, style, true) + rest, true) == Prepend(Names(rs), Scan(rest, true))
    decreases |rs|
  {
    if rs == [] {
      assert Blocks(rs, style, true) + rest == rest;
      assert Names(rs) == [];
      PrependNothing(Scan(rest, true));
    } else {
      var tail := Blocks(rs[1..], style, true) + rest;
      BlocksCons(rs, style, rest);
      ScanBlock(rs[0], style, tail);
      ScanBlocks(rs[1..], style, rest);
      PrependAssoc([rs[0].name], Names(rs[1..]), Scan(rest, true));
      NamesCons(rs);
    }
  }

  lemma BlocksCons(rs: seq<JobResult>, style: LogStyle, rest: seq<string>)
    requires rs != []
    ensures Blocks(rs, style, true) + rest == Block(rs[0], style, true) + (Blocks(rs[1..], style, true) + rest)
  {
  }

  lemma NamesCons(rs: seq<JobResult>)
    requires rs != []
    ensures Names(rs) == [rs[0].name] + Names(rs[1..])
  {
  }

  lemma {:induction false} BlocksSkipped(rs: seq<JobResult>, style: LogStyle, withError: bool)
    requires Plain(style)
    requires forall k | 0 <= k < |rs| :: Listable(rs[k], style)
    ensures Skipped(Blocks(rs, style, withError), false)
    decreases |rs|
  {
    if rs == [] {
      assert Blocks(rs, style, withError) == [];
    } else {
      var b := Block(rs[0], style, withError);
      TestLineQuiet(rs[0].name);
      BlockTailSkipped(rs[0], style, withError);
      SkippedOutside(b[1..]);
      assert b == [b[0]] + b[1..];
      assert Skipped([b[0]], false);
      SkippedConcat([b[0]], b[1..], false);
      BlocksSkipped(rs[1..], style, withError);
      SkippedConcat(b, Blocks(rs[1..], style, withError), false);
    }
  }

  lemma HeaderPlain(title: string, n: nat, c: char)
    requires c !in title && !IsDigit(c) && c !in " Tests (" && c !in "):"
    ensures c !in Header(title, n)
  {
    DigitsLack(NatToString(n), c);
  }

  lemma RuleQuiet(c: char)
    requires c != 'D' && c != '\n' && c != 'T'
    ensures LineSkipped(Rule(c), true)
  {
    assert forall k | 0 <= k < 80 :: Rule(c)[k] == c;
    assert Rule(c)[0] != "Test:"[0];
    NoCapitalDQuiet(Rule(c));
  }

  /** The TIMEOUT group holds no marker and, read outside the section, adds nothing. */
  lemma TimeoutSkipped(rs: seq<JobResult>, style: LogStyle)
    requires Plain(style)
    requires forall k | 0 <= k < |rs| :: Listable(rs[k], style)
    ensures Skipped(Section("TIMEOUT", rs, style, false), false)
  {
    if rs != [] {
      var header := Header("TIMEOUT", |rs|);
      DigitsLack(NatToString(|rs|), 'D');
      DigitsLack(NatToString(|rs|), '\n');
      NoCapitalDQuiet(header);
      RuleQuiet('-');
      EmptyLineSkipped(false);
      assert Skipped([header, Rule('-')], false);
      BlocksSkipped(rs, style, true);
      SkippedConcat([header, Rule('-')], Blocks(rs, style, true), false);
      SkippedConcat([header, Rule('-')] + Blocks(rs, style, true), [""], false);
      assert Section("TIMEOUT", rs, style, false) == [header, Rule('-')] + Blocks(rs, style, true) + [""];
    }
  }

  lemma RateLineQuiet(passed: nat, total: nat)
    requires total > 0
    ensures LineSkipped("  Pass Rate:   " + Tenths(RateTenths(passed, total)) + "%", false)
  {
    var rate := Tenths(RateTenths(passed, total));
    TenthsPlain(RateTenths(passed, total));
    NoCapitalDQuiet("  Pass Rate:   " + rate + "%");
  }

  lemma CountLineQuiet(head: string, n: nat)
    requires head == "  Total Tests: " || head == "  Passed:      " || head == "  Failed:      "
    ensures LineSkipped(head + NatToString(n), false)
  {
    NumberQuiet(head, n);
  }

  lemma FixedLinesQuiet()
    ensures LineSkipped("", false) && LineSkipped("Summary:", false) && LineSkipped(Rule('='), false)
  {
    NoCapitalDQuiet("");
    NoCapitalDQuiet("Summary:");
    RuleQuiet('=');
  }

  lemma StampLineQuiet(stamp: string)
    requires Quiet(stamp)
    ensures LineSkipped("Generated: " + stamp, false)
  {
    LabelledQuiet("Generated: ", stamp);
  }

  lemma SkippedFive(a: string, b: string, c: string, d: string, e: string, inSection: bool)
    requires LineSkipped(a, inSection) && LineSkipped(b, inSection) && LineSkipped(c, inSection)
    requires LineSkipped(d, inSection) && LineSkipped(e, inSection)
    ensures Skipped([a, b, c, d, e], inSection)
  {
  }

  /** The heading's lines hold no marker. */
  lemma HeadingSkipped(title: string, stamp: string, total: nat, passed: nat, failed: nat)
    requires total > 0
    requires Quiet(title)
    requires Quiet(stamp)
    ensures Skipped(Heading(title, stamp, total, passed, failed), false)
  {
    var l1 := "  Total Tests: " + NatToString(total);
    var l2 := "  Passed:      " + NatToString(passed);
    var l3 := "  Failed:      " + NatToString(failed);
    var l4 := "  Pass Rate:   " + Tenths(RateTenths(passed, total)) + "%";
    FixedLinesQuiet();
    StampLineQuiet(stamp);
    CountLineQuiet("  Total Tests: ", total);
    CountLineQuiet("  Passed:      ", passed);
    CountLineQuiet("  Failed:      ", failed);
    RateLineQuiet(passed, total);
    SkippedFive(title, "Generated: " + stamp, Rule('='), "", "Summary:", false);
    SkippedFive(l1, l2, l3, l4, "", false);
    SkippedConcat([title, "Generated: " + stamp, Rule('='), "", "Summary:"], [l1, l2, l3, l4, ""], false);
    assert Heading(title, stamp, total, passed, failed) ==
           [title, "Generated: " + stamp, Rule('='), "", "Summary:"] + [l1, l2, l3, l4, ""];
  }

  /** From the PASSED group on, the scan adds nothing. */
  lemma ScanPassed(rs: seq<JobResult>, style: LogStyle, inSection: bool)
    ensures Scan(Section("PASSED", rs, style, true) + [""], inSection) == Ok([])
  {
    if rs == [] {
      assert Section("PASSED", rs, style, true) + [""] == [""];
      EmptyLineSkipped(inSection);
      ScanStep("", [], inSection);
      assert [""] == [""] + [];
    } else {
      var header := Header("PASSED", |rs|);
      HeaderStopsScan(|rs|, Section("PASSED", rs, style, true)[1..] + [""], inSection);
      assert Section("PASSED", rs, style, true) + [""] ==
             [header] + (Section("PASSED", rs, style, true)[1..] + [""]);
    }
  }

  lemma HeaderStopsScan(n: nat, rest: seq<string>, inSection: bool)
    ensures Scan([Header("PASSED", n)] + rest, inSection) == Ok([])
  {
    var header := Header("PASSED", n);
    assert header[..|PassedMarker|] == PassedMarker;
    ContainsAt(header, PassedMarker, 0);
    HeaderPlain("PASSED", n, 'F');
    assert 'F' in FailedMarker;
    AbsentChar(header, FailedMarker, 'F');
    assert ([header] + rest)[0] == header;
  }

  lemma HeaderOpensSection(n: nat, rest: seq<string>)
    ensures Scan([Header("FAILED", n)] + rest, false) == Scan(rest, true)
  {
    var header := Header("FAILED", n);
    assert header[..|FailedMarker|] == FailedMarker;
    ContainsAt(header, FailedMarker, 0);
    assert ([header] + rest)[0] == header;
    assert ([header] + rest)[1..] == rest;
  }

  /** The FAILED group yields its runs' names, whatever follows it from the PASSED group on. */
  lemma ScanFailed(rs: seq<JobResult>, style: LogStyle, rest: seq<string>)
    requires Plain(style)
    requires forall k | 0 <= k < |rs| :: Listable(rs[k], style)
    requires rs != []
    ensures Scan(Section("FAILED", rs, style, false) + rest, false) ==
              Prepend(Names(rs), Scan(rest, true))
  {
    var bs := Blocks(rs, style, true);
    var sec := Section("FAILED", rs, style, false);
    var tail := [Rule('-')] + (bs + ([""] + rest));
    assert sec == [Header("FAILED", |rs|), Rule('-')] + bs + [""];
    assert sec + rest == [Header("FAILED", |rs|)] + tail by {
      SectionRegroup([Header("FAILED", |rs|), Rule('-')], bs, rest);
    }
    HeaderOpensSection(|rs|, tail);
    RuleQuiet('-');
    ScanStep(Rule('-'), bs + ([""] + rest), true);
    ScanBlocks(rs, style, [""] + rest);
    EmptyLineSkipped(true);
    ScanStep("", rest, true);
  }

  lemma SectionRegroup(hr: seq<string>, bs: seq<string>, rest: seq<string>)
    requires |hr| == 2
    ensures hr + bs + [""] + rest == [hr[0]] + ([hr[1]] + (bs + ([""] + rest)))
  {
    assert hr == [hr[0]] + [hr[1]];
  }

  /** The heading and the TIMEOUT group are passed over. */
  lemma FrontSkipped(title: string, stamp: string, total: nat, passed: nat, failed: nat,
                     rs: seq<JobResult>, style: LogStyle)
    requires total > 0
    requires Quiet(title) && Quiet(stamp) && Plain(style)
    requires forall k | 0 <= k < |rs| :: Listable(rs[k], style)
    ensures Skipped(Heading(title, stamp, total, passed, failed) + Section("TIMEOUT", TimeoutGroup(rs), style, false), false)
  {
    GroupsListable(rs, style);
    HeadingSkipped(title, stamp, total, passed, failed);
    TimeoutSkipped(TimeoutGroup(rs), style);
    SkippedConcat(Heading(title, stamp, total, passed, failed), Section("TIMEOUT", TimeoutGroup(rs), style, false), false);
  }

  /** The scan over the whole file, its trailing empty piece included. */
  lemma ScanDetailed(title: string, stamp: string, total: nat, passed: nat, failed: nat,
                     rs: seq<JobResult>, style: LogStyle)
    requires total > 0
    requires Quiet(title)
    requires Quiet(stamp) && Plain(style)
    requires forall k | 0 <= k < |rs| :: Listable(rs[k], style)
    ensures Scan(DetailedResults(title, stamp, total, passed, failed, rs, style) + [""], false) ==
              Ok(Names(FailGroup(rs)))
  {
    var h := Heading(title, stamp, total, passed, failed);
    var ts := Section("TIMEOUT", TimeoutGroup(rs), style, false);
    var fs := Section("FAILED", FailGroup(rs), style, false);
    var ps := Section("PASSED", PassGroup(rs), style, true) + [""];
    var ps0 := Section("PASSED", PassGroup(rs), style, true);
    assert DetailedResults(title, stamp, total, passed, failed, rs, style) == h + ts + fs + ps0;
    Regroup(h, ts, fs, ps0);
    FrontSkipped(title, stamp, total, passed, failed, rs, style);
    ScanSkip(h + ts, fs + ps, false);
    ScanBack(rs, style);
  }

  lemma Regroup(a: seq<string>, b: seq<string>, c: seq<string>, d: seq<string>)
    ensures a + b + c + d + [""] == (a + b) + (c + (d + [""]))
  {
  }

  /** From the FAILED group on, the scan yields the FAIL and ERROR runs' names. */
  lemma ScanBack(rs: seq<JobResult>, style: LogStyle)
    requires Plain(style)
    requires forall k | 0 <= k < |rs| :: Listable(rs[k], style)
    ensures Scan(Section("FAILED", FailGroup(rs), style, false) +
                 (Section("PASSED", PassGroup(rs), style, true) + [""]), false) == Ok(Names(FailGroup(rs)))
  {
    var fs := Section("FAILED", FailGroup(rs), style, false);
    var ps := Section("PASSED", PassGroup(rs), style, true) + [""];
    if FailGroup(rs) == [] {
      assert fs + ps == ps;
      ScanPassed(PassGroup(rs), style, false);
      assert Names(FailGroup(rs)) == [];
    } else {
      GroupsListable(rs, style);
      ScanFailed(FailGroup(rs), style, ps);
      ScanPassed(PassGroup(rs), style, true);
      assert Names(FailGroup(rs)) + [] == Names(FailGroup(rs));
    }
  }

  /** Round trip: the extractor, run on a detailed results file, finds exactly the names of the
      FAIL and ERROR runs, in result order. */
  lemma ExtractDetailedResults(title: string, stamp: string, total: nat, passed: nat, failed: nat,
                               rs: seq<JobResult>, style: LogStyle)
    requires total > 0
    requires Quiet(title)
    requires Quiet(stamp) && Plain(style)
    requires forall k | 0 <= k < |rs| :: Listable(rs[k], style)
    ensures Extracted(Lines(DetailedResults(title, stamp, total, passed, failed, rs, style))) ==
              Ok(Names(FailGroup(rs)))
  {
    var all := DetailedResults(title, stamp, total, passed, failed, rs, style);
    DetailedNewlineFree(title, stamp, total, passed, failed, rs, style);
    SplitLines(all);
    ScanDetailed(title, stamp, total, passed, failed, rs, style);
  }

  /** No line of a group holds a newline. */
  lemma SectionNewlineFree(title: string, rs: seq<JobResult>, style: LogStyle, last: bool)
    requires title == "TIMEOUT" || title == "FAILED" || title == "PASSED"
    requires Plain(style)
    requires forall k | 0 <= k < |rs| :: Listable(rs[k], style)
    ensures NewlineFree(Section(title, rs, style, last))
  {
    if rs != [] {
      HeaderPlain(title, |rs|, '\n');
      RuleQuiet('-');
      BlocksSkipped(rs, style, !last);
      PartsNewlineFree(Header(title, |rs|), Rule('-'), Blocks(rs, style, !last), last);
    }
  }

  lemma PartsNewlineFree(header: string, rule: string, blocks: seq<string>, last: bool)
    requires '\n' !in header && LineSkipped(rule, true) && Skipped(blocks, false)
    ensures NewlineFree([header, rule] + blocks + (if last then [] else [""]))
  {
    var lines := [header, rule] + blocks + (if last then [] else [""]);
    forall k | 0 <= k < |lines|
      ensures '\n' !in lines[k]
    {
      if 2 <= k < 2 + |blocks| {
        assert lines[k] == blocks[k - 2];
      }
    }
  }

  lemma DetailedNewlineFree(title: string, stamp: string, total: nat, passed: nat, failed: nat,
                            rs: seq<JobResult>, style: LogStyle)
    requires total > 0
    requires Quiet(title)
    requires Quiet(stamp) && Plain(style)
    requires forall k | 0 <= k < |rs| :: Listable(rs[k], style)
    ensures NewlineFree(DetailedResults(title, stamp, total, passed, failed, rs, style))
  {
    GroupsListable(rs, style);
    HeadingSkipped(title, stamp, total, passed, failed);
    var h := Heading(title, stamp, total, passed, failed);
    var ts := Section("TIMEOUT", TimeoutGroup(rs), style, false);
    var fs := Section("FAILED", FailGroup(rs), style, false);
    var ps := Section("PASSED", PassGroup(rs), style, true);
    SectionNewlineFree("TIMEOUT", TimeoutGroup(rs), style, false);
    SectionNewlineFree("FAILED", FailGroup(rs), style, false);
    SectionNewlineFree("PASSED", PassGroup(rs), style, true);
    NewlineFreeConcat(h, ts);
    NewlineFreeConcat(h + ts, fs);
    NewlineFreeConcat(h + ts + fs, ps);
  }

  predicate NewlineFree(lines: seq<string>) {
    forall k | 0 <= k < |lines| :: '\n' !in lines[k]
  }

  lemma NewlineFreeConcat(a: seq<string>, b: seq<string>)
    requires (Skipped(a, false) || NewlineFree(a)) && NewlineFree(b)
    ensures NewlineFree(a + b)
  {
    forall k | 0 <= k < |a + b|
      ensures '\n' !in (a + b)[k]
    {
      if k < |a| {
        assert (a + b)[k] == a[k];
      } else {
        assert (a + b)[k] == b[k - |a|];
      }
    }
  }

  lemma GroupsListable(rs: seq<JobResult>, style: LogStyle)
    requires forall k | 0 <= k < |rs| :: Listable(rs[k], style)
    ensures forall k | 0 <= k < |TimeoutGroup(rs)| :: Listable(TimeoutGroup(rs)[k], style)
    ensures forall k | 0 <= k < |FailGroup(rs)| :: Listable(FailGroup(rs)[k], style)
    ensures forall k | 0 <= k < |PassGroup(rs)| :: Listable(PassGroup(rs)[k], style)
  {
    forall k | 0 <= k < |TimeoutGroup(rs)|
      ensures Listable(TimeoutGroup(rs)[k], style)
    {
      SelectMembers(rs, {Timeout}, TimeoutGroup(rs)[k]);
    }
    forall k | 0 <= k < |FailGroup(rs)|
      ensures Listable(FailGroup(rs)[k], style)
    {
      SelectMembers(rs, {Fail, Error}, FailGroup(rs)[k]);
    }
    forall k | 0 <= k < |PassGroup(rs)|
      ensures Listable(PassGroup(rs)[k], style)
    {
      SelectMembers(rs, {Pass}, PassGroup(rs)[k]);
    }
  }
}
