/** The user guide's Markdown-to-HTML converter: heading and list rewrites anchored at line
    starts, the table pass, and paragraph breaks. The code-block, inline-code, bold and
    emphasis rewrites are regular-expression substitutions over the whole text; they are a
    parameter here. */
module Markdown {
  import opened Common
  import opened Text

  // ---------------------------------------------------------------- one-line rewrites

  /** `re.sub(r'^<marker>(.*)', r'<open>\1<close>', flags=re.MULTILINE)` on one line. */
  function Wrap(line: string, marker: string, open: string, close: string): string {
    if StartsWith(line, marker) then open + line[|marker|..] + close else line
  }

  /** `#` repeated `level` times, then a blank. */
  function Marker(level: nat): (m: string)
    ensures |m| == level + 1 && m[level] == ' ' && forall k | 0 <= k < level :: m[k] == '#'
  {
    seq(level, _ => '#') + " "
  }

  function OpenTag(level: nat): string
    requires level < 10
  {
    "<h" + [DigitChar(level)] + ">"
  }

  function CloseTag(level: nat): string
    requires level < 10
  {
    "</h" + [DigitChar(level)] + ">"
  }

  /** The four heading substitutions, level 1 first. */
  function Levels(line: string, level: nat): string
    requires level >= 1
    decreases 5 - level
  {
    if level > 4 then line
    else Levels(Wrap(line, Marker(level), OpenTag(level), CloseTag(level)), level + 1)
  }

  function HeadingLine(line: string): string {
    Levels(line, 1)
  }

  lemma {:induction false} LevelsKeep(line: string, level: nat)
    requires level >= 1
    requires line != [] && line[0] != '#'
    ensures Levels(line, level) == line
    decreases 5 - level
  {
    if level <= 4 {
      assert !StartsWith(line, Marker(level));
      LevelsKeep(line, level + 1);
    }
  }

  lemma {:induction false} LevelsFrom(line: string, level: nat, n: nat, rest: string)
    requires 1 <= level <= n <= 4 && line == Marker(n) + rest
    ensures Levels(line, level) == OpenTag(n) + rest + CloseTag(n)
    decreases n - level
  {
    var marker := Marker(level);
    if level < n {
      assert line[level] == '#' && marker[level] == ' ';
      assert !StartsWith(line, marker);
      LevelsFrom(line, level + 1, n, rest);
    } else {
      assert line[..|marker|] == marker && line[|marker|..] == rest;
      var out := OpenTag(n) + rest + CloseTag(n);
      assert out[0] == '<';
      LevelsKeep(out, level + 1);
    }
  }

  /** `# `, `## `, `### ` and `#### ` become h1..h4 around the rest of the line. */
  lemma HeadingOf(n: nat, rest: string)
    requires 1 <= n <= 4
    ensures HeadingLine(Marker(n) + rest) == OpenTag(n) + rest + CloseTag(n)
  {
    LevelsFrom(Marker(n) + rest, 1, n, rest);
  }

  lemma {:induction false} LevelsNone(line: string, level: nat)
    requires level >= 1
    requires forall n | level <= n <= 4 :: !StartsWith(line, Marker(n))
    ensures Levels(line, level) == line
    decreases 5 - level
  {
    if level <= 4 {
      LevelsNone(line, level + 1);
    }
  }

  /** Any other line is left alone. */
  lemma NotHeading(line: string)
    requires forall n | 1 <= n <= 4 :: !StartsWith(line, Marker(n))
    ensures HeadingLine(line) == line
  {
    LevelsNone(line, 1);
  }

  /** The number of leading ASCII digits. */
  function LeadingDigits(s: string): (d: nat)
    ensures d <= |s| && AllDigits(s[..d]) && (d < |s| ==> !IsDigit(s[d]))
    decreases |s|
  {
    if s == [] || !IsDigit(s[0]) then 0
    else
      var d := 1 + LeadingDigits(s[1..]);
      assert s[..d] == [s[0]] + s[1..][..d - 1];
      d
  }

  /** `^(\d+)\. (.*)`: a run of digits, a full stop and a blank. */
  predicate Numbered(line: string) {
    var d := LeadingDigits(line);
    d > 0 && StartsWith(line[d..], ". ")
  }

  function NumberedLine(line: string): string {
    var d := LeadingDigits(line);
    if Numbered(line) then "<li>" + line[..d] + ". " + line[d + 2..] + "</li>" else line
  }

  /** The two list substitutions: `- x` first, then numbered items. */
  function ListLine(line: string): string {
    NumberedLine(Wrap(line, "- ", "<li>", "</li>"))
  }

  /** `- x` becomes `<li>x</li>`, `N. x` becomes `<li>N. x</li>` with the number kept, and any
      other line is left alone. */
  lemma ListItems(line: string)
    ensures StartsWith(line, "- ") ==> ListLine(line) == "<li>" + line[2..] + "</li>"
    ensures Numbered(line) ==> ListLine(line) == "<li>" + line + "</li>"
    ensures !StartsWith(line, "- ") && !Numbered(line) ==> ListLine(line) == line
  {
    if StartsWith(line, "- ") {
      var out := "<li>" + line[2..] + "</li>";
      assert out[0] == '<';
      assert LeadingDigits(out) == 0;
    } else if Numbered(line) {
      var d := LeadingDigits(line);
      assert line[d..][..2] == ". ";
      assert line[..d] + ". " + line[d + 2..] == line;
    }
  }

  /** A rewrite applied to every line of a text. */
  function PerLine(f: string -> string, text: string): string {
    var lines := Split(text, '\n');
    Join(seq(|lines|, k requires 0 <= k < |lines| => f(lines[k])), "\n")
  }

  // ---------------------------------------------------------------- the table pass

  /** What the table pass emits: a table opening or closing, a row of cells, or a line of text
      passed through. */
  datatype Out = Open | Close | Row(cells: seq<string>) | Text(line: string)

  /** A line holding `|` whose stripped form does not start with `<`. */
  predicate IsTableLine(line: string) {
    '|' in line && !StartsWith(Strip(line), "<")
  }

  /** `line.split('|')[1:-1]`, each stripped: the pieces between consecutive bars. */
  function Cells(line: string): (cells: seq<string>)
    requires '|' in line
  {
    var parts := Split(line, '|');
    SplitCount(line, '|');
    seq(|parts| - 2, k requires 0 <= k < |parts| - 2 => Strip(parts[k + 1]))
  }

  /** A line with `k` bars gives `k - 1` cells. */
  lemma CellCount(line: string)
    requires '|' in line
    ensures |Cells(line)| == CountChar(line, '|') - 1
    ensures forall k | 0 <= k < |Cells(line)| :: Cells(line)[k] == Strip(Split(line, '|')[k + 1])
  {
    SplitCount(line, '|');
  }

  function CellsHtml(cells: seq<string>): string
    decreases |cells|
  {
    if cells == [] then "" else "<td>" + cells[0] + "</td>" + CellsHtml(cells[1..])
  }

  function Render(o: Out): string {
    match o
    case Open => "<table>"
    case Close => "</table>"
    case Row(cells) => "<tr>" + CellsHtml(cells) + "</tr>"
    case Text(line) => line
  }

  function RenderAll(os: seq<Out>): seq<string> {
    seq(|os|, k requires 0 <= k < |os| => Render(os[k]))
  }

  lemma RenderSnoc(os: seq<Out>, o: Out)
    ensures RenderAll(os + [o]) == RenderAll(os) + [Render(o)]
  {
  }

  /** The loop's state: `in_table` and what has been emitted. */
  datatype Pass = Pass(inTable: bool, out: seq<Out>)

  /** One iteration of the table loop. A `---` line opens a table but adds no row. */
  function PassLine(p: Pass, line: string): Pass {
    if IsTableLine(line) then
      var withOpen := if p.inTable then p else Pass(true, p.out + [Open]);
      if Contains(line, "---") then withOpen else withOpen.(out := withOpen.out + [Row(Cells(line))])
    else
      var closed := if p.inTable then Pass(false, p.out + [Close]) else p;
      closed.(out := closed.out + [Text(line)])
  }

  function PassLines(lines: seq<string>): Pass
    decreases |lines|
  {
    if lines == [] then Pass(false, [])
    else PassLine(PassLines(lines[..|lines| - 1]), lines[|lines| - 1])
  }

  /** The loop, then the final close of a table still open. */
  function TableOut(lines: seq<string>): seq<Out> {
    var p := PassLines(lines);
    if p.inTable then p.out + [Close] else p.out
  }

  /** The table loop of `markdown_to_html`. */
  method TablePass(lines: seq<string>) returns (result: seq<string>)
    ensures result == RenderAll(TableOut(lines))
  {
    var inTable := false;
    result := [];
    ghost var p := Pass(false, []);
    for i := 0 to |lines|
      invariant p == PassLines(lines[..i])
      invariant inTable == p.inTable && result == RenderAll(p.out)
    {
      var line := lines[i];
      assert lines[..i + 1][..i] == lines[..i];
      ghost var before := p;
      if IsTableLine(line) {
        if !inTable {
          RenderSnoc(p.out, Open);
          result := result + ["<table>"];
          inTable := true;
          p := Pass(true, p.out + [Open]);
        }
        if !Contains(line, "---") {
          var cells := Cells(line);
          RenderSnoc(p.out, Row(cells));
          result := result + ["<tr>" + CellsHtml(cells) + "</tr>"];
          p := p.(out := p.out + [Row(cells)]);
        }
      } else {
        if inTable {
          RenderSnoc(p.out, Close);
          result := result + ["</table>"];
          inTable := false;
          p := Pass(false, p.out + [Close]);
        }
        RenderSnoc(p.out, Text(line));
        result := result + [line];
        p := p.(out := p.out + [Text(line)]);
      }
      assert p == PassLine(before, line);
    }
    assert lines[..|lines|] == lines;
    if inTable {
      RenderSnoc(p.out, Close);
      result := result + ["</table>"];
    }
  }

  /** Reading the emitted items in order: `Some(open)` when every opening comes while no table
      is open, every closing and every row while one is, and every text line outside tables;
      `None` otherwise. */
  function Nesting(os: seq<Out>): Option<bool>
    decreases |os|
  {
    if os == [] then Some(false)
    else
      match Nesting(os[..|os| - 1])
      case None => None
      case Some(open) =>
        match os[|os| - 1]
        case Open => if open then None else Some(true)
        case Close => if open then Some(false) else None
        case Row(_) => if open then Some(true) else None
        case Text(_) => if open then None else Some(false)
  }

  lemma NestingAppend(os: seq<Out>, o: Out)
    ensures Nesting(os + [o]) == match Nesting(os)
      case None => None
      case Some(open) =>
        match o
        case Open => if open then None else Some(true)
        case Close => if open then Some(false) else None
        case Row(_) => if open then Some(true) else None
        case Text(_) => if open then None else Some(false)
  {
    assert (os + [o])[..|os|] == os;
  }

  lemma {:induction false} PassNesting(lines: seq<string>)
    ensures Nesting(PassLines(lines).out) == Some(PassLines(lines).inTable)
    decreases |lines|
  {
    if lines != [] {
      var p := PassLines(lines[..|lines| - 1]);
      var line := lines[|lines| - 1];
      PassNesting(lines[..|lines| - 1]);
      if IsTableLine(line) {
        var withOpen := if p.inTable then p else Pass(true, p.out + [Open]);
        if !p.inTable {
          NestingAppend(p.out, Open);
        }
        if !Contains(line, "---") {
          NestingAppend(withOpen.out, Row(Cells(line)));
        }
      } else {
        var closed := if p.inTable then Pass(false, p.out + [Close]) else p;
        if p.inTable {
          NestingAppend(p.out, Close);
        }
        NestingAppend(closed.out, Text(line));
      }
    }
  }

  /** Tables are balanced and never nested: they open and close alternately, every row sits
      inside one, every other line outside, and none is left open. */
  lemma TablesBalanced(lines: seq<string>)
    ensures Nesting(TableOut(lines)) == Some(false)
  {
    PassNesting(lines);
    var p := PassLines(lines);
    if p.inTable {
      NestingAppend(p.out, Close);
    }
  }

  /** The lines that are not table lines, in order. */
  function Kept(lines: seq<string>): seq<string>
    decreases |lines|
  {
    if lines == [] then []
    else
      var init := Kept(lines[..|lines| - 1]);
      if IsTableLine(lines[|lines| - 1]) then init else init + [lines[|lines| - 1]]
  }

  /** The text items among the emitted ones, in order. */
  function Texts(os: seq<Out>): seq<string>
    decreases |os|
  {
    if os == [] then []
    else
      var init := Texts(os[..|os| - 1]);
      match os[|os| - 1]
      case Text(line) => init + [line]
      case _ => init
  }

  lemma TextsAppend(os: seq<Out>, o: Out)
    ensures Texts(os + [o]) == if o.Text? then Texts(os) + [o.line] else Texts(os)
  {
    assert (os + [o])[..|os|] == os;
  }

  lemma {:induction false} PassTexts(lines: seq<string>)
    ensures Texts(PassLines(lines).out) == Kept(lines)
    decreases |lines|
  {
    if lines != [] {
      var p := PassLines(lines[..|lines| - 1]);
      var line := lines[|lines| - 1];
      PassTexts(lines[..|lines| - 1]);
      if IsTableLine(line) {
        var withOpen := if p.inTable then p else Pass(true, p.out + [Open]);
        if !p.inTable {
          TextsAppend(p.out, Open);
        }
        if !Contains(line, "---") {
          TextsAppend(withOpen.out, Row(Cells(line)));
        }
      } else {
        var closed := if p.inTable then Pass(false, p.out + [Close]) else p;
        if p.inTable {
          TextsAppend(p.out, Close);
        }
        TextsAppend(closed.out, Text(line));
      }
    }
  }

  /** Every line that is not a table line comes through unchanged and in order. */
  lemma TextKept(lines: seq<string>)
    ensures Texts(TableOut(lines)) == Kept(lines)
  {
    PassTexts(lines);
    var p := PassLines(lines);
    if p.inTable {
      TextsAppend(p.out, Close);
    }
  }

  /** The rows a list of lines yields: one per table line without `---`. */
  function RowsOf(lines: seq<string>): seq<seq<string>>
    decreases |lines|
  {
    if lines == [] then []
    else
      var init := RowsOf(lines[..|lines| - 1]);
      var line := lines[|lines| - 1];
      if IsTableLine(line) && !Contains(line, "---") then init + [Cells(line)] else init
  }

  /** The rows among the emitted items, in order. */
  function Rows(os: seq<Out>): seq<seq<string>>
    decreases |os|
  {
    if os == [] then []
    else
      var init := Rows(os[..|os| - 1]);
      match os[|os| - 1]
      case Row(cells) => init + [cells]
      case _ => init
  }

  lemma RowsAppend(os: seq<Out>, o: Out)
    ensures Rows(os + [o]) == if o.Row? then Rows(os) + [o.cells] else Rows(os)
  {
    assert (os + [o])[..|os|] == os;
  }

  lemma {:induction false} PassRows(lines: seq<string>)
    ensures Rows(PassLines(lines).out) == RowsOf(lines)
    decreases |lines|
  {
    if lines != [] {
      var p := PassLines(lines[..|lines| - 1]);
      var line := lines[|lines| - 1];
      PassRows(lines[..|lines| - 1]);
      if IsTableLine(line) {
        var withOpen := if p.inTable then p else Pass(true, p.out + [Open]);
        if !p.inTable {
          RowsAppend(p.out, Open);
        }
        if !Contains(line, "---") {
          RowsAppend(withOpen.out, Row(Cells(line)));
        }
      } else {
        var closed := if p.inTable then Pass(false, p.out + [Close]) else p;
        if p.inTable {
          RowsAppend(p.out, Close);
        }
        RowsAppend(closed.out, Text(line));
      }
    }
  }

  /** Each table line without `---` gives one row, of its cells, in order; `---` lines give
      none. */
  lemma RowsKept(lines: seq<string>)
    ensures Rows(TableOut(lines)) == RowsOf(lines)
  {
    PassRows(lines);
    var p := PassLines(lines);
    if p.inTable {
      RowsAppend(p.out, Close);
    }
  }

  // ---------------------------------------------------------------- paragraphs

  /** No two newlines in a row. */
  predicate NoBlankLine(s: string) {
    forall i | 0 <= i < |s| - 1 :: !(s[i] == '\n' && s[i + 1] == '\n')
  }

  /** What a run of blank lines becomes. */
  const Break := "\n</p>\n<p>"

  /** The length of the run of newlines `s` starts with. */
  function NewlineRun(s: string): (n: nat)
    ensures n <= |s| && (n < |s| ==> s[n] != '\n') && forall k | 0 <= k < n :: s[k] == '\n'
    decreases |s|
  {
    if s == [] || s[0] != '\n' then 0 else 1 + NewlineRun(s[1..])
  }

  lemma BreakShape()
    ensures NoBlankLine(Break) && Break[0] == '\n' && Break[|Break| - 1] == '>'
  {
  }

  lemma NoBlankConcat(a: string, b: string)
    requires NoBlankLine(a) && NoBlankLine(b)
    requires a != [] && b != [] ==> !(a[|a| - 1] == '\n' && b[0] == '\n')
    ensures NoBlankLine(a + b)
  {
    var s := a + b;
    forall i | 0 <= i < |s| - 1
      ensures !(s[i] == '\n' && s[i + 1] == '\n')
    {
      if i + 1 < |a| {
        assert s[i] == a[i] && s[i + 1] == a[i + 1];
      } else if i >= |a| {
        assert s[i] == b[i - |a|] && s[i + 1] == b[i - |a| + 1];
      }
    }
  }

  /** `re.sub(r'\n\n+', '\n</p>\n<p>', s)`: each run of two or more newlines, leftmost first,
      becomes a paragraph break. The result has no blank line left, and starts like `s`. */
  function Collapse(s: string): (r: string)
    ensures (r == []) == (s == []) && (r != [] ==> r[0] == s[0])
    ensures NoBlankLine(r)
    decreases |s|
  {
    if s == [] then []
    else if |s| >= 2 && s[0] == '\n' && s[1] == '\n' then
      var n := NewlineRun(s);
      var rest := Collapse(s[n..]);
      BreakShape();
      NoBlankConcat(Break, rest);
      Break + rest
    else
      var rest := Collapse(s[1..]);
      NoBlankConcat([s[0]], rest);
      [s[0]] + rest
  }

  /** A text without blank lines is kept as it is. */
  lemma {:induction false} CollapseQuiet(s: string)
    requires NoBlankLine(s)
    ensures Collapse(s) == s
    decreases |s|
  {
    if s != [] {
      assert NoBlankLine(s[1..]) by {
        forall i | 0 <= i < |s[1..]| - 1
          ensures !(s[1..][i] == '\n' && s[1..][i + 1] == '\n')
        {
          assert s[1..][i] == s[i + 1] && s[1..][i + 1] == s[i + 2];
        }
      }
      CollapseQuiet(s[1..]);
      assert [s[0]] + s[1..] == s;
    }
  }

  /** `n` newlines. */
  function Newlines(n: nat): (s: string)
    ensures |s| == n && forall k | 0 <= k < n :: s[k] == '\n'
  {
    if n == 0 then [] else "\n" + Newlines(n - 1)
  }

  /** The run of newlines at the front of `Newlines(n) + b` is exactly `n` long. */
  lemma {:induction false} NewlineRunOf(n: nat, b: string)
    requires b == [] || b[0] != '\n'
    ensures NewlineRun(Newlines(n) + b) == n
  {
    if n > 0 {
      var s := Newlines(n) + b;
      assert s[1..] == Newlines(n - 1) + b;
      NewlineRunOf(n - 1, b);
    }
  }

  lemma CollapseRun(s: string)
    requires |s| >= 2 && s[0] == '\n' && s[1] == '\n'
    ensures Collapse(s) == Break + Collapse(s[NewlineRun(s)..])
  {
  }

  lemma CollapseStep(s: string)
    requires s != [] && !(|s| >= 2 && s[0] == '\n' && s[1] == '\n')
    ensures Collapse(s) == [s[0]] + Collapse(s[1..])
  {
  }

  /** `a` less its first character keeps the shape `CollapseBreak` asks of it. */
  lemma TailShape(a: string)
    requires a != [] && NoBlankLine(a) && a[|a| - 1] != '\n'
    ensures NoBlankLine(a[1..]) && (a[1..] == [] || a[1..][|a[1..]| - 1] != '\n')
    ensures !(|a| >= 2 && a[0] == '\n' && a[1] == '\n')
  {
    var t := a[1..];
    forall i | 0 <= i < |t| - 1
      ensures !(t[i] == '\n' && t[i + 1] == '\n')
    {
      assert t[i] == a[i + 1] && t[i + 1] == a[i + 2];
    }
  }

  /** A run of two or more newlines between a text without blank lines and a text that does
      not start with a newline becomes one paragraph break, and the scan goes on after it. */
  lemma CollapseBreak(a: string, n: nat, b: string)
    requires n >= 2 && NoBlankLine(a) && (a == [] || a[|a| - 1] != '\n')
    requires b == [] || b[0] != '\n'
    ensures Collapse(a + Newlines(n) + b) == a + Break + Collapse(b)
  {
    var m := Newlines(n) + b;
    CollapseFront(n, b);
    CollapsePrefix(a, m);
    Assoc(a, Newlines(n), b);
    Assoc(a, Break, Collapse(b));
  }

  lemma Assoc(x: string, y: string, z: string)
    ensures x + (y + z) == x + y + z
  {
  }

  /** A text without blank lines that does not end in a newline is copied as it is, and
      whatever follows it is collapsed on its own. */
  lemma {:induction false} CollapsePrefix(a: string, m: string)
    requires NoBlankLine(a) && (a == [] || a[|a| - 1] != '\n')
    ensures Collapse(a + m) == a + Collapse(m)
    decreases |a|
  {
    if a == [] {
      assert a + m == m;
    } else {
      TailShape(a);
      CollapsePrefix(a[1..], m);
      assert a[1..] + m != [] && (a[1..] + m)[0] == '\n' ==> a[0] != '\n' by {
        if |a| >= 2 {
          assert (a[1..] + m)[0] == a[1];
        }
      }
      CollapsePrefixStep(a, m, Collapse(m));
    }
  }

  /** One character of `a` in front: `Collapse` keeps it and goes on with the rest. */
  lemma CollapsePrefixStep(a: string, m: string, y: string)
    requires a != [] && (a[1..] + m != [] && (a[1..] + m)[0] == '\n' ==> a[0] != '\n')
    requires Collapse(a[1..] + m) == a[1..] + y
    ensures Collapse(a + m) == a + y
  {
    var t := a[1..];
    assert a == [a[0]] + t;
    Assoc([a[0]], t, m);
    CollapseCons(a[0], t + m);
    Assoc([a[0]], t, y);
  }

  lemma CollapseCons(x: char, u: string)
    requires u != [] && u[0] == '\n' ==> x != '\n'
    ensures Collapse([x] + u) == [x] + Collapse(u)
  {
    var s := [x] + u;
    assert s[1..] == u;
    CollapseStep(s);
  }

  lemma CollapseFront(n: nat, b: string)
    requires n >= 2 && (b == [] || b[0] != '\n')
    ensures Collapse(Newlines(n) + b) == Break + Collapse(b)
  {
    var s := Newlines(n) + b;
    NewlineRunOf(n, b);
    CollapseRun(s);
    assert s[n..] == b;
  }

  /** `<p>` and `</p>` around the collapsed text. */
  function Paragraphs(s: string): (html: string)
    ensures |html| >= 7 && StartsWith(html, "<p>") && html[|html| - 4..] == "</p>"
    ensures html[3..|html| - 4] == Collapse(s) && NoBlankLine(Collapse(s))
  {
    var body := Collapse(s);
    var html := "<p>" + body + "</p>";
    assert html[..3] == "<p>" && html[3..|html| - 4] == body;
    html
  }

  // ---------------------------------------------------------------- the whole conversion

  /** `markdown_to_html`: headings, then the whole-text rewrites (`inline`: code blocks,
      inline code, bold, emphasis), then lists, then the table pass over the lines, then
      paragraphs over the lines joined again. */
  function Converted(md: string, inline: string -> string): string {
    var lines := Split(PerLine(ListLine, inline(PerLine(HeadingLine, md))), '\n');
    Paragraphs(Join(RenderAll(TableOut(lines)), "\n"))
  }

  method MarkdownToHtml(md: string, inline: string -> string) returns (html: string)
    ensures html == Converted(md, inline)
    ensures |html| >= 7 && StartsWith(html, "<p>") && html[|html| - 4..] == "</p>"
  {
    var text := PerLine(HeadingLine, md);
    text := inline(text);
    text := PerLine(ListLine, text);
    var lines := Split(text, '\n');
    var result := TablePass(lines);
    html := Paragraphs(Join(result, "\n"));
  }
}
