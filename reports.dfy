// The text the runners write once a regression ends: the detailed results file of the v1 and
// makefile generations, and the run-folder generation's pass, no-pass and running lists and
// console summary. Every file is a list of lines, each written with a trailing newline.

module Reports {
  import opened Common
  import opened Text
  import opened Classifier
  import opened Session
  import TestList

  // ---------------------------------------------------------------- formatting pieces

  /** `c * 80` */
  function Rule(c: char): string {
    seq(80, _ => c)
  }

  /** `f"{x:.1f}"` for a non-negative quantity held in tenths. */
  function Tenths(t: nat): string {
    NatToString(t / 10) + "." + [DigitChar(t % 10)]
  }

  /** `(passed / total) * 100` in tenths of a percent, as `:.1f` rounds it: to the nearest
      tenth, a tie going to the even neighbour. */
  function RateTenths(passed: nat, total: nat): (r: nat)
    requires total > 0
    ensures -(total as int) <= 2 * (r * total - passed * 1000) <= total
    ensures 2 * (r * total - passed * 1000) == total || 2 * (r * total - passed * 1000) == -(total as int) ==>
              r % 2 == 0
    ensures passed <= total ==> r <= 1000
  {
    NearestEven(passed * 1000, total);
    RoundHalfEven(passed * 1000, total)
  }

  /** `m / total` rounded to the nearest integer, a tie going to the even neighbour. */
  function RoundHalfEven(m: nat, total: nat): nat
    requires total > 0
  {
    var q, rem := m / total, m % total;
    if 2 * rem > total || (2 * rem == total && q % 2 == 1) then q + 1 else q
  }

  /** The rounding rule meets the three promises on every numerator. */
  lemma NearestEven(m: nat, total: nat)
    requires total > 0
    ensures var r := RoundHalfEven(m, total);
      -(total as int) <= 2 * (r * total - m) <= total &&
      (2 * (r * total - m) == total || 2 * (r * total - m) == -(total as int) ==> r % 2 == 0) &&
      (m <= 1000 * total ==> r <= 1000)
  {
    var q, rem, r := m / total, m % total, RoundHalfEven(m, total);
    assert m == q * total + rem && 0 <= rem < total;
    if m <= 1000 * total {
      assert q <= 1000 by {
        if q > 1000 {
          MulMonotone(1001, q, total);
        }
      }
      if q == 1000 {
        assert rem == 0;
      }
    }
    if r == q + 1 {
      assert r * total == q * total + total;
    }
  }

  lemma MulMonotone(a: nat, b: nat, c: nat)
    requires a <= b
    ensures a * c <= b * c
  {
  }

  // ---------------------------------------------------------------- the detailed results file

  /** Where the `Log:` line points: the v1 generation prints each run's own log path; the
      makefile generation prints the copy under the pass or no-pass log folder. */
  datatype LogStyle = OwnLog | Copied(passDir: string, noPassDir: string)

  function ShownLog(style: LogStyle, r: JobResult): string {
    match style
    case OwnLog => r.logFile
    case Copied(passDir, noPassDir) =>
      (if r.status == Pass then passDir else noPassDir) + "/" + r.name + ".log"
  }

  const MakefileTitle := "AXI4 Regression Results (Makefile Version)"
  const V1Title := "AXI4 Regression Results"

  function TestLine(name: string): string {
    "Test:     " + name
  }

  function StatusLine(s: Status): string {
    "Status:   " + StatusText(s)
  }

  function DurationLine(tenths: nat): string {
    "Duration: " + Tenths(tenths) + "s"
  }

  function FolderLine(id: nat): string {
    "Folder:   " + NatToString(id)
  }

  function LogLine(path: string): string {
    "Log:      " + path
  }

  /** The `Error:` line, written when the group shows errors and the run has a message. */
  function ErrorLines(r: JobResult, withError: bool): seq<string> {
    if withError && Given(r.message) then ["Error:    " + r.message.value] else []
  }

  /** The lines written for one result; the PASS group omits the `Error:` line. */
  function Block(r: JobResult, style: LogStyle, withError: bool): seq<string> {
    [TestLine(r.name), StatusLine(r.status), DurationLine(r.tenths), FolderLine(r.folderId),
     LogLine(ShownLog(style, r))] + ErrorLines(r, withError) + [""]
  }

  function Blocks(rs: seq<JobResult>, style: LogStyle, withError: bool): seq<string>
    decreases |rs|
  {
    if rs == [] then [] else Block(rs[0], style, withError) + Blocks(rs[1..], style, withError)
  }

  /** A group header names its group and counts it. */
  function Header(title: string, n: nat): string {
    title + " Tests (" + NatToString(n) + "):"
  }

  /** One group: nothing when it is empty, else its header, a rule and the blocks; the
      TIMEOUT and FAILED groups end with a blank line. */
  function Section(title: string, rs: seq<JobResult>, style: LogStyle, last: bool): seq<string> {
    if rs == [] then []
    else
      [Header(title, |rs|), Rule('-')] +
      Blocks(rs, style, !last) + (if last then [] else [""])
  }

  /** The heading and summary counts; the pass rate divides by the total. */
  function Heading(title: string, stamp: string, total: nat, passed: nat, failed: nat): (h: seq<string>)
    requires total > 0
    ensures |h| == 10 && h[0] == title && h[1] == "Generated: " + stamp
    ensures h[5] == "  Total Tests: " + NatToString(total) && h[6] == "  Passed:      " + NatToString(passed) &&
            h[7] == "  Failed:      " + NatToString(failed)
    ensures h[8] == "  Pass Rate:   " + Tenths(RateTenths(passed, total)) + "%"
  {
    [title,
     "Generated: " + stamp,
     Rule('='),
     "",
     "Summary:",
     "  Total Tests: " + NatToString(total),
     "  Passed:      " + NatToString(passed),
     "  Failed:      " + NatToString(failed),
     "  Pass Rate:   " + Tenths(RateTenths(passed, total)) + "%",
     ""]
  }

  /** `_save_detailed_results`: TIMEOUT, then FAIL/ERROR, then PASS runs, each group in result
      order. */
  function DetailedResults(title: string, stamp: string, total: nat, passed: nat, failed: nat,
                           rs: seq<JobResult>, style: LogStyle): (lines: seq<string>)
    requires total > 0
    ensures |lines| >= 10 && lines[..10] == Heading(title, stamp, total, passed, failed)
  {
    var h := Heading(title, stamp, total, passed, failed);
    var t := Section("TIMEOUT", TimeoutGroup(rs), style, false);
    var f := Section("FAILED", FailGroup(rs), style, false);
    var p := Section("PASSED", PassGroup(rs), style, true);
    PrefixKept(h, t, f, p);
    h + t + f + p
  }

  lemma PrefixKept(h: seq<string>, a: seq<string>, b: seq<string>, c: seq<string>)
    ensures (h + a + b + c)[..|h|] == h
  {
  }

  /** The section a status is listed under, and the results listed there. */
  function GroupTitle(s: Status): string {
    match s
    case Timeout => "TIMEOUT"
    case Pass => "PASSED"
    case _ => "FAILED"
  }

  function GroupOf(rs: seq<JobResult>, s: Status): seq<JobResult> {
    match s
    case Timeout => TimeoutGroup(rs)
    case Pass => PassGroup(rs)
    case _ => FailGroup(rs)
  }

  /** Every run of the session is written in full under its status's section: the section's
      header, counting that group, comes first, and the run's block (with its `Error:` line
      unless it passed) follows it unbroken. */
  lemma DetailedShowsRun(title: string, stamp: string, total: nat, passed: nat, failed: nat,
                         rs: seq<JobResult>, style: LogStyle, r: JobResult) returns (h: nat, i: nat)
    requires total > 0 && r in rs
    ensures Placed(DetailedResults(title, stamp, total, passed, failed, rs, style), h, i,
                   Header(GroupTitle(r.status), |GroupOf(rs, r.status)|), Block(r, style, r.status != Pass))
  {
    var g := GroupOf(rs, r.status);
    var j := RunInGroup(rs, r);
    var last := r.status == Pass;
    var k := SectionHolds(GroupTitle(r.status), g, style, last, j);
    h, i := DetailedPlaced(title, stamp, total, passed, failed, rs, style, r.status, k,
                           Block(r, style, r.status != Pass));
  }

  /** A run of the session is listed in the group of its status. */
  lemma RunInGroup(rs: seq<JobResult>, r: JobResult) returns (j: nat)
    requires r in rs
    ensures j < |GroupOf(rs, r.status)| && GroupOf(rs, r.status)[j] == r
  {
    GroupsExclusive(rs, r);
    var g := GroupOf(rs, r.status);
    assert r in g;
    j :| 0 <= j < |g| && g[j] == r;
  }

  /** Line `h` of `lines` is `header`, and `b` sits unbroken from line `i`, past the heading. */
  predicate Placed(lines: seq<string>, h: nat, i: nat, header: string, b: seq<string>) {
    10 <= h < i && i + |b| <= |lines| && lines[h] == header && lines[i..i + |b|] == b
  }

  /** A block found inside a status's section is found in the detailed file, past the heading
      and the sections before it. */
  lemma DetailedPlaced(title: string, stamp: string, total: nat, passed: nat, failed: nat,
                       rs: seq<JobResult>, style: LogStyle, s: Status, k: nat, b: seq<string>) returns (h: nat, i: nat)
    requires total > 0
    requires var sec := Section(GroupTitle(s), GroupOf(rs, s), style, s == Pass);
      0 < k && k + |b| <= |sec| && sec[k..k + |b|] == b
    ensures Placed(DetailedResults(title, stamp, total, passed, failed, rs, style), h, i,
                   Section(GroupTitle(s), GroupOf(rs, s), style, s == Pass)[0], b)
  {
    var lines := DetailedResults(title, stamp, total, passed, failed, rs, style);
    var hd := Heading(title, stamp, total, passed, failed);
    var t := Section("TIMEOUT", TimeoutGroup(rs), style, false);
    var f := Section("FAILED", FailGroup(rs), style, false);
    var p := Section("PASSED", PassGroup(rs), style, true);
    assert lines == hd + t + f + p;
    match s
    case Timeout =>
      Regroup(hd, t, f, p);
      h, i := |hd|, |hd| + k;
      PlacedIn(lines, hd, t, f + p, k, b, h, i);
    case Pass =>
      h, i := |hd + t + f|, |hd + t + f| + k;
      PlacedIn(lines, hd + t + f, p, [], k, b, h, i);
    case _ =>
      h, i := |hd + t|, |hd + t| + k;
      PlacedIn(lines, hd + t, f, p, k, b, h, i);
  }

  lemma Regroup(a: seq<string>, b: seq<string>, c: seq<string>, d: seq<string>)
    ensures a + b + c + d == a + b + (c + d)
  {
  }

  lemma PlacedIn(lines: seq<string>, before: seq<string>, sec: seq<string>, after: seq<string>, k: nat,
                 b: seq<string>, h: nat, i: nat)
    requires lines == before + sec + after && |before| >= 10
    requires 0 < k && k + |b| <= |sec| && sec[k..k + |b|] == b
    requires h == |before| && i == h + k
    ensures Placed(lines, h, i, sec[0], b)
  {
    SliceIn(before, sec, after, k, |b|);
  }

  /** Within a non-empty section, the header opens it and each run's block sits after the rule. */
  lemma SectionHolds(title: string, g: seq<JobResult>, style: LogStyle, last: bool, j: nat) returns (k: nat)
    requires j < |g|
    ensures var sec := Section(title, g, style, last); var b := Block(g[j], style, !last);
      2 <= k && k + |b| <= |sec| && sec[0] == Header(title, |g|) && sec[k..k + |b|] == b
  {
    var tail := if last then [] else [""];
    var bs := Blocks(g, style, !last);
    var m := BlocksHold(g, style, !last, j);
    SectionParts(title, g, style, last);
    FramedHolds([Header(title, |g|), Rule('-')], bs, tail, Block(g[j], style, !last), m);
    k := 2 + m;
  }

  lemma FramedHolds(top: seq<string>, bs: seq<string>, tail: seq<string>, b: seq<string>, m: nat)
    requires |top| == 2 && m + |b| <= |bs| && bs[m..m + |b|] == b
    ensures 2 + m + |b| <= |top + bs + tail| && (top + bs + tail)[2 + m..2 + m + |b|] == b
    ensures (top + bs + tail)[0] == top[0]
  {
    SliceIn(top, bs, tail, m, |b|);
  }

  lemma SectionParts(title: string, g: seq<JobResult>, style: LogStyle, last: bool)
    requires g != []
    ensures Section(title, g, style, last) ==
              [Header(title, |g|), Rule('-')] + Blocks(g, style, !last) + (if last then [] else [""])
  {
  }

  /** Each run's block sits unbroken in the blocks of its group. */
  lemma BlocksHold(g: seq<JobResult>, style: LogStyle, withError: bool, j: nat) returns (m: nat)
    requires j < |g|
    ensures var bs := Blocks(g, style, withError); var b := Block(g[j], style, withError);
      m + |b| <= |bs| && bs[m..m + |b|] == b
  {
    var ss := BlockSeq(g, style, withError);
    BlocksConcat(g, style, withError);
    m := ConcatHolds(ss, j);
  }

  function BlockSeq(g: seq<JobResult>, style: LogStyle, withError: bool): seq<seq<string>> {
    seq(|g|, k requires 0 <= k < |g| => Block(g[k], style, withError))
  }

  /** The lines of a list of line groups, in order. */
  function Concat(ss: seq<seq<string>>): seq<string>
    decreases |ss|
  {
    if ss == [] then [] else ss[0] + Concat(ss[1..])
  }

  lemma {:induction false} BlocksConcat(g: seq<JobResult>, style: LogStyle, withError: bool)
    ensures Blocks(g, style, withError) == Concat(BlockSeq(g, style, withError))
    decreases |g|
  {
    if g != [] {
      BlocksConcat(g[1..], style, withError);
      var ss, tl := BlockSeq(g, style, withError), BlockSeq(g[1..], style, withError);
      assert forall k | 0 <= k < |tl| :: ss[1..][k] == tl[k];
      assert ss[1..] == tl;
      assert Concat(ss) == ss[0] + Concat(tl);
    }
  }

  lemma {:induction false} ConcatHolds(ss: seq<seq<string>>, j: nat) returns (m: nat)
    requires j < |ss|
    ensures m + |ss[j]| <= |Concat(ss)| && Concat(ss)[m..m + |ss[j]|] == ss[j]
    decreases j
  {
    if j == 0 {
      m := 0;
      assert Concat(ss)[..|ss[0]|] == ss[0];
    } else {
      var m' := ConcatHolds(ss[1..], j - 1);
      SliceIn(ss[0], Concat(ss[1..]), [], m', |ss[j]|);
      assert ss[0] + Concat(ss[1..]) + [] == Concat(ss);
      m := |ss[0]| + m';
    }
  }

  lemma SliceIn(a: seq<string>, b: seq<string>, c: seq<string>, i: nat, n: nat)
    requires i + n <= |b|
    ensures (a + b + c)[|a| + i..|a| + i + n] == b[i..i + n]
  {
    var l, r := (a + b + c)[|a| + i..|a| + i + n], b[i..i + n];
    assert forall k | 0 <= k < n :: l[k] == r[k];
  }

  // ---------------------------------------------------------------- run-folder list files

  /** ` seed=<seed>` when the run has a seed, else nothing. */
  function SeedPart(r: JobResult): string {
    if Given(r.seed) then " seed=" + r.seed.value else ""
  }

  /** ` command_add=<options>` when the run has extra options, else nothing. */
  function CommandPart(r: JobResult): string {
    if Given(r.commandAdd) then " command_add=" + r.commandAdd.value else ""
  }

  /** A run as a test-list line: its name, then its seed and its extra options when set. */
  function ParamLine(r: JobResult): string {
    r.name + SeedPart(r) + CommandPart(r)
  }

  function ParamLines(rs: seq<JobResult>): seq<string> {
    seq(|rs|, k requires 0 <= k < |rs| => ParamLine(rs[k]))
  }

  /** `pass_list`: a commented header, then one line per passing run. */
  function PassList(rs: seq<JobResult>, stamp: string): (lines: seq<string>)
    ensures |lines| == 5 + |PassGroup(rs)|
    ensures lines[3] == "# Total passed runs: " + NatToString(|lines| - 5)
    ensures forall k | 0 <= k < |PassGroup(rs)| :: lines[5 + k] == ParamLine(PassGroup(rs)[k])
  {
    ListFile(["# Pass list generated on " + stamp,
              "# Test execution parameters for passed tests",
              "# Format: test_name [seed=XXX] [command_add=XXX]"],
             "# Total passed runs: ", PassGroup(rs))
  }

  /** `no_pass_list`: a commented header, then one line per run that did not pass. */
  function NoPassList(rs: seq<JobResult>, stamp: string): (lines: seq<string>)
    ensures |lines| == 5 + |Select(rs, NotPass)|
    ensures lines[3] == "# Total failed runs: " + NatToString(|lines| - 5)
    ensures forall k | 0 <= k < |Select(rs, NotPass)| :: lines[5 + k] == ParamLine(Select(rs, NotPass)[k])
  {
    ListFile(["# No pass list generated on " + stamp,
              "# Test execution parameters for failed tests",
              "# Format: test_name [seed=XXX] [command_add=XXX]"],
             "# Total failed runs: ", Select(rs, NotPass))
  }

  /** The layout both lists share: three comment lines, the count, `#`, then one parameter
      line per run of the group. */
  function ListFile(head: seq<string>, countLabel: string, group: seq<JobResult>): (lines: seq<string>)
    requires |head| == 3
    ensures |lines| == 5 + |group| && lines[..3] == head && lines[4] == "#"
    ensures lines[3] == countLabel + NatToString(|group|)
    ensures forall k | 0 <= k < |group| :: lines[5 + k] == ParamLine(group[k])
  {
    var lines := head + [countLabel + NatToString(|group|), "#"] + ParamLines(group);
    assert lines[..3] == head;
    lines
  }

  /** The pass list has a line for every passing run and for nothing else. */
  lemma PassListExact(rs: seq<JobResult>, stamp: string)
    ensures var lines := PassList(rs, stamp);
      (set k | 5 <= k < |lines| :: lines[k]) == (set r | r in rs && r.status == Pass :: ParamLine(r))
  {
    ListedExactly(rs, {Pass}, PassList(rs, stamp));
  }

  /** The no-pass list has a line for every run that did not pass and for nothing else. */
  lemma NoPassListExact(rs: seq<JobResult>, stamp: string)
    ensures var lines := NoPassList(rs, stamp);
      (set k | 5 <= k < |lines| :: lines[k]) == (set r | r in rs && r.status in NotPass :: ParamLine(r))
  {
    ListedExactly(rs, NotPass, NoPassList(rs, stamp));
  }

  lemma ListedExactly(rs: seq<JobResult>, wanted: set<Status>, lines: seq<string>)
    requires |lines| == 5 + |Select(rs, wanted)|
    requires forall k | 0 <= k < |Select(rs, wanted)| :: lines[5 + k] == ParamLine(Select(rs, wanted)[k])
    ensures (set k | 5 <= k < |lines| :: lines[k]) == (set r | r in rs && r.status in wanted :: ParamLine(r))
  {
    var sel := Select(rs, wanted);
    var listed, meant := (set k | 5 <= k < |lines| :: lines[k]), (set r | r in rs && r.status in wanted :: ParamLine(r));
    forall r | r in rs && r.status in wanted
      ensures ParamLine(r) in listed
    {
      SelectMembers(rs, wanted, r);
      var k :| 0 <= k < |sel| && sel[k] == r;
      assert lines[5 + k] in listed;
    }
    forall k | 5 <= k < |lines|
      ensures lines[k] in meant
    {
      SelectMembers(rs, wanted, sel[k - 5]);
    }
  }

  /** The running-list tag: TIMEOUT and ERROR show as FAIL. */
  function Tag(s: Status): string {
    if s == Pass then "PASS" else "FAIL"
  }

  /** A running-list line: the name and its tag, then the parameters. */
  function RunningLine(r: JobResult): string {
    r.name + " [" + Tag(r.status) + "]" + SeedPart(r) + CommandPart(r)
  }

  /** `running_list`: every run, in result order. */
  function RunningList(rs: seq<JobResult>, stamp: string): (lines: seq<string>)
    ensures |lines| == 4 + |rs|
    ensures lines[2] == "# Total runs: " + NatToString(|lines| - 4)
    ensures forall k | 0 <= k < |rs| :: lines[4 + k] == RunningLine(rs[k])
  {
    ["# Running list generated on " + stamp,
     "# All tests executed in this regression",
     "# Total runs: " + NatToString(|rs|),
     "#"] + seq(|rs|, k requires 0 <= k < |rs| => RunningLine(rs[k]))
  }

  /** The pass and no-pass lists together hold every run once, so their entries number the
      running list's. */
  lemma ListsPartitionRunning(rs: seq<JobResult>, stamp: string)
    ensures (|PassList(rs, stamp)| - 5) + (|NoPassList(rs, stamp)| - 5) == |RunningList(rs, stamp)| - 4
    ensures multiset(PassGroup(rs)) + multiset(Select(rs, NotPass)) == multiset(rs)
  {
    PassSplit(rs);
  }

  /** The running list's tag says which of the two lists holds the run. */
  lemma RunningLineTag(rs: seq<JobResult>, r: JobResult)
    requires r in rs
    ensures StartsWith(RunningLine(r), r.name + " [PASS]") <==> r in PassGroup(rs)
    ensures StartsWith(RunningLine(r), r.name + " [FAIL]") <==> r in Select(rs, NotPass)
  {
    SelectMembers(rs, {Pass}, r);
    SelectMembers(rs, NotPass, r);
    NotPassIsFail(r.status);
    RunningLineTagOf(r);
  }

  lemma RunningLineTagOf(r: JobResult)
    ensures StartsWith(RunningLine(r), r.name + " [PASS]") <==> Tag(r.status) == "PASS"
    ensures StartsWith(RunningLine(r), r.name + " [FAIL]") <==> Tag(r.status) == "FAIL"
  {
    var rest := SeedPart(r) + CommandPart(r);
    TagAt(r.name, Tag(r.status), rest);
    assert RunningLine(r) == r.name + " [" + Tag(r.status) + "]" + rest;
  }

  lemma NotPassIsFail(s: Status)
    ensures s in NotPass <==> Tag(s) == "FAIL"
    ensures s in {Pass} <==> Tag(s) == "PASS"
  {
    match s
    case Pass =>
    case Fail =>
    case Timeout =>
    case Error =>
  }

  /** `name [tag]rest` starts with `name [T]` exactly when the tag is `T`. */
  lemma TagAt(name: string, tag: string, rest: string)
    requires tag == "PASS" || tag == "FAIL"
    ensures StartsWith(name + " [" + tag + "]" + rest, name + " [PASS]") <==> tag == "PASS"
    ensures StartsWith(name + " [" + tag + "]" + rest, name + " [FAIL]") <==> tag == "FAIL"
  {
    var line := name + " [" + tag + "]" + rest;
    assert line[|name| + 2] == tag[0];
    assert (name + " [PASS]")[|name| + 2] == 'P';
    assert (name + " [FAIL]")[|name| + 2] == 'F';
    assert line[..|name| + 7] == name + " [" + tag + "]";
  }

  // ---------------------------------------------------------------- reading a list back

  /** A run whose fields survive being written as a list line and read back: a name that is
      one word not starting a comment, a seed without `=` or spaces, options without spaces. */
  predicate Rereadable(r: JobResult) {
    r.name != [] && NoSpace(r.name) && r.name[0] != '#' &&
    (Given(r.seed) ==> NoSpace(r.seed.value) && '=' !in r.seed.value) &&
    (Given(r.commandAdd) ==> NoSpace(r.commandAdd.value))
  }

  function SeedWords(r: JobResult): seq<string> {
    if Given(r.seed) then ["seed=" + r.seed.value] else []
  }

  function CommandWords(r: JobResult): seq<string> {
    if Given(r.commandAdd) then ["command_add=" + r.commandAdd.value] else []
  }

  /** What the loader keeps of an optional field: a given value, or nothing. */
  function Kept(s: Option<string>): Option<string> {
    if Given(s) then s else None
  }

  /** The run-folder loader reads a pass-list or no-pass-list line back as the run it came
      from: same name, a single run, and the seed and options it was given. */
  lemma ReloadParamLine(r: JobResult)
    requires Rereadable(r)
    ensures TestList.ParseLine(ParamLine(r)) ==
              Some(Ok(TestList.ListedTest(r.name, 1, Kept(r.seed), Kept(r.commandAdd))))
  {
    var line := ParamLine(r);
    var toks := SeedWords(r) + CommandWords(r);
    LineUnstripped(r);
    LineWords(r);
    var parts := Words(Strip(line));
    assert parts == [r.name] + toks;
    assert parts[0] == r.name && parts[1..] == toks;
    TokensRead(r);
  }

  /** The line starts and ends with a non-space character, so stripping keeps it. */
  lemma LineUnstripped(r: JobResult)
    requires Rereadable(r)
    ensures Strip(ParamLine(r)) == ParamLine(r) && TestList.IsEntry(ParamLine(r))
  {
    var line := ParamLine(r);
    var name, sp, cp := r.name, SeedPart(r), CommandPart(r);
    assert line == name + sp + cp;
    assert line[0] == name[0];
    assert !IsSpace(name[0]) && !IsSpace(name[|name| - 1]);
    if cp != [] {
      assert cp[|cp| - 1] == r.commandAdd.value[|r.commandAdd.value| - 1];
      assert line[|line| - 1] == cp[|cp| - 1];
    } else if sp != [] {
      assert sp[|sp| - 1] == r.seed.value[|r.seed.value| - 1];
      assert line[|line| - 1] == sp[|sp| - 1];
    } else {
      assert line[|line| - 1] == name[|name| - 1];
    }
    StripUnchanged(line);
  }

  /** The line's words are the name, then the seed token, then the options token. */
  lemma LineWords(r: JobResult)
    requires Rereadable(r)
    ensures Words(ParamLine(r)) == [r.name] + (SeedWords(r) + CommandWords(r))
  {
    var rest := SeedPart(r) + CommandPart(r);
    assert ParamLine(r) == r.name + rest;
    if rest != [] {
      assert rest[0] == ' ';
    }
    WordsLeadingWord(r.name, rest);
    RestWords(r);
  }

  lemma RestWords(r: JobResult)
    requires Rereadable(r)
    ensures Words(SeedPart(r) + CommandPart(r)) == SeedWords(r) + CommandWords(r)
  {
    var cp := CommandPart(r);
    CommandPartWords(r);
    if Given(r.seed) {
      if cp != [] {
        assert cp[0] == ' ';
      }
      SeedThenRest(r.seed.value, cp);
    } else {
      assert SeedPart(r) + cp == cp;
    }
  }

  lemma SeedThenRest(v: string, rest: string)
    requires NoSpace(v)
    requires rest == [] || rest[0] == ' '
    ensures Words(" seed=" + v + rest) == ["seed=" + v] + Words(rest)
  {
    KeyedWord("seed=", v);
    SpacedWord("seed=" + v, rest);
    SeedKeySpaced();
    SpaceRegroup(" seed=", " ", "seed=", v, rest);
  }

  lemma SeedKeySpaced()
    ensures " seed=" == " " + "seed="
  {
  }

  /** Regrouping a leading space split off a literal key. */
  lemma SpaceRegroup(k: string, sp: string, key: string, v: string, rest: string)
    requires k == sp + key
    ensures k + v + rest == sp + (key + v) + rest
  {
  }

  lemma CommandPartWords(r: JobResult)
    requires Rereadable(r)
    ensures Words(CommandPart(r)) == CommandWords(r)
  {
    if Given(r.commandAdd) {
      var tok := "command_add=" + r.commandAdd.value;
      KeyedWord("command_add=", r.commandAdd.value);
      SpacedWord(tok, "");
      assert CommandPart(r) == " " + tok + "";
    } else {
      WordsEmpty();
    }
  }

  lemma WordsEmpty()
    ensures Words("") == []
  {
  }

  /** `key=value` is one word when neither part holds a space. */
  lemma KeyedWord(key: string, value: string)
    requires key == "seed=" || key == "command_add="
    requires NoSpace(value)
    ensures key + value != [] && NoSpace(key + value)
  {
    assert NoSpace(key);
    var w := key + value;
    forall k | 0 <= k < |w|
      ensures !IsSpace(w[k])
    {
      if k < |key| {
        assert w[k] == key[k];
      } else {
        assert w[k] == value[k - |key|];
      }
    }
  }

  /** A space, a word, then text that is empty or starts with a space. */
  lemma SpacedWord(tok: string, rest: string)
    requires tok != [] && NoSpace(tok)
    requires rest == [] || IsSpace(rest[0])
    ensures Words(" " + tok + rest) == [tok] + Words(rest)
  {
    assert " " + tok + rest == " " + (tok + rest);
    WordsSkipSpaces(" ", tok + rest);
    WordsLeadingWord(tok, rest);
  }

  /** `seed=<value>` sets the seed to the value when it holds no `=`. */
  lemma SeedTokenRead(r: JobResult, t: TestList.ListedTest)
    requires Rereadable(r) && Given(r.seed)
    ensures TestList.ApplyTokenUnchecked(t, "seed=" + r.seed.value) == Ok(t.(seed := r.seed))
  {
    var v := r.seed.value;
    var tok := "seed=" + v;
    assert tok[0] == 's';
    assert !StartsWith(tok, "run_cnt=");
    assert tok[..5] == "seed=";
    assert Join(["seed", v], "=") == tok;
    SplitJoin(["seed", v], '=');
  }

  /** `command_add=<value>` keeps everything after the first `=`. */
  lemma CommandTokenRead(r: JobResult, t: TestList.ListedTest)
    requires Rereadable(r) && Given(r.commandAdd)
    ensures TestList.ApplyTokenUnchecked(t, "command_add=" + r.commandAdd.value) == Ok(t.(commandAdd := r.commandAdd))
  {
    var v := r.commandAdd.value;
    var tok := "command_add=" + v;
    assert tok[0] == 'c';
    assert !StartsWith(tok, "run_cnt=") && !StartsWith(tok, "seed=");
    assert tok[..12] == "command_add=";
    IndexOfIs(tok, '=', 11);
    assert tok[12..] == v;
  }

  /** The seed token, then the options token, fill in the fresh entry's fields. */
  lemma TokensRead(r: JobResult)
    requires Rereadable(r)
    ensures TestList.ParseTokens(TestList.ListedTest(r.name, 1, None, None), SeedWords(r) + CommandWords(r)) ==
              Ok(TestList.ListedTest(r.name, 1, Kept(r.seed), Kept(r.commandAdd)))
  {
    var t0 := TestList.ListedTest(r.name, 1, None, None);
    var t1 := t0.(seed := Kept(r.seed));
    var toks := SeedWords(r) + CommandWords(r);
    assert TestList.ParseTokens(t0, []) == Ok(t0);
    if Given(r.seed) {
      SeedTokenRead(r, t0);
      assert toks[..1] == SeedWords(r) && SeedWords(r)[..0] == [];
    }
    assert TestList.ParseTokens(t0, SeedWords(r)) == Ok(t1);
    if Given(r.commandAdd) {
      CommandTokenRead(r, t1);
      assert toks[..|toks| - 1] == SeedWords(r);
    } else {
      assert toks == SeedWords(r);
    }
  }

  // ---------------------------------------------------------------- console summary

  /** `error_msg or status`: the message when there is a non-empty one, otherwise the
      status word. */
  function Reason(r: JobResult): (s: string)
    ensures Given(r.message) ==> s == r.message.value
    ensures !Given(r.message) ==> s == StatusText(r.status)
  {
    if Given(r.message) then r.message.value else StatusText(r.status)
  }

  /** The failure lines of the run-folder console summary: the first ten runs that did not
      pass, each with its message (or its status when it has none), then how many more. */
  function FailureSummary(rs: seq<JobResult>): (lines: seq<string>)
    ensures var n := |Select(rs, NotPass)|;
      |lines| == (if n > 10 then 11 else n) &&
      (forall k | 0 <= k < |lines| && k < 10 && k < n ::
         lines[k] == "   - " + Select(rs, NotPass)[k].name + ": " + Reason(Select(rs, NotPass)[k])) &&
      (n > 10 ==> lines[10] == "   ... and " + NatToString(n - 10) + " more")
  {
    var failed := Select(rs, NotPass);
    var shown := if |failed| > 10 then 10 else |failed|;
    var head := seq(shown, k requires 0 <= k < shown => "   - " + failed[k].name + ": " + Reason(failed[k]));
    head + (if |failed| > 10 then ["   ... and " + NatToString(|failed| - 10) + " more"] else [])
  }
}
