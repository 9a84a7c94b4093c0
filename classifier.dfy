// Deciding a finished simulation's status from its console output and its log file.
// Three generations: the v1 script (status and message), the makefile script (status,
// message and the UVM summary counts) and the run-folder script (pass patterns first).
// Regular expressions other than the timestamp normaliser are decided by an `Engine`
// passed in: `search(p, t)` is whether `re.search(p, t)` finds a match (equivalently,
// whether `re.findall` returns a non-empty list for these group-free patterns), and
// `firstCount(p, t)` is `int(m.group(1))` of the first match of a one-group count pattern.

module Classifier {
  import opened Common
  import opened Text

  datatype Status = Pass | Fail | Timeout | Error

  /** The status words written into reports. */
  function StatusText(s: Status): (t: string)
    ensures t in {"PASS", "FAIL", "TIMEOUT", "ERROR"}
  {
    match s
    case Pass => "PASS"
    case Fail => "FAIL"
    case Timeout => "TIMEOUT"
    case Error => "ERROR"
  }

  lemma StatusTextInjective(a: Status, b: Status)
    requires a != b
    ensures StatusText(a) != StatusText(b)
  {
  }

  /** A pattern as written in the source, compiled with or without IGNORECASE. */
  datatype Regex = Regex(source: string, ignoreCase: bool)

  datatype Engine = Engine(search: (Regex, string) -> bool, firstCount: (Regex, string) -> Option<nat>)

  /** The log file as the classifier finds it. */
  datatype LogFile = Missing | Unreadable(reason: string) | Present(content: string)

  /** The makefile and run-folder result: status, message, UVM_ERROR and UVM_FATAL counts. */
  datatype Verdict = Verdict(status: Status, message: Option<string>, uvmErrors: nat, uvmFatals: nat)

  /** The v1 result: status and message. */
  datatype Outcome = Outcome(status: Status, message: Option<string>)

  // ---------------------------------------------------------------- the pattern lists

  /** Markers of a hung or looping simulation. */
  const HangPatterns: seq<Regex> := [
    Regex("simulation time.*exceeded", true),
    Regex("infinite loop detected", true),
    Regex("simulation appears to be hung", true),
    Regex("excessive repetition detected", true),
    Regex("timeout.*ultrasim", true),
    Regex("TIME_OUT.*ultrasim", true),
    Regex("timeout.*ultrathink", true),
    Regex("TIME_OUT.*ultrathink", true),
    Regex("simulation stuck at time", true)]

  /** Markers of a failed simulation; the UVM ones exclude summary-count lines. */
  const FailurePatterns: seq<Regex> := [
    Regex(@"UVM_FATAL(?!\s*:\s*\d+)", true),
    Regex(@"UVM_ERROR(?!\s*:\s*\d+)(?!\s+@\s+0:)", true),
    Regex(@"Error-\[", true),
    Regex(@"\*E,", true),
    Regex("FAILED", true),
    Regex("simulation aborted", true),
    Regex("Segmentation fault", true),
    Regex("core dumped", true)]

  /** Markers of a passing simulation (v1 and makefile generations). */
  const SuccessPatterns: seq<Regex> := [
    Regex("TestCase PASSED!!!", true),
    Regex("UVM_INFO.*TEST PASSED", true),
    Regex("UVM_INFO.*PASSED", true),
    Regex(@"\*\* TEST PASSED \*\*", true),
    Regex("Simulation completed successfully", true),
    Regex("test completed successfully", true),
    Regex("Test execution completed", true)]

  /** The summary-count patterns and completion markers, all case-sensitive. */
  const ErrorCountPattern := Regex(@"UVM_ERROR\s*:\s*(\d+)", false)
  const FatalCountPattern := Regex(@"UVM_FATAL\s*:\s*(\d+)", false)
  const FinishPattern := Regex(@"\$finish called", false)
  const TestDonePattern := Regex("TEST_DONE.*run.*phase.*ready", false)

  /** The run-folder generation's pass and fail markers. */
  const RunFolderPassPatterns: seq<Regex> := [
    Regex("TEST PASSED", true),
    Regex("TestCase.*PASSED", true),
    Regex(@"TEST RESULT:\s*PASS", true),
    Regex("test.*passed", true),
    Regex("PASS.*test.*passed", true),
    Regex("TEST.*DONE.*PASS", true),
    Regex("All tests passed", true),
    Regex("Near Timeout Exception Test PASSED", true),
    Regex("Exception.*Test.*PASSED", true),
    Regex("UVM_INFO.*Test.*PASSED", true)]

  const RunFolderFailPatterns: seq<Regex> := [
    Regex("TEST FAILED", true),
    Regex("UVM_FATAL", true),
    Regex("UVM_ERROR.*[1-9]", true),
    Regex(@"Error-\[", true),
    Regex("Fatal:", true),
    Regex("Simulation.*failed", true)]

  /** The first pattern of the list that matches the text. */
  function FirstMatch(e: Engine, patterns: seq<Regex>, text: string): (r: Option<Regex>)
    ensures r.Some? ==> r.value in patterns && e.search(r.value, text)
    ensures r.None? <==> forall p | p in patterns :: !e.search(p, text)
    decreases |patterns|
  {
    if patterns == [] then None
    else if e.search(patterns[0], text) then Some(patterns[0])
    else FirstMatch(e, patterns[1..], text)
  }

  /** The pattern found is the first one in the list that matches. */
  lemma {:induction false} FirstMatchIsFirst(e: Engine, patterns: seq<Regex>, text: string) returns (i: nat)
    requires FirstMatch(e, patterns, text).Some?
    ensures i < |patterns| && patterns[i] == FirstMatch(e, patterns, text).value
    ensures forall j | 0 <= j < i :: !e.search(patterns[j], text)
    decreases |patterns|
  {
    if e.search(patterns[0], text) {
      i := 0;
    } else {
      var i' := FirstMatchIsFirst(e, patterns[1..], text);
      i := i' + 1;
      assert forall j | 1 <= j < i :: patterns[j] == patterns[1..][j - 1];
    }
  }

  predicate AnyMatch(e: Engine, patterns: seq<Regex>, text: string) {
    FirstMatch(e, patterns, text).Some?
  }

  // ---------------------------------------------------------------- timestamp normalisation

  /** Length of the run of whitespace that starts `s`. */
  function SpaceRun(s: string): (n: nat)
    ensures n <= |s| && (n < |s| ==> !IsSpace(s[n]))
    ensures forall k | 0 <= k < n :: IsSpace(s[k])
    decreases |s|
  {
    if s != [] && IsSpace(s[0]) then 1 + SpaceRun(s[1..]) else 0
  }

  /** Length of the run of digits that starts `s`. */
  function DigitRun(s: string): (n: nat)
    ensures n <= |s| && (n < |s| ==> !IsDigit(s[n]))
    ensures forall k | 0 <= k < n :: IsDigit(s[k])
    decreases |s|
  {
    if s != [] && IsDigit(s[0]) then 1 + DigitRun(s[1..]) else 0
  }

  /** Length of the match of `@\s*\d+:` at the start of `s`; 0 when it does not match there. */
  function StampLength(s: string): (n: nat)
    ensures n == 0 || (3 <= n <= |s| && s[0] == '@' && s[n - 1] == ':')
  {
    if s == [] || s[0] != '@' then 0
    else
      var a := SpaceRun(s[1..]);
      var d := DigitRun(s[1 + a..]);
      if d > 0 && ColonAt(s, 1 + a + d) then 2 + a + d else 0
  }

  predicate ColonAt(s: string, i: nat) {
    i < |s| && s[i] == ':'
  }

  /** `re.sub(r'@\s*\d+:', '@TIME:', line)`: every simulation timestamp becomes `@TIME:`. */
  function Normalize(s: string): string
    decreases |s|
  {
    if s == [] then []
    else
      var n := StampLength(s);
      if n > 0 then "@TIME:" + Normalize(s[n..]) else [s[0]] + Normalize(s[1..])
  }

  lemma {:induction false} SpaceRunConcat(x: string, r: string)
    requires r == [] || !IsSpace(r[0])
    ensures SpaceRun(x + r) == SpaceRun(x)
    decreases |x|
  {
    if x == [] {
      assert x + r == r;
    } else {
      assert (x + r)[1..] == x[1..] + r;
      SpaceRunConcat(x[1..], r);
    }
  }

  lemma {:induction false} DigitRunConcat(x: string, r: string)
    requires r == [] || !IsDigit(r[0])
    ensures DigitRun(x + r) == DigitRun(x)
    decreases |x|
  {
    if x == [] {
      assert x + r == r;
    } else {
      assert (x + r)[1..] == x[1..] + r;
      DigitRunConcat(x[1..], r);
    }
  }

  /** A string that does not start with `@` has no match at its start, whatever follows. */
  lemma StampLengthNoAt(x: string, r: string)
    requires x != [] && (r == [] || r[0] == '@') && x[0] != '@'
    ensures StampLength(x + r) == StampLength(x) && StampLength(x) <= |x|
  {
    assert (x + r)[0] == x[0];
  }

  /** The whitespace after the `@` stops inside `x` when `x` is followed by an `@`. */
  lemma SpaceRunAfterAt(x: string, r: string)
    requires x != [] && (r == [] || r[0] == '@') && x[0] == '@'
    ensures SpaceRun((x + r)[1..]) == SpaceRun(x[1..])
  {
    SliceOfConcat(x, r, 1);
    SpaceRunConcat(x[1..], r);
  }

  /** So do the digits after that whitespace. */
  lemma DigitRunAfterAt(x: string, r: string)
    requires x != [] && (r == [] || r[0] == '@') && x[0] == '@'
    ensures var a := SpaceRun(x[1..]); DigitRun((x + r)[1 + a..]) == DigitRun(x[1 + a..])
  {
    var a := SpaceRun(x[1..]);
    SliceOfConcat(x, r, 1 + a);
    DigitRunConcat(x[1 + a..], r);
  }

  /** A match starting inside `x` cannot run into a following `@`. */
  lemma StampLengthConcat(x: string, r: string)
    requires x != [] && (r == [] || r[0] == '@')
    ensures StampLength(x + r) == StampLength(x) && StampLength(x) <= |x|
  {
    if x[0] != '@' {
      StampLengthNoAt(x, r);
    } else {
      StampLengthAt(x, r);
    }
  }

  /** For a string starting with `@`, the whitespace, digits and colon all lie inside `x`. */
  lemma StampLengthAt(x: string, r: string)
    requires x != [] && (r == [] || r[0] == '@') && x[0] == '@'
    ensures StampLength(x + r) == StampLength(x)
  {
    var s := x + r;
    assert s[0] == '@';
    SpaceRunAfterAt(x, r);
    DigitRunAfterAt(x, r);
    var a := SpaceRun(x[1..]);
    var d := DigitRun(x[1 + a..]);
    ColonAtConcat(x, r, 1 + a + d);
    assert StampLength(s) == if d > 0 && ColonAt(s, 1 + a + d) then 2 + a + d else 0;
    assert StampLength(x) == if d > 0 && ColonAt(x, 1 + a + d) then 2 + a + d else 0;
  }

  /** A `:` looked for inside `x` or just past it is found in `x + r` exactly when in `x`. */
  lemma ColonAtConcat(x: string, r: string, i: nat)
    requires i <= |x| && (r == [] || r[0] == '@')
    ensures ColonAt(x + r, i) == ColonAt(x, i)
  {
    if i < |x| {
      assert (x + r)[i] == x[i];
    } else if r != [] {
      assert (x + r)[i] == r[0];
    }
  }

  lemma NormalizeStep(s: string)
    requires s != []
    ensures StampLength(s) > 0 ==> Normalize(s) == "@TIME:" + Normalize(s[StampLength(s)..])
    ensures StampLength(s) == 0 ==> Normalize(s) == [s[0]] + Normalize(s[1..])
  {
  }

  /** Slicing a concatenation inside its left part; kept apart so that the slice is
      reasoned about without `Normalize` in scope. */
  lemma SliceOfConcat(x: string, r: string, n: nat)
    requires n <= |x|
    ensures (x + r)[n..] == x[n..] + r
  {
  }

  /** Associativity of `+` on strings, stated over plain variables. */
  lemma ConcatAssoc(p: string, a: string, b: string, t: string, whole: string, head: string)
    requires whole == p + a && head == p + b && a == b + t
    ensures whole == head + t
  {
  }

  /** `re.sub` rewrites a string cut just before an `@` piece by piece. */
  lemma {:induction false} NormalizeConcat(x: string, r: string)
    requires r == [] || r[0] == '@'
    ensures Normalize(x + r) == Normalize(x) + Normalize(r)
    decreases |x|
  {
    if x == [] {
      assert x + r == r;
    } else {
      StampLengthConcat(x, r);
      var n := StampLength(x);
      NormalizeStep(x + r);
      NormalizeStep(x);
      if n > 0 {
        SliceOfConcat(x, r, n);
        NormalizeConcat(x[n..], r);
        ConcatAssoc("@TIME:", Normalize(x[n..] + r), Normalize(x[n..]), Normalize(r), Normalize(x + r), Normalize(x));
      } else {
        SliceOfConcat(x, r, 1);
        NormalizeConcat(x[1..], r);
        ConcatAssoc([x[0]], Normalize(x[1..] + r), Normalize(x[1..]), Normalize(r), Normalize(x + r), Normalize(x));
      }
    }
  }

  /** A timestamp `@ <spaces> <digits>:` normalises to `@TIME:`. */
  lemma NormalizeStamp(spaces: string, digits: string, rest: string)
    requires forall k | 0 <= k < |spaces| :: IsSpace(spaces[k])
    requires digits != [] && AllDigits(digits)
    ensures Normalize("@" + spaces + digits + ":" + rest) == "@TIME:" + Normalize(rest)
  {
    var s := "@" + spaces + digits + ":" + rest;
    assert s[1..] == spaces + (digits + ":" + rest);
    SpaceRunConcat(spaces, digits + ":" + rest);
    SpaceRunExact(spaces);
    assert s[1 + |spaces|..] == digits + (":" + rest);
    DigitRunConcat(digits, ":" + rest);
    DigitRunExact(digits);
    assert s[2 + |spaces| + |digits|..] == rest;
  }

  lemma {:induction false} SpaceRunExact(s: string)
    requires forall k | 0 <= k < |s| :: IsSpace(s[k])
    ensures SpaceRun(s) == |s|
    decreases |s|
  {
    if s != [] {
      SpaceRunExact(s[1..]);
    }
  }

  lemma {:induction false} DigitRunExact(s: string)
    requires AllDigits(s)
    ensures DigitRun(s) == |s|
    decreases |s|
  {
    if s != [] {
      DigitRunExact(s[1..]);
    }
  }

  /** Two log lines that differ only in the simulation time of a message normalise alike,
      which is what lets the repetition check count one message printed at many times. */
  lemma TimestampIgnored(prefix: string, t1: nat, t2: nat, rest: string)
    ensures Normalize(prefix + "@" + NatToString(t1) + ":" + rest) ==
            Normalize(prefix + "@" + NatToString(t2) + ":" + rest)
  {
    StampInContext(prefix, NatToString(t1), rest);
    StampInContext(prefix, NatToString(t2), rest);
  }

  lemma StampInContext(prefix: string, digits: string, rest: string)
    requires digits != [] && AllDigits(digits)
    ensures Normalize(prefix + "@" + digits + ":" + rest) == Normalize(prefix) + "@TIME:" + Normalize(rest)
  {
    var s := "@" + digits + ":" + rest;
    StampRegroup(prefix, digits, rest);
    NormalizeConcat(prefix, s);
    NormalizeStamp([], digits, rest);
    ConcatAssoc(Normalize(prefix), "@TIME:" + Normalize(rest), "@TIME:", Normalize(rest),
      Normalize(prefix) + "@TIME:" + Normalize(rest), Normalize(prefix) + "@TIME:");
  }

  /** The groupings of a line with a timestamp that the proofs above move between. */
  lemma StampRegroup(prefix: string, digits: string, rest: string)
    ensures prefix + "@" + digits + ":" + rest == prefix + ("@" + digits + ":" + rest)
    ensures "@" + digits + ":" + rest == "@" + [] + digits + ":" + rest
  {
  }

  // ---------------------------------------------------------------- repetition check

  /** Only logs of more than this many lines are checked for repetition ... */
  const LargeLogLines: nat := 1000
  /** ... and only their last this many lines ... */
  const RecentWindow: nat := 100
  /** ... in which a message seen more than this many times means the simulation is stuck. */
  const RepeatLimit: nat := 20

  predicate IsInfoLine(line: string) {
    Contains(line, "UVM_INFO")
  }

  /** How many of the lines are UVM_INFO lines that normalise to `key`. */
  function InfoCount(lines: seq<string>, key: string): nat
    decreases |lines|
  {
    if lines == [] then 0
    else
      var last := lines[|lines| - 1];
      InfoCount(lines[..|lines| - 1], key) + (if IsInfoLine(last) && Normalize(last) == key then 1 else 0)
  }

  /** The window the repetition check looks at: the last lines of a large output. */
  function RecentLines(text: string): seq<string> {
    var lines := Split(text, '\n');
    if |lines| > LargeLogLines then lines[|lines| - RecentWindow..] else []
  }

  /** A large output whose recent window repeats one UVM_INFO message (up to its timestamp)
      more than the limit. */
  predicate Repetitive(text: string) {
    var recent := RecentLines(text);
    exists k | 0 <= k < |recent| :: IsInfoLine(recent[k]) && InfoCount(recent, Normalize(recent[k])) > RepeatLimit
  }

  lemma {:induction false} InfoCountWitness(lines: seq<string>, key: string) returns (k: nat)
    requires InfoCount(lines, key) > 0
    ensures k < |lines| && IsInfoLine(lines[k]) && Normalize(lines[k]) == key
    decreases |lines|
  {
    var init := lines[..|lines| - 1];
    if InfoCount(init, key) > 0 {
      k := InfoCountWitness(init, key);
      assert lines[k] == init[k];
    } else {
      k := |lines| - 1;
    }
  }

  /** The repetition check as the scripts run it: count normalised UVM_INFO lines of the
      recent window in a dictionary, then look for a count above the limit. */
  method DetectRepetition(text: string) returns (stuck: bool)
    ensures stuck == Repetitive(text)
  {
    var lines := Split(text, '\n');
    if |lines| <= LargeLogLines {
      return false;
    }
    var recent := lines[|lines| - RecentWindow..];
    assert recent == RecentLines(text);
    var counts := CountInfoLines(recent);
    stuck := AnyCountAbove(counts, RepeatLimit);
    if stuck {
      var key :| key in counts && counts[key] > RepeatLimit;
      var k := InfoCountWitness(recent, key);
    } else {
      forall k | 0 <= k < |recent| && IsInfoLine(recent[k])
        ensures InfoCount(recent, Normalize(recent[k])) <= RepeatLimit
      {
        InfoCountPositive(recent, k);
      }
    }
  }

  /** The dictionary of message counts: one entry per normalised UVM_INFO message. */
  method CountInfoLines(recent: seq<string>) returns (counts: map<string, nat>)
    ensures forall key | key in counts :: counts[key] == InfoCount(recent, key) > 0
    ensures forall key | key !in counts :: InfoCount(recent, key) == 0
  {
    counts := map[];
    var i := 0;
    while i < |recent|
      invariant 0 <= i <= |recent|
      invariant forall key | key in counts :: counts[key] == InfoCount(recent[..i], key) > 0
      invariant forall key | key !in counts :: InfoCount(recent[..i], key) == 0
    {
      assert recent[..i + 1][..i] == recent[..i];
      if Contains(recent[i], "UVM_INFO") {
        var msg := Normalize(recent[i]);
        counts := counts[msg := (if msg in counts then counts[msg] else 0) + 1];
      }
      i := i + 1;
    }
    assert recent[..|recent|] == recent;
  }

  /** Whether some count of the dictionary exceeds `limit`. */
  method AnyCountAbove(counts: map<string, nat>, limit: nat) returns (found: bool)
    ensures found <==> exists key | key in counts :: counts[key] > limit
  {
    var keys := counts.Keys;
    while keys != {}
      invariant keys <= counts.Keys
      invariant forall key | key in counts && key !in keys :: counts[key] <= limit
      decreases |keys|
    {
      var key :| key in keys;
      if counts[key] > limit {
        return true;
      }
      keys := keys - {key};
    }
    return false;
  }

  lemma {:induction false} InfoCountPositive(lines: seq<string>, k: nat)
    requires k < |lines| && IsInfoLine(lines[k])
    ensures InfoCount(lines, Normalize(lines[k])) > 0
    decreases |lines|
  {
    var init := lines[..|lines| - 1];
    var key := Normalize(lines[k]);
    InfoCountSnoc(lines, key);
    if k < |init| {
      assert init[k] == lines[k];
      InfoCountPositive(init, k);
    } else {
      assert lines[|lines| - 1] == lines[k];
    }
  }

  lemma InfoCountSnoc(lines: seq<string>, key: string)
    requires lines != []
    ensures var last := lines[|lines| - 1];
      InfoCount(lines, key) ==
        InfoCount(lines[..|lines| - 1], key) + (if IsInfoLine(last) && Normalize(last) == key then 1 else 0)
  {
  }

  /** Outputs of at most 1000 lines are never judged repetitive. */
  lemma ShortOutputNotRepetitive(text: string)
    requires |Split(text, '\n')| <= LargeLogLines
    ensures !Repetitive(text)
  {
  }

  // ---------------------------------------------------------------- evidence in the output

  /** The text the classifiers search: console output, a newline, then the log ("" when the
      log is absent). */
  function Combined(stdout: string, log: LogFile): string {
    stdout + "\n" + (if log.Present? then log.content else "")
  }

  predicate Hung(e: Engine, full: string) {
    AnyMatch(e, HangPatterns, full) || Repetitive(full)
  }

  predicate HasSummary(full: string) {
    Contains(full, "UVM Report Summary") || Contains(full, "Report counts by severity")
  }

  /** The first `UVM_ERROR : N` / `UVM_FATAL : N` count, 0 when there is none. */
  function CountOf(e: Engine, p: Regex, full: string): nat {
    match e.firstCount(p, full)
    case Some(n) => n
    case None => 0
  }

  function SummaryErrors(e: Engine, full: string): nat {
    if HasSummary(full) then CountOf(e, ErrorCountPattern, full) else 0
  }

  function SummaryFatals(e: Engine, full: string): nat {
    if HasSummary(full) then CountOf(e, FatalCountPattern, full) else 0
  }

  /** A UVM summary with no errors or fatals, and the simulation reached its end. */
  predicate CleanSummary(e: Engine, full: string) {
    HasSummary(full) && SummaryErrors(e, full) == 0 && SummaryFatals(e, full) == 0 &&
    (e.search(FinishPattern, full) || e.search(TestDonePattern, full))
  }

  /** A UVM summary that counts at least one error or fatal. */
  predicate SummaryReportsFailures(e: Engine, full: string) {
    SummaryErrors(e, full) > 0 || SummaryFatals(e, full) > 0
  }

  predicate CompletionMarker(full: string) {
    Contains(full, "CPU TIME") || Contains(full, "Total simulation time")
  }

  /** Index of the first line on which `p` matches. */
  function FirstMatchingLine(e: Engine, p: Regex, lines: seq<string>): (r: Option<nat>)
    ensures r.Some? ==> r.value < |lines| && e.search(p, lines[r.value])
    ensures r.Some? ==> forall k | 0 <= k < r.value :: !e.search(p, lines[k])
    ensures r.None? ==> forall k | 0 <= k < |lines| :: !e.search(p, lines[k])
    decreases |lines|
  {
    if lines == [] then None
    else if e.search(p, lines[0]) then Some(0)
    else match FirstMatchingLine(e, p, lines[1..])
      case Some(k) => Some(k + 1)
      case None => None
  }

  /** Line `k` is the first line of `lines` on which `p` matches. */
  predicate FirstMatchAt(e: Engine, p: Regex, lines: seq<string>, k: nat) {
    k < |lines| && e.search(p, lines[k]) && forall j | 0 <= j < k :: !e.search(p, lines[j])
  }

  /** The failure message: the first line the pattern matches, stripped and cut to 200
      characters, or the pattern itself when no single line matches. */
  function FailureMessage(e: Engine, p: Regex, full: string): (msg: string)
    ensures |msg| <= 200 || msg == "Failed with pattern: " + p.source
  {
    var lines := Split(full, '\n');
    match FirstMatchingLine(e, p, lines)
    case Some(k) => Take(Strip(lines[k]), 200)
    case None => "Failed with pattern: " + p.source
  }

  /** The message is the first matching line, stripped and cut to 200 characters. */
  lemma FailureMessageFirstLine(e: Engine, p: Regex, full: string, k: nat)
    requires FirstMatchAt(e, p, Split(full, '\n'), k)
    ensures FailureMessage(e, p, full) == Take(Strip(Split(full, '\n')[k]), 200)
  {
    var lines := Split(full, '\n');
    var r := FirstMatchingLine(e, p, lines);
    assert r.Some?;
    assert !(r.value < k);
    assert !(k < r.value);
  }

  /** When no line matches, the message names the pattern. */
  lemma FailureMessageNoLine(e: Engine, p: Regex, full: string)
    requires forall k | 0 <= k < |Split(full, '\n')| :: !e.search(p, Split(full, '\n')[k])
    ensures FailureMessage(e, p, full) == "Failed with pattern: " + p.source
  {
    var lines := Split(full, '\n');
    assert FirstMatchingLine(e, p, lines).None?;
  }

  function CountMessage(errors: nat, fatals: nat): string {
    "UVM_ERROR Count: " + NatToString(errors) + ", UVM_FATAL Count: " + NatToString(fatals)
  }

  // ---------------------------------------------------------------- makefile generation

  /** The makefile generation's cascade over the combined text of a run whose log could be
      read: hang markers and repetition mean TIMEOUT; success markers mean PASS; a UVM
      summary decides when it is clean and complete (PASS) or counts failures (FAIL with the
      counts); then failure markers (FAIL with the offending line); then completion markers
      (PASS); then a missing log (ERROR) or FAIL. `stuck` is the repetition rule's answer on
      `full` and `missing` whether the log file was absent. */
  function Cascade(e: Engine, full: string, stuck: bool, missing: bool, logPath: string): (v: Verdict)
    ensures v.status == Pass <==> v.message.None?
    ensures v.uvmErrors > 0 || v.uvmFatals > 0 ==>
              v.status == Fail && v.uvmErrors == SummaryErrors(e, full) &&
              v.uvmFatals == SummaryFatals(e, full) &&
              v.message == Some(CountMessage(v.uvmErrors, v.uvmFatals))
  {
    match FirstMatch(e, HangPatterns, full)
    case Some(p) => Verdict(Timeout, Some("Simulation hung or stuck - pattern: " + p.source), 0, 0)
    case None =>
      if stuck then
        Verdict(Timeout, Some("Excessive repetition detected - simulation likely stuck"), 0, 0)
      else
        Evidence(e, full, missing, logPath)
  }

  /** The rules of the cascade after the hang checks; they never report TIMEOUT. */
  function Evidence(e: Engine, full: string, missing: bool, logPath: string): (v: Verdict)
    ensures v.status != Timeout
    ensures v.status == Pass <==> v.message.None?
    ensures v.uvmErrors > 0 || v.uvmFatals > 0 ==>
              v.status == Fail && v.uvmErrors == SummaryErrors(e, full) &&
              v.uvmFatals == SummaryFatals(e, full) &&
              v.message == Some(CountMessage(v.uvmErrors, v.uvmFatals))
  {
    if AnyMatch(e, SuccessPatterns, full) then
      Verdict(Pass, None, 0, 0)
    else
      var summary := HasSummary(full);
      var errors := SummaryErrors(e, full);
      var fatals := SummaryFatals(e, full);
      if CleanSummary(e, full) then
        Verdict(Pass, None, errors, fatals)
      else if summary && (errors > 0 || fatals > 0) then
        Verdict(Fail, Some(CountMessage(errors, fatals)), errors, fatals)
      else match FirstMatch(e, FailurePatterns, full)
        case Some(p) =>
          var msg := FailureMessage(e, p, full);
          // the script appends the counts here when the summary has any; they are 0 by now
          var msg' := if summary && (errors > 0 || fatals > 0) then msg + " (" + CountMessage(errors, fatals) + ")" else msg;
          Verdict(Fail, Some(msg'), errors, fatals)
        case None =>
          if CompletionMarker(full) then Verdict(Pass, None, 0, 0)
          else if missing then Verdict(Error, Some("Make failed to create log file: " + logPath), 0, 0)
          else Verdict(Fail, Some("Simulation did not complete properly"), 0, 0)
  }

  /** The makefile generation's verdict: a log that cannot be read is an ERROR, any other
      run goes through the cascade. */
  function ClassifyRun(e: Engine, stdout: string, log: LogFile, logPath: string): (v: Verdict)
    ensures v.status == Pass <==> v.message.None?
    ensures v.uvmErrors > 0 || v.uvmFatals > 0 ==>
              v.status == Fail && v.uvmErrors == SummaryErrors(e, Combined(stdout, log)) &&
              v.uvmFatals == SummaryFatals(e, Combined(stdout, log)) &&
              v.message == Some(CountMessage(v.uvmErrors, v.uvmFatals))
  {
    match log
    case Unreadable(reason) => Verdict(Error, Some("Could not analyze results: " + reason), 0, 0)
    case _ =>
      var full := Combined(stdout, log);
      Cascade(e, full, Repetitive(full), log.Missing?, logPath)
  }

  lemma CascadeTimeout(e: Engine, full: string, stuck: bool, missing: bool, logPath: string)
    ensures Cascade(e, full, stuck, missing, logPath).status == Timeout <==>
              AnyMatch(e, HangPatterns, full) || stuck
  {
  }

  lemma EvidencePass(e: Engine, full: string, missing: bool, logPath: string)
    ensures Evidence(e, full, missing, logPath).status == Pass <==>
              AnyMatch(e, SuccessPatterns, full) || CleanSummary(e, full) ||
              (!SummaryReportsFailures(e, full) && !AnyMatch(e, FailurePatterns, full) && CompletionMarker(full))
  {
  }

  lemma EvidenceError(e: Engine, full: string, missing: bool, logPath: string)
    ensures Evidence(e, full, missing, logPath).status == Error <==>
              missing && !AnyMatch(e, SuccessPatterns, full) && !CleanSummary(e, full) &&
              !SummaryReportsFailures(e, full) && !AnyMatch(e, FailurePatterns, full) &&
              !CompletionMarker(full)
  {
  }

  lemma CascadePass(e: Engine, full: string, stuck: bool, missing: bool, logPath: string)
    ensures Cascade(e, full, stuck, missing, logPath).status == Pass <==>
              !AnyMatch(e, HangPatterns, full) && !stuck &&
              (AnyMatch(e, SuccessPatterns, full) || CleanSummary(e, full) ||
               (!SummaryReportsFailures(e, full) && !AnyMatch(e, FailurePatterns, full) && CompletionMarker(full)))
  {
    EvidencePass(e, full, missing, logPath);
  }

  lemma CascadeError(e: Engine, full: string, stuck: bool, missing: bool, logPath: string)
    ensures Cascade(e, full, stuck, missing, logPath).status == Error <==>
              missing && !AnyMatch(e, HangPatterns, full) && !stuck &&
              !AnyMatch(e, SuccessPatterns, full) && !CleanSummary(e, full) &&
              !SummaryReportsFailures(e, full) && !AnyMatch(e, FailurePatterns, full) &&
              !CompletionMarker(full)
  {
    EvidenceError(e, full, missing, logPath);
  }

  /** TIMEOUT exactly when the log could be read and a hang marker or the repetition rule
      fires; both are looked at before any pass marker. */
  lemma ClassifyRunTimeout(e: Engine, stdout: string, log: LogFile, logPath: string)
    ensures var full := Combined(stdout, log);
      ClassifyRun(e, stdout, log, logPath).status == Timeout <==> !log.Unreadable? && Hung(e, full)
  {
    var full := Combined(stdout, log);
    CascadeTimeout(e, full, Repetitive(full), log.Missing?, logPath);
  }

  /** PASS exactly when nothing hangs and a pass marker, a clean completed summary, or (with
      no failure evidence at all) a completion marker is found. */
  lemma ClassifyRunPass(e: Engine, stdout: string, log: LogFile, logPath: string)
    ensures var full := Combined(stdout, log);
      ClassifyRun(e, stdout, log, logPath).status == Pass <==>
        !log.Unreadable? && !Hung(e, full) &&
        (AnyMatch(e, SuccessPatterns, full) || CleanSummary(e, full) ||
         (!SummaryReportsFailures(e, full) && !AnyMatch(e, FailurePatterns, full) && CompletionMarker(full)))
  {
    var full := Combined(stdout, log);
    CascadePass(e, full, Repetitive(full), log.Missing?, logPath);
  }

  /** ERROR exactly when the log cannot be read, or it is missing and no earlier rule
      decided. */
  lemma ClassifyRunError(e: Engine, stdout: string, log: LogFile, logPath: string)
    ensures var full := Combined(stdout, log);
      ClassifyRun(e, stdout, log, logPath).status == Error <==>
        (log.Unreadable? ||
         (log.Missing? && !Hung(e, full) && !AnyMatch(e, SuccessPatterns, full) &&
          !CleanSummary(e, full) && !SummaryReportsFailures(e, full) &&
          !AnyMatch(e, FailurePatterns, full) && !CompletionMarker(full)))
  {
    var full := Combined(stdout, log);
    CascadeError(e, full, Repetitive(full), log.Missing?, logPath);
  }

  /** A failure found by pattern carries the pattern's first matching line (stripped, at most
      200 characters) or names the pattern, and no counts. */
  lemma ClassifyRunFailureLine(e: Engine, stdout: string, log: LogFile, logPath: string)
    requires var full := Combined(stdout, log);
      !log.Unreadable? && !Hung(e, full) && !AnyMatch(e, SuccessPatterns, full) &&
      !CleanSummary(e, full) && !SummaryReportsFailures(e, full) && AnyMatch(e, FailurePatterns, full)
    ensures var full := Combined(stdout, log);
      var v := ClassifyRun(e, stdout, log, logPath);
      v.status == Fail && v.uvmErrors == 0 && v.uvmFatals == 0 &&
      v.message == Some(FailureMessage(e, FirstMatch(e, FailurePatterns, full).value, full))
  {
  }

  // ---------------------------------------------------------------- v1 generation

  /** The v1 cascade: the same order without the counts, and a summary that counts failures
      does not by itself fail the run. */
  function CascadeV1(e: Engine, full: string, stuck: bool): (o: Outcome)
    ensures o.status == Pass <==> o.message.None?
    ensures o.status != Error
  {
    match FirstMatch(e, HangPatterns, full)
    case Some(p) => Outcome(Timeout, Some("Simulation hung or stuck - pattern: " + p.source))
    case None =>
      if stuck then
        Outcome(Timeout, Some("Excessive repetition detected - simulation likely stuck"))
      else if AnyMatch(e, SuccessPatterns, full) then
        Outcome(Pass, None)
      else if CleanSummary(e, full) then
        Outcome(Pass, None)
      else match FirstMatch(e, FailurePatterns, full)
        case Some(p) => Outcome(Fail, Some(FailureMessage(e, p, full)))
        case None =>
          if CompletionMarker(full) then Outcome(Pass, None)
          else Outcome(Fail, Some("Simulation did not complete properly"))
  }

  /** The v1 verdict: ERROR exactly when reading the log raised. */
  function ClassifyRunV1(e: Engine, stdout: string, log: LogFile): (o: Outcome)
    ensures o.status == Error <==> log.Unreadable?
    ensures o.status == Pass <==> o.message.None?
  {
    match log
    case Unreadable(reason) => Outcome(Error, Some("Could not analyze results: " + reason))
    case _ =>
      var full := Combined(stdout, log);
      CascadeV1(e, full, Repetitive(full))
  }

  lemma CascadeV1Pass(e: Engine, full: string, stuck: bool)
    ensures CascadeV1(e, full, stuck).status == Pass <==>
              !AnyMatch(e, HangPatterns, full) && !stuck &&
              (AnyMatch(e, SuccessPatterns, full) || CleanSummary(e, full) ||
               (!AnyMatch(e, FailurePatterns, full) && CompletionMarker(full)))
  {
  }

  /** v1: TIMEOUT exactly on a hang, PASS on a pass marker, a clean summary or (with no
      failure marker) a completion marker, and nonzero summary counts alone decide nothing. */
  lemma ClassifyRunV1Cases(e: Engine, stdout: string, log: LogFile)
    ensures var full := Combined(stdout, log); var o := ClassifyRunV1(e, stdout, log);
      (o.status == Timeout <==> !log.Unreadable? && Hung(e, full)) &&
      (o.status == Pass <==> !log.Unreadable? && !Hung(e, full) &&
                             (AnyMatch(e, SuccessPatterns, full) || CleanSummary(e, full) ||
                              (!AnyMatch(e, FailurePatterns, full) && CompletionMarker(full))))
  {
    var full := Combined(stdout, log);
    CascadeV1Pass(e, full, Repetitive(full));
  }

  /** The two cascades agree when the summary (if any) counts no failures and the log exists. */
  lemma CascadesAgree(e: Engine, full: string, stuck: bool, logPath: string)
    requires !SummaryReportsFailures(e, full)
    ensures CascadeV1(e, full, stuck).status == Cascade(e, full, stuck, false, logPath).status
    ensures CascadeV1(e, full, stuck).message == Cascade(e, full, stuck, false, logPath).message
  {
  }

  /** The two generations agree on every run whose log exists and whose summary (if any)
      counts no failures. On a missing log, or a summary counting failures, they can differ:
      v1 may still answer PASS from its completion markers where the makefile generation
      answers FAIL with the counts. */
  lemma GenerationsAgree(e: Engine, stdout: string, log: LogFile, logPath: string)
    requires !log.Missing? && !SummaryReportsFailures(e, Combined(stdout, log))
    ensures ClassifyRunV1(e, stdout, log).status == ClassifyRun(e, stdout, log, logPath).status
    ensures ClassifyRunV1(e, stdout, log).message == ClassifyRun(e, stdout, log, logPath).message
  {
    if !log.Unreadable? {
      var full := Combined(stdout, log);
      CascadesAgree(e, full, Repetitive(full), logPath);
    }
  }

  /** The v1 timeout message: the last 10000 characters of the log decide between an
      Ultrasim/Ultrathink timeout (case-insensitive), a hang, and the plain timeout. */
  function TimeoutMessageV1(timeout: int, log: LogFile): (msg: string)
    ensures log.Present? ==>
      var tail := TakeLast(log.content, 10000);
      var ultra := Contains(ToLower(tail), "ultrasim") || Contains(ToLower(tail), "ultrathink");
      var hung := Contains(tail, "excessive repetition") || Contains(tail, "simulation stuck");
      (ultra ==> msg == "Ultrasim/Ultrathink timeout detected after " + IntToString(timeout) + " seconds") &&
      (!ultra && hung ==> msg == "Simulation hung - excessive repetition detected") &&
      (!ultra && !hung ==> msg == "Test timed out after " + IntToString(timeout) + " seconds")
    ensures !log.Present? ==> msg == "Test timed out after " + IntToString(timeout) + " seconds"
  {
    var plain := "Test timed out after " + IntToString(timeout) + " seconds";
    match log
    case Present(content) =>
      var tail := TakeLast(content, 10000);
      if Contains(ToLower(tail), "ultrasim") || Contains(ToLower(tail), "ultrathink") then
        "Ultrasim/Ultrathink timeout detected after " + IntToString(timeout) + " seconds"
      else if Contains(tail, "excessive repetition") || Contains(tail, "simulation stuck") then
        "Simulation hung - excessive repetition detected"
      else
        plain
    case _ => plain
  }

  /** Only the last 10000 characters of the log matter to the timeout message. */
  lemma TimeoutMessageReadsTail(timeout: int, head: string, tail: string)
    requires |tail| >= 10000
    ensures TimeoutMessageV1(timeout, Present(head + tail)) == TimeoutMessageV1(timeout, Present(tail))
  {
    assert TakeLast(head + tail, 10000) == TakeLast(tail, 10000);
  }

  /** An "ultrasim" or "ultrathink" in any letter case within the last 10000 characters wins
      over the hang phrases, whatever else the tail holds. */
  lemma UltraTimeoutFirst(timeout: int, content: string, w: string)
    requires Contains(TakeLast(content, 10000), w)
    requires ToLower(w) == "ultrasim" || ToLower(w) == "ultrathink"
    ensures TimeoutMessageV1(timeout, Present(content)) ==
            "Ultrasim/Ultrathink timeout detected after " + IntToString(timeout) + " seconds"
  {
    var tail := TakeLast(content, 10000);
    var i := ContainsWitness(tail, w);
    ToLowerSlice(tail, i, i + |w|);
    ContainsAt(ToLower(tail), ToLower(w), i);
  }

  /** A short log with no 'r' in either case, no 'x' and no lower-case 's' gives the plain
      message. */
  lemma PlainTimeout(timeout: int, content: string)
    requires |content| <= 10000 && 'r' !in content && 'R' !in content && 'x' !in content && 's' !in content
    ensures TimeoutMessageV1(timeout, Present(content)) ==
            "Test timed out after " + IntToString(timeout) + " seconds"
  {
    assert TakeLast(content, 10000) == content;
    ToLowerAbsent(content, 'r');
    AbsentChar(ToLower(content), "ultrasim", 'r');
    AbsentChar(ToLower(content), "ultrathink", 'r');
    AbsentChar(content, "excessive repetition", 'x');
    AbsentChar(content, "simulation stuck", 's');
  }

  /** The hang phrases are matched case-sensitively: "Simulation Stuck" alone gives the plain
      timeout message. */
  lemma HangPhraseCaseSensitive(timeout: int)
    ensures TimeoutMessageV1(timeout, Present("Simulation Stuck")) ==
            "Test timed out after " + IntToString(timeout) + " seconds"
  {
    var log := "Simulation Stuck";
    assert 'r' !in log && 'R' !in log && 'x' !in log && 's' !in log;
    PlainTimeout(timeout, log);
  }

  // ---------------------------------------------------------------- run-folder generation

  /** The run-folder verdict: pass markers first (anywhere, case-insensitive), then summary
      counts, then fail markers, then the log's absence or shortness. It never reports ERROR
      and only the counts path carries counts. */
  function ClassifyRunFolder(e: Engine, stdout: string, log: LogFile): (v: Verdict)
    ensures v.status == Pass || v.status == Fail
    ensures var full := stdout + "\n" + (if log.Present? then log.content else "");
      (v.status == Pass <==> AnyMatch(e, RunFolderPassPatterns, full)) &&
      (v.uvmErrors > 0 || v.uvmFatals > 0 <==>
         !AnyMatch(e, RunFolderPassPatterns, full) &&
         (CountOf(e, ErrorCountPattern, full) > 0 || CountOf(e, FatalCountPattern, full) > 0))
    ensures v.status == Pass <==> v.message.None?
  {
    // an unreadable log is read as empty text
    var content := if log.Present? then log.content else "";
    var full := stdout + "\n" + content;
    if AnyMatch(e, RunFolderPassPatterns, full) then Verdict(Pass, None, 0, 0)
    else
      var errors := CountOf(e, ErrorCountPattern, full);
      var fatals := CountOf(e, FatalCountPattern, full);
      if errors > 0 || fatals > 0 then
        Verdict(Fail, Some("UVM_ERROR: " + NatToString(errors) + ", UVM_FATAL: " + NatToString(fatals)), errors, fatals)
      else if AnyMatch(e, RunFolderFailPatterns, full) then
        Verdict(Fail, Some("Test failed based on log pattern"), 0, 0)
      else if log.Missing? then
        Verdict(Fail, Some("Log file not found"), 0, 0)
      else if |content| < 100 then
        Verdict(Fail, Some("Log file too short - simulation may have crashed"), 0, 0)
      else
        Verdict(Fail, Some("No pass pattern found in log"), 0, 0)
  }

  // ---------------------------------------------------------------- a local run's result

  /** How the simulation process ended: it exited with its console output, it overran the
      time limit, or starting it raised. */
  datatype ProcessEnd = Exited(stdout: string) | TimedOut | Raised(reason: string)

  /** The makefile generation's verdict on a local run. */
  function RunVerdict(e: Engine, end: ProcessEnd, log: LogFile, logPath: string, timeout: int): (v: Verdict)
    ensures end.TimedOut? ==> v == Verdict(Timeout, Some("Test timed out after " + IntToString(timeout) + " seconds"), 0, 0)
    ensures end.Raised? ==> v.status == Error && v.message == Some("Execution error: " + end.reason)
    ensures end.Exited? ==> v == ClassifyRun(e, end.stdout, log, logPath)
  {
    match end
    case Exited(stdout) => ClassifyRun(e, stdout, log, logPath)
    case TimedOut => Verdict(Timeout, Some("Test timed out after " + IntToString(timeout) + " seconds"), 0, 0)
    case Raised(reason) => Verdict(Error, Some("Execution error: " + reason), 0, 0)
  }

  /** The v1 generation's verdict on a local run; its timeout message reads the log's tail. */
  function RunOutcomeV1(e: Engine, end: ProcessEnd, log: LogFile, timeout: int): (o: Outcome)
    ensures end.TimedOut? ==> o == Outcome(Timeout, Some(TimeoutMessageV1(timeout, log)))
    ensures end.Raised? ==> o == Outcome(Error, Some("Execution error: " + end.reason))
    ensures end.Exited? ==> o == ClassifyRunV1(e, end.stdout, log)
  {
    match end
    case Exited(stdout) => ClassifyRunV1(e, stdout, log)
    case TimedOut => Outcome(Timeout, Some(TimeoutMessageV1(timeout, log)))
    case Raised(reason) => Outcome(Error, Some("Execution error: " + reason))
  }

  /** The run-folder generation's verdict on a local run. */
  function RunFolderVerdict(e: Engine, end: ProcessEnd, log: LogFile, timeout: int): (v: Verdict)
    ensures end.TimedOut? ==> v == Verdict(Timeout, Some("Timeout after " + IntToString(timeout) + "s"), 0, 0)
    ensures end.Raised? ==> v == Verdict(Error, Some(end.reason), 0, 0)
    ensures end.Exited? ==> v == ClassifyRunFolder(e, end.stdout, log)
  {
    match end
    case Exited(stdout) => ClassifyRunFolder(e, stdout, log)
    case TimedOut => Verdict(Timeout, Some("Timeout after " + IntToString(timeout) + "s"), 0, 0)
    case Raised(reason) => Verdict(Error, Some(reason), 0, 0)
  }
}
