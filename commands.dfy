/** The commands the runners hand to `make` and to the batch scheduler, the base-name rule of
    the makefile generation, and the argument checks of its command line. No process is run:
    a command is the argument list, or the script line, that would be run. */
module Commands {
  import opened Common
  import opened Text
  import opened Session
  import TestList
  import Slots

  // ---------------------------------------------------------------- base test names

  /** The position of the last `c` in `s`, if any. */
  function LastIndexOf(s: string, c: char): (r: Option<nat>)
    ensures r.None? <==> c !in s
    ensures r.Some? ==> r.value < |s| && s[r.value] == c && c !in s[r.value + 1..]
    decreases |s|
  {
    if s == [] then None
    else
      assert s == s[..|s| - 1] + [s[|s| - 1]];
      if s[|s| - 1] == c then Some(|s| - 1)
      else
        var r := LastIndexOf(s[..|s| - 1], c);
        assert r.Some? ==> s[r.value + 1..] == s[..|s| - 1][r.value + 1..] + [s[|s| - 1]];
        r
  }

  /** What `(\d+)$` accepts after the underscore: one or more digits, optionally followed by
      the single trailing newline `$` allows. */
  predicate DigitTail(t: string) {
    (t != [] && AllDigits(t)) ||
    (|t| >= 2 && t[|t| - 1] == '\n' && AllDigits(t[..|t| - 1]))
  }

  /** `^(.+)_(\d+)$` matches `name` with the underscore at `i`: a non-empty prefix without a
      newline (what `.+` accepts), the underscore, then a digit tail. */
  predicate Splits(name: string, i: int) {
    1 <= i < |name| && name[i] == '_' && '\n' !in name[..i] && DigitTail(name[i + 1..])
  }

  /** A match can only split at the last underscore, since a digit tail has none. */
  lemma SplitsAtLast(name: string, j: nat)
    requires j < |name| && name[j] == '_' && '_' !in name[j + 1..]
    ensures forall i | Splits(name, i) :: i == j
  {
    forall i | Splits(name, i)
      ensures i == j
    {
      var tail := name[i + 1..];
      assert '_' !in tail by {
        forall k | 0 <= k < |tail|
          ensures tail[k] != '_'
        {
          if !(tail != [] && AllDigits(tail)) {
            assert k == |tail| - 1 || tail[..|tail| - 1][k] == tail[k];
          }
        }
      }
    }
  }

  /** `_extract_base_test_name`: a name that `^(.+)_(\d+)$` matches loses its `_<digits>`
      suffix; any other name comes back unchanged. */
  function BaseTestName(name: string): (base: string)
    ensures forall i | Splits(name, i) :: base == name[..i]
    ensures (forall i :: !Splits(name, i)) ==> base == name
  {
    match LastIndexOf(name, '_')
    case None => name
    case Some(j) =>
      SplitsAtLast(name, j);
      if Splits(name, j) then name[..j] else name
  }

  /** The base name is always a prefix of the name, and either all of it or all of it but an
      underscore and a digit tail. */
  lemma BaseNamePrefix(name: string)
    ensures StartsWith(name, BaseTestName(name))
    ensures BaseTestName(name) == name ||
            (|BaseTestName(name)| < |name| && name[|BaseTestName(name)|] == '_' &&
             DigitTail(name[|BaseTestName(name)| + 1..]))
  {
    if i :| Splits(name, i) {
      assert BaseTestName(name) == name[..i];
    }
  }

  /** Round trip with the loader: the base name of repetition `k` of a listed test without a
      newline is the listed name. */
  lemma {:induction false} BaseOfRunName(name: string, k: nat)
    requires name != [] && '\n' !in name
    ensures BaseTestName(TestList.RunName(name, k)) == name
  {
    var run := TestList.RunName(name, k);
    var i := |name|;
    assert run[..i] == name;
    assert run[i + 1..] == NatToString(k);
    assert Splits(run, i);
  }

  // ---------------------------------------------------------------- make variables

  /** A `VAR=value` argument. */
  function Assign(key: string, value: string): string {
    key + "=" + value
  }

  /** How make reads its command-line arguments: each one holding `=` assigns the value after
      the first `=` to the variable before it, and a later assignment overrides an earlier one. */
  function Variables(args: seq<string>): map<string, string>
    decreases |args|
  {
    if args == [] then map[]
    else
      var a := args[|args| - 1];
      var earlier := Variables(args[..|args| - 1]);
      if '=' in a then earlier[a[..IndexOf(a, '=')] := a[IndexOf(a, '=') + 1..]] else earlier
  }

  lemma VariablesAppend(args: seq<string>, key: string, value: string)
    requires '=' !in key
    ensures Variables(args + [Assign(key, value)]) == Variables(args)[key := value]
  {
    var a := Assign(key, value);
    assert (args + [a])[..|args|] == args;
    assert a[|key|] == '=' && a[..|key|] == key;
    IndexOfIs(a, '=', |key|);
    assert a[|key| + 1..] == value;
  }

  /** `random.randint(1, 2**31 - 1)` mixed with the microsecond clock and the name's hash,
      each cut to 31 bits with `& 0x7FFFFFFF` (Python's `&` on a negative hash takes its
      two's-complement bits, which is the Euclidean remainder). */
  function GeneratedSeed(random: int, micros: int, hash: int): (seed: nat)
    ensures seed < 0x8000_0000
  {
    var r := (random % 0x8000_0000) as bv31;
    var t := (micros % 0x8000_0000) as bv31;
    var h := (hash % 0x8000_0000) as bv31;
    (r ^ t ^ h) as nat
  }

  /** `make_vars` of `_run_single_test`, in insertion order: the test, the log file, the run
      folder and the seed; then FSDB dumping, coverage and extra options when enabled. The test
      is the base name recomputed from the run name (see `IntendedMakeArgs`). */
  function MakeArgs(spec: TestList.TestSpec, runDir: string, seed: int, fsdb: bool, coverage: bool): seq<string> {
    MakeArgsFor(BaseTestName(spec.name), spec, runDir, seed, fsdb, coverage)
  }

  /** The same variables with the loader's own base name as the test. */
  function IntendedMakeArgs(spec: TestList.TestSpec, runDir: string, seed: int, fsdb: bool, coverage: bool): seq<string> {
    MakeArgsFor(spec.baseName, spec, runDir, seed, fsdb, coverage)
  }

  function MakeArgsFor(test: string, spec: TestList.TestSpec, runDir: string, seed: int, fsdb: bool, coverage: bool): seq<string> {
    var fixed := [Assign("TEST_NAME", test), Assign("LOG_FILE", spec.name + ".log"),
                  Assign("RUN_DIR", runDir), Assign("SEED", IntToString(seed))];
    var dumped := if fsdb then fixed + [Assign("FSDB_DUMP", "1")] else fixed;
    var covered := if coverage then dumped + [Assign("COVERAGE", "1"), Assign("COV_DIR", spec.name + ".vdb")] else dumped;
    if Given(spec.commandAdd) then covered + [Assign("COMMAND_ADD", spec.commandAdd.value)] else covered
  }

  lemma FixedVariables(test: string, log: string, dir: string, seed: string)
    ensures Variables([Assign("TEST_NAME", test), Assign("LOG_FILE", log), Assign("RUN_DIR", dir),
                       Assign("SEED", seed)])
            == map["TEST_NAME" := test, "LOG_FILE" := log, "RUN_DIR" := dir, "SEED" := seed]
  {
    var a1, a2 := Assign("TEST_NAME", test), Assign("LOG_FILE", log);
    var a3, a4 := Assign("RUN_DIR", dir), Assign("SEED", seed);
    VariablesAppend([], "TEST_NAME", test);
    assert [] + [a1] == [a1];
    VariablesAppend([a1], "LOG_FILE", log);
    assert [a1] + [a2] == [a1, a2];
    VariablesAppend([a1, a2], "RUN_DIR", dir);
    assert [a1, a2] + [a3] == [a1, a2, a3];
    VariablesAppend([a1, a2, a3], "SEED", seed);
    assert [a1, a2, a3] + [a4] == [a1, a2, a3, a4];
  }

  /** The variables make sees, as a map built in the order `_run_single_test` inserts them. */
  lemma MakeVariables(test: string, spec: TestList.TestSpec, runDir: string, seed: int, fsdb: bool, coverage: bool)
      returns (fixed: map<string, string>, vars: map<string, string>)
    ensures fixed == map["TEST_NAME" := test, "LOG_FILE" := spec.name + ".log", "RUN_DIR" := runDir,
                         "SEED" := IntToString(seed)]
    ensures vars == Variables(MakeArgsFor(test, spec, runDir, seed, fsdb, coverage))
    ensures var dumped := if fsdb then fixed["FSDB_DUMP" := "1"] else fixed;
      var covered := if coverage then dumped["COVERAGE" := "1"]["COV_DIR" := spec.name + ".vdb"] else dumped;
      vars == if Given(spec.commandAdd) then covered["COMMAND_ADD" := spec.commandAdd.value] else covered
  {
    var args := [Assign("TEST_NAME", test), Assign("LOG_FILE", spec.name + ".log"),
                 Assign("RUN_DIR", runDir), Assign("SEED", IntToString(seed))];
    FixedVariables(test, spec.name + ".log", runDir, IntToString(seed));
    fixed := Variables(args);
    var dumped := if fsdb then args + [Assign("FSDB_DUMP", "1")] else args;
    DumpedVariables(args, fsdb);
    var covered := if coverage then dumped + [Assign("COVERAGE", "1"), Assign("COV_DIR", spec.name + ".vdb")] else dumped;
    CoveredVariables(dumped, coverage, spec.name + ".vdb");
    var extra := if Given(spec.commandAdd) then covered + [Assign("COMMAND_ADD", spec.commandAdd.value)] else covered;
    ExtraVariables(covered, Given(spec.commandAdd), if Given(spec.commandAdd) then spec.commandAdd.value else "");
    assert extra == MakeArgsFor(test, spec, runDir, seed, fsdb, coverage);
    vars := Variables(extra);
  }

  /** `FSDB_DUMP=1` when dumping is on. */
  lemma DumpedVariables(args: seq<string>, fsdb: bool)
    ensures Variables(if fsdb then args + [Assign("FSDB_DUMP", "1")] else args) ==
            if fsdb then Variables(args)["FSDB_DUMP" := "1"] else Variables(args)
  {
    if fsdb {
      assert '=' !in "FSDB_DUMP";
      VariablesAppend(args, "FSDB_DUMP", "1");
    }
  }

  /** `COVERAGE=1` and then `COV_DIR=<dir>` when coverage is on. */
  lemma CoveredVariables(args: seq<string>, coverage: bool, cov: string)
    ensures Variables(if coverage then args + [Assign("COVERAGE", "1"), Assign("COV_DIR", cov)] else args) ==
            if coverage then Variables(args)["COVERAGE" := "1"]["COV_DIR" := cov] else Variables(args)
  {
    if coverage {
      var a1, a2 := Assign("COVERAGE", "1"), Assign("COV_DIR", cov);
      assert '=' !in "COVERAGE" && '=' !in "COV_DIR";
      VariablesAppend(args, "COVERAGE", "1");
      VariablesAppend(args + [a1], "COV_DIR", cov);
      assert args + [a1] + [a2] == args + [a1, a2];
    }
  }

  /** `COMMAND_ADD=<options>` when extra options are given. */
  lemma ExtraVariables(args: seq<string>, given: bool, value: string)
    ensures Variables(if given then args + [Assign("COMMAND_ADD", value)] else args) ==
            if given then Variables(args)["COMMAND_ADD" := value] else Variables(args)
  {
    if given {
      assert '=' !in "COMMAND_ADD";
      VariablesAppend(args, "COMMAND_ADD", value);
    }
  }

  /** The variable names `_run_single_test` uses are pairwise distinct. */
  lemma KeysDistinct()
    ensures var keys := ["TEST_NAME", "LOG_FILE", "RUN_DIR", "SEED", "FSDB_DUMP", "COVERAGE", "COV_DIR", "COMMAND_ADD"];
      forall i, j | 0 <= i < j < |keys| :: keys[i] != keys[j]
  {
    var keys := ["TEST_NAME", "LOG_FILE", "RUN_DIR", "SEED", "FSDB_DUMP", "COVERAGE", "COV_DIR", "COMMAND_ADD"];
    forall i, j | 0 <= i < j < |keys|
      ensures keys[i] != keys[j]
    {
      assert |keys[i]| != |keys[j]| || keys[i][0] != keys[j][0];
    }
  }

  /** The map `_run_single_test` builds, read back key by key. */
  lemma MapReads(fixed: map<string, string>, vars: map<string, string>, test: string, log: string, dir: string,
                 seed: string, fsdb: bool, coverage: bool, cov: string, extra: Option<string>)
    requires fixed == map["TEST_NAME" := test, "LOG_FILE" := log, "RUN_DIR" := dir, "SEED" := seed]
    requires var dumped := if fsdb then fixed["FSDB_DUMP" := "1"] else fixed;
      var covered := if coverage then dumped["COVERAGE" := "1"]["COV_DIR" := cov] else dumped;
      vars == if extra.Some? then covered["COMMAND_ADD" := extra.value] else covered
    ensures "TEST_NAME" in vars && vars["TEST_NAME"] == test
    ensures "LOG_FILE" in vars && vars["LOG_FILE"] == log
    ensures "RUN_DIR" in vars && vars["RUN_DIR"] == dir
    ensures "SEED" in vars && vars["SEED"] == seed
    ensures ("FSDB_DUMP" in vars <==> fsdb) && ("COVERAGE" in vars <==> coverage)
    ensures coverage ==> "COV_DIR" in vars && vars["COV_DIR"] == cov
    ensures ("COMMAND_ADD" in vars <==> extra.Some?) && (extra.Some? ==> vars["COMMAND_ADD"] == extra.value)
  {
    KeysDistinct();
    var keys := ["TEST_NAME", "LOG_FILE", "RUN_DIR", "SEED", "FSDB_DUMP", "COVERAGE", "COV_DIR", "COMMAND_ADD"];
    assert keys[0] == "TEST_NAME" && keys[1] == "LOG_FILE" && keys[2] == "RUN_DIR" && keys[3] == "SEED";
    assert keys[4] == "FSDB_DUMP" && keys[5] == "COVERAGE" && keys[6] == "COV_DIR" && keys[7] == "COMMAND_ADD";
  }

  /** What make sees: the test, the run's own log and folder, the seed (read back as the same
      integer), and the optional variables exactly when their options are on. */
  lemma MakeReadsBack(test: string, spec: TestList.TestSpec, runDir: string, seed: int, fsdb: bool, coverage: bool)
    ensures var vars := Variables(MakeArgsFor(test, spec, runDir, seed, fsdb, coverage));
      && "TEST_NAME" in vars && vars["TEST_NAME"] == test
      && "LOG_FILE" in vars && vars["LOG_FILE"] == spec.name + ".log"
      && "RUN_DIR" in vars && vars["RUN_DIR"] == runDir
      && "SEED" in vars && ParseInt(vars["SEED"]) == Some(seed)
      && ("FSDB_DUMP" in vars <==> fsdb)
      && ("COVERAGE" in vars <==> coverage)
      && (coverage ==> "COV_DIR" in vars && vars["COV_DIR"] == spec.name + ".vdb")
      && ("COMMAND_ADD" in vars <==> Given(spec.commandAdd))
      && (Given(spec.commandAdd) ==> vars["COMMAND_ADD"] == spec.commandAdd.value)
  {
    var fixed, vars := MakeVariables(test, spec, runDir, seed, fsdb, coverage);
    var extra := if Given(spec.commandAdd) then Some(spec.commandAdd.value) else None;
    MapReads(fixed, vars, test, spec.name + ".log", runDir, IntToString(seed), fsdb, coverage, spec.name + ".vdb", extra);
    ParseIntOfIntToString(seed);
  }

  /** The corrected command names the listed test for every loaded run. */
  lemma IntendedTestName(spec: TestList.TestSpec, runDir: string, seed: int, fsdb: bool, coverage: bool)
    ensures var vars := Variables(IntendedMakeArgs(spec, runDir, seed, fsdb, coverage));
      "TEST_NAME" in vars && vars["TEST_NAME"] == spec.baseName
  {
    MakeReadsBack(spec.baseName, spec, runDir, seed, fsdb, coverage);
  }

  /** The command as written names the listed test for every repetition of a test listed with
      `run_cnt` of 2 or more. */
  lemma RepeatedRunsNamed(name: string, p: TestList.Params, k: nat, runDir: string, seed: int, fsdb: bool, coverage: bool)
    requires name != [] && '\n' !in name && p.runCount > 1 && k < p.runCount
    ensures var spec := TestList.Expand(name, p)[k];
      var vars := Variables(MakeArgs(spec, runDir, seed, fsdb, coverage));
      "TEST_NAME" in vars && vars["TEST_NAME"] == spec.baseName
  {
    var spec := TestList.Expand(name, p)[k];
    assert spec == TestList.TestSpec(TestList.RunName(name, k + 1), name, k + 1, p.seed, p.commandAdd);
    BaseOfRunName(name, k + 1);
    MakeReadsBack(name, spec, runDir, seed, fsdb, coverage);
  }

  /** But a test listed once under a name ending in `_<digits>` runs the UVM test without
      that suffix: `x_050` with no `run_cnt` runs test `x`. */
  lemma SingleRunLosesSuffix(prefix: string, digits: string, p: TestList.Params, runDir: string, seed: int, fsdb: bool, coverage: bool)
    requires prefix != [] && '\n' !in prefix && digits != [] && AllDigits(digits) && p.runCount <= 1
    ensures var spec := TestList.Expand(prefix + "_" + digits, p)[0];
      && spec.baseName == prefix + "_" + digits
      && var vars := Variables(MakeArgs(spec, runDir, seed, fsdb, coverage));
         "TEST_NAME" in vars && vars["TEST_NAME"] == prefix
  {
    var name := prefix + "_" + digits;
    var spec := TestList.Expand(name, p)[0];
    assert spec == TestList.TestSpec(name, name, 1, p.seed, p.commandAdd);
    assert name[..|prefix|] == prefix && name[|prefix| + 1..] == digits;
    assert Splits(name, |prefix|);
    MakeReadsBack(prefix, spec, runDir, seed, fsdb, coverage);
  }

  // ---------------------------------------------------------------- run-folder commands

  /** The run-folder generation's local command: `make -f Makefile sim test=<base name>`, then
      the seed and extra options when set, then the FSDB and coverage switches. */
  function LocalCommand(r: TestList.RunSpec, fsdb: bool, coverage: bool): seq<string> {
    ["make", "-f", "Makefile", "sim", "test=" + r.baseName]
    + (if Given(r.seed) then ["seed=" + r.seed.value] else [])
    + (if Given(r.commandAdd) then ["command_add=" + r.commandAdd.value] else [])
    + (if fsdb then ["FSDB_DUMP=1"] else [])
    + (if coverage then ["COVERAGE=1"] else [])
  }

  /** The log the run leaves in its folder: named after the base name, not the run name. */
  function LogName(r: TestList.RunSpec): string {
    r.baseName + ".log"
  }

  /** All repetitions of one listed test run the same command and expect the same log name;
      only their folders differ. */
  lemma RepetitionsAlike(t: TestList.ListedTest, first: nat, i: nat, j: nat, fsdb: bool, coverage: bool)
    requires i < |TestList.ExpandListed(t, first)| && j < |TestList.ExpandListed(t, first)|
    ensures var runs := TestList.ExpandListed(t, first);
      && LocalCommand(runs[i], fsdb, coverage) == LocalCommand(runs[j], fsdb, coverage)
      && LogName(runs[i]) == LogName(runs[j])
      && (i != j ==> runs[i].folderId != runs[j].folderId)
  {
  }

  /** `"<v>"`: a value in double quotes. */
  function Quoted(v: string): string {
    "\"" + v + "\""
  }

  /** ` <word>`: one more word of a shell command line. */
  function Arg(w: string): string {
    " " + w
  }

  /** The command line of the batch job script: the local command with the extra options
      wrapped in double quotes. */
  function ScriptCommand(r: TestList.RunSpec, fsdb: bool, coverage: bool): string {
    "make" + Arg("-f") + Arg("Makefile") + Arg("sim") + Arg("test=" + r.baseName)
    + (if Given(r.seed) then Arg("seed=" + r.seed.value) else "")
    + (if Given(r.commandAdd) then Arg("command_add=" + Quoted(r.commandAdd.value)) else "")
    + (if fsdb then Arg("FSDB_DUMP=1") else "")
    + (if coverage then Arg("COVERAGE=1") else "")
  }

  // A shell's word splitting and quote removal, for lines of plain words and double-quoted
  // parts: the partner that reads a script line back as an argument list.

  datatype Lexer = Lexer(words: seq<string>, word: string, inWord: bool, quoted: bool)

  function Step(l: Lexer, c: char): Lexer {
    if l.quoted then
      if c == '"' then l.(quoted := false) else l.(word := l.word + [c])
    else if c == ' ' then
      if l.inWord then Lexer(l.words + [l.word], "", false, false) else l
    else if c == '"' then l.(inWord := true, quoted := true)
    else l.(word := l.word + [c], inWord := true)
  }

  function Scan(l: Lexer, s: string): Lexer
    decreases |s|
  {
    if s == [] then l else Step(Scan(l, s[..|s| - 1]), s[|s| - 1])
  }

  function ShellWords(s: string): seq<string> {
    var l := Scan(Lexer([], "", false, false), s);
    if l.inWord then l.words + [l.word] else l.words
  }

  /** No blank and no double quote. */
  predicate Plain(w: string) {
    ' ' !in w && '"' !in w
  }

  lemma PlainByChars(w: string)
    requires forall k | 0 <= k < |w| :: w[k] != ' ' && w[k] != '"'
    ensures Plain(w)
  {
  }

  /** The lexer in the middle of the last of `ws`, the others complete. */
  function Reading(ws: seq<string>): Lexer
    requires ws != []
  {
    Lexer(ws[..|ws| - 1], ws[|ws| - 1], true, false)
  }

  lemma {:induction false} ScanConcat(l: Lexer, a: string, b: string)
    ensures Scan(l, a + b) == Scan(Scan(l, a), b)
    decreases |b|
  {
    if b == [] {
      assert a + b == a;
    } else {
      var b' := b[..|b| - 1];
      assert (a + b)[..|a + b| - 1] == a + b';
      ScanConcat(l, a, b');
    }
  }

  lemma {:induction false} ScanPlain(l: Lexer, w: string)
    requires !l.quoted && Plain(w) && w != []
    ensures Scan(l, w) == l.(word := l.word + w, inWord := true)
    decreases |w|
  {
    var w' := w[..|w| - 1];
    if w' == [] {
      assert w == [w[0]];
      assert Scan(l, w') == l;
    } else {
      ScanPlain(l, w');
      assert l.word + w' + [w[|w| - 1]] == l.word + w;
    }
  }

  lemma {:induction false} ScanQuoted(l: Lexer, w: string)
    requires l.quoted && '"' !in w
    ensures Scan(l, w) == l.(word := l.word + w)
    decreases |w|
  {
    if w == [] {
      assert l.word + w == l.word;
    } else {
      var w' := w[..|w| - 1];
      ScanQuoted(l, w');
      assert l.word + w' + [w[|w| - 1]] == l.word + w;
    }
  }

  /** A blank and a plain word end the current word and start that one. */
  lemma ArgStep(ws: seq<string>, a: string)
    requires ws != [] && Plain(a) && a != []
    ensures Scan(Reading(ws), Arg(a)) == Reading(ws + [a])
  {
    var l := Reading(ws);
    ScanConcat(l, " ", a);
    assert ws[..|ws| - 1] + [ws[|ws| - 1]] == ws;
    assert Scan(l, " ") == Step(l, ' ') == Lexer(ws, "", false, false);
    ScanPlain(Lexer(ws, "", false, false), a);
    assert "" + a == a;
    assert (ws + [a])[..|ws|] == ws;
  }

  /** A blank, a plain key and a double-quoted value give one word: the key and the value. */
  lemma QuotedStep(ws: seq<string>, key: string, v: string)
    requires ws != [] && Plain(key) && key != [] && '"' !in v
    ensures Scan(Reading(ws), Arg(key + Quoted(v))) == Reading(ws + [key + v])
  {
    var l := Reading(ws);
    var open := Lexer(ws, key, true, true);
    assert Arg(key + Quoted(v)) == " " + key + "\"" + v + "\"";
    ScanConcat(l, " " + key + "\"" + v, "\"");
    ScanConcat(l, " " + key + "\"", v);
    ScanConcat(l, " " + key, "\"");
    ScanConcat(l, " ", key);
    assert ws[..|ws| - 1] + [ws[|ws| - 1]] == ws;
    assert Scan(l, " ") == Step(l, ' ') == Lexer(ws, "", false, false);
    ScanPlain(Lexer(ws, "", false, false), key);
    assert "" + key == key;
    assert Scan(Lexer(ws, key, true, false), "\"") == open;
    ScanQuoted(open, v);
    assert Scan(open.(word := key + v), "\"") == Step(open.(word := key + v), '"');
    assert (ws + [key + v])[..|ws|] == ws;
  }

  /** Reading one more piece after a prefix already read. */
  lemma Extend(s: string, ws: seq<string>, t: string, a: string)
    requires ws != [] && Scan(Lexer([], "", false, false), s) == Reading(ws)
    requires Scan(Reading(ws), t) == Reading(ws + [a])
    ensures Scan(Lexer([], "", false, false), s + t) == Reading(ws + [a])
  {
    ScanConcat(Lexer([], "", false, false), s, t);
  }

  /** A line read so far, then a blank and a plain word. */
  lemma ReadsMore(s: string, ws: seq<string>, a: string)
    requires ws != [] && Scan(Lexer([], "", false, false), s) == Reading(ws)
    requires Plain(a) && a != []
    ensures Scan(Lexer([], "", false, false), s + Arg(a)) == Reading(ws + [a])
  {
    ArgStep(ws, a);
    Extend(s, ws, Arg(a), a);
  }

  lemma HeadReads(w1: string, w2: string, w3: string, w4: string, w5: string)
    requires Plain(w1) && Plain(w2) && Plain(w3) && Plain(w4) && Plain(w5)
    requires w1 != [] && w2 != [] && w3 != [] && w4 != [] && w5 != []
    ensures Scan(Lexer([], "", false, false), w1 + Arg(w2) + Arg(w3) + Arg(w4) + Arg(w5))
            == Reading([w1, w2, w3, w4, w5])
  {
    HeadReadsFour(w1, w2, w3, w4);
    ReadsMore(w1 + Arg(w2) + Arg(w3) + Arg(w4), [w1, w2, w3, w4], w5);
    assert [w1, w2, w3, w4] + [w5] == [w1, w2, w3, w4, w5];
  }

  lemma HeadReadsFour(w1: string, w2: string, w3: string, w4: string)
    requires Plain(w1) && Plain(w2) && Plain(w3) && Plain(w4)
    requires w1 != [] && w2 != [] && w3 != [] && w4 != []
    ensures Scan(Lexer([], "", false, false), w1 + Arg(w2) + Arg(w3) + Arg(w4)) == Reading([w1, w2, w3, w4])
  {
    HeadReadsThree(w1, w2, w3);
    ReadsMore(w1 + Arg(w2) + Arg(w3), [w1, w2, w3], w4);
    assert [w1, w2, w3] + [w4] == [w1, w2, w3, w4];
  }

  lemma HeadReadsThree(w1: string, w2: string, w3: string)
    requires Plain(w1) && Plain(w2) && Plain(w3)
    requires w1 != [] && w2 != [] && w3 != []
    ensures Scan(Lexer([], "", false, false), w1 + Arg(w2) + Arg(w3)) == Reading([w1, w2, w3])
  {
    ScanPlain(Lexer([], "", false, false), w1);
    assert "" + w1 == w1;
    ReadsMore(w1, [w1], w2);
    assert [w1] + [w2] == [w1, w2];
    ReadsMore(w1 + Arg(w2), [w1, w2], w3);
    assert [w1, w2] + [w3] == [w1, w2, w3];
  }

  /** An optional plain word. */
  lemma MaybeMore(s: string, ws: seq<string>, given: bool, a: string)
    requires ws != [] && Scan(Lexer([], "", false, false), s) == Reading(ws)
    requires given ==> Plain(a) && a != []
    ensures Scan(Lexer([], "", false, false), s + (if given then Arg(a) else ""))
            == Reading(ws + (if given then [a] else []))
  {
    if given {
      ReadsMore(s, ws, a);
    } else {
      assert s + "" == s && ws + [] == ws;
    }
  }

  /** An optional quoted word. */
  lemma MaybeQuoted(s: string, ws: seq<string>, given: bool, key: string, v: string)
    requires ws != [] && Scan(Lexer([], "", false, false), s) == Reading(ws)
    requires Plain(key) && key != [] && '"' !in v
    ensures Scan(Lexer([], "", false, false), s + (if given then Arg(key + Quoted(v)) else ""))
            == Reading(ws + (if given then [key + v] else []))
  {
    if given {
      QuotedStep(ws, key, v);
      Extend(s, ws, Arg(key + Quoted(v)), key + v);
    } else {
      assert s + "" == s && ws + [] == ws;
    }
  }

  lemma PlainAfter(key: string, v: string)
    requires Plain(key) && Plain(v)
    ensures Plain(key + v)
  {
    assert forall k | |key| <= k < |key + v| :: (key + v)[k] == v[k - |key|];
  }

  /** The words of a line read up to its end. */
  lemma LineRead(s: string, ws: seq<string>)
    requires ws != [] && Scan(Lexer([], "", false, false), s) == Reading(ws)
    ensures ShellWords(s) == ws
  {
    assert ws[..|ws| - 1] + [ws[|ws| - 1]] == ws;
  }

  lemma FixedWordsPlain()
    ensures Plain("make") && Plain("-f") && Plain("Makefile") && Plain("sim")
    ensures Plain("test=") && Plain("seed=") && Plain("command_add=")
    ensures Plain("FSDB_DUMP=1") && Plain("COVERAGE=1")
    ensures "command_add=" != [] && "FSDB_DUMP=1" != [] && "COVERAGE=1" != []
  {
    PlainByChars("make");
    PlainByChars("-f");
    PlainByChars("Makefile");
    PlainByChars("sim");
    PlainByChars("test=");
    PlainByChars("seed=");
    PlainByChars("command_add=");
    PlainByChars("FSDB_DUMP=1");
    PlainByChars("COVERAGE=1");
  }

  /** The batch script runs exactly the local command: a shell splits its line into the same
      arguments, the quotes around the extra options removed, provided no field holds a blank
      or a double quote. */
  lemma ScriptRunsLocalCommand(r: TestList.RunSpec, fsdb: bool, coverage: bool)
    requires Plain(r.baseName)
    requires Given(r.seed) ==> Plain(r.seed.value)
    requires Given(r.commandAdd) ==> '"' !in r.commandAdd.value
    ensures ShellWords(ScriptCommand(r, fsdb, coverage)) == LocalCommand(r, fsdb, coverage)
  {
    FixedWordsPlain();
    var test := "test=" + r.baseName;
    PlainAfter("test=", r.baseName);
    HeadReads("make", "-f", "Makefile", "sim", test);
    var s := "make" + Arg("-f") + Arg("Makefile") + Arg("sim") + Arg(test);
    var ws := ["make", "-f", "Makefile", "sim", test];
    var seed := "seed=" + (if Given(r.seed) then r.seed.value else "");
    if Given(r.seed) {
      PlainAfter("seed=", r.seed.value);
    }
    MaybeMore(s, ws, Given(r.seed), seed);
    s := s + (if Given(r.seed) then Arg(seed) else "");
    ws := ws + (if Given(r.seed) then [seed] else []);
    var extra := if Given(r.commandAdd) then r.commandAdd.value else "";
    MaybeQuoted(s, ws, Given(r.commandAdd), "command_add=", extra);
    s := s + (if Given(r.commandAdd) then Arg("command_add=" + Quoted(extra)) else "");
    ws := ws + (if Given(r.commandAdd) then ["command_add=" + extra] else []);
    MaybeMore(s, ws, fsdb, "FSDB_DUMP=1");
    s := s + (if fsdb then Arg("FSDB_DUMP=1") else "");
    ws := ws + (if fsdb then ["FSDB_DUMP=1"] else []);
    MaybeMore(s, ws, coverage, "COVERAGE=1");
    s := s + (if coverage then Arg("COVERAGE=1") else "");
    ws := ws + (if coverage then ["COVERAGE=1"] else []);
    LineRead(s, ws);
  }

  // ---------------------------------------------------------------- command line

  /** `main`'s checks, in order: an explicit `--max-parallel` outside 1..50, a timeout under a
      minute, a missing test list. `None` lets the run go ahead; otherwise `main` returns 1 with
      the message. */
  function CheckArgs(maxParallel: Option<int>, timeout: int, listExists: bool, listPath: string): (r: Option<string>)
    ensures r.None? <==> (maxParallel.None? || 1 <= maxParallel.value <= 50) && timeout >= 60 && listExists
  {
    if maxParallel.Some? && (maxParallel.value < 1 || maxParallel.value > 50) then
      Some("Error: max-parallel must be between 1 and 50")
    else if timeout < 60 then
      Some("Error: timeout must be at least 60 seconds")
    else if !listExists then
      Some("Error: Test list file not found: " + listPath)
    else None
  }

  /** The worker count: the option when given, else one worker per loaded run. */
  function Workers(maxParallel: Option<int>, total: nat): int {
    if maxParallel.Some? then maxParallel.value else total
  }

  /** Accepted arguments and a non-empty list (the loader rejects an empty one) give between 1
      and 50 workers when the option is given, and at least one execution folder for the local
      runner. */
  lemma AcceptedArgsGiveFolders(maxParallel: Option<int>, timeout: int, listExists: bool, listPath: string, total: nat)
    requires CheckArgs(maxParallel, timeout, listExists, listPath).None? && total >= 1
    ensures 1 <= Workers(maxParallel, total)
    ensures maxParallel.Some? ==> Workers(maxParallel, total) <= 50
    ensures 1 <= Slots.SlotCount(Workers(maxParallel, total), total) <= total
  {
  }
}
