// Loading a regression list: one test per line, `#` comments and blank lines skipped.
// The makefile generation accepts `run_cnt=N`, `seed=S` and `command_add=...` tokens after
// the name and expands a test with N > 1 into N numbered runs; the run-folder generation
// parses the same tokens without validating them and numbers the runs' folders.
// A file is given as the lines Python's `for line in f` yields (None: the file is absent).

module TestList {
  import opened Common
  import opened Text

  /** One scheduled run of the makefile generation. */
  datatype TestSpec = TestSpec(
    name: string,              // unique run name, also the log's stem
    baseName: string,          // the test name as listed
    runNumber: nat,            // 1-based repetition index
    seed: Option<int>,
    commandAdd: Option<string>)

  /** The largest seed the makefile generation accepts (2**31 - 1). */
  const MaxSeed: int := 0x7FFF_FFFF

  // ---------------------------------------------------------------- reading entries

  /** A line that names a test once stripped: not blank and not a `#` comment. */
  predicate IsEntry(line: string) {
    var t := Strip(line);
    t != [] && t[0] != '#'
  }

  /** The stripped entry lines, in file order. */
  function Entries(lines: seq<string>): seq<string>
    decreases |lines|
  {
    if lines == [] then []
    else
      var last := lines[|lines| - 1];
      Entries(lines[..|lines| - 1]) + (if IsEntry(last) then [Strip(last)] else [])
  }

  /** The `for line in f` loop shared by the v1 and makefile loaders. */
  method ReadEntries(lines: seq<string>) returns (entries: seq<string>)
    ensures entries == Entries(lines)
  {
    entries := [];
    var i := 0;
    while i < |lines|
      invariant 0 <= i <= |lines|
      invariant entries == Entries(lines[..i])
    {
      assert lines[..i + 1][..i] == lines[..i];
      var line := Strip(lines[i]);
      if line != [] && line[0] != '#' {
        entries := entries + [line];
      }
      i := i + 1;
    }
    assert lines[..|lines|] == lines;
  }

  lemma {:induction false} EntriesConcat(a: seq<string>, b: seq<string>)
    ensures Entries(a + b) == Entries(a) + Entries(b)
    decreases |b|
  {
    if b == [] {
      assert a + b == a;
    } else {
      assert (a + b)[..|a + b| - 1] == a + b[..|b| - 1];
      EntriesConcat(a, b[..|b| - 1]);
    }
  }

  /** Every entry is a stripped entry line of the file ... */
  lemma {:induction false} EntryFromLine(lines: seq<string>, n: nat)
    requires n < |Entries(lines)|
    ensures exists k | 0 <= k < |lines| :: IsEntry(lines[k]) && Entries(lines)[n] == Strip(lines[k])
    decreases |lines|
  {
    var init := lines[..|lines| - 1];
    if n < |Entries(init)| {
      EntryFromLine(init, n);
      var k :| 0 <= k < |init| && IsEntry(init[k]) && Entries(init)[n] == Strip(init[k]);
      assert lines[k] == init[k];
    } else {
      assert Entries(lines)[n] == Strip(lines[|lines| - 1]);
    }
  }

  /** ... and every entry line of the file is kept. */
  lemma {:induction false} LineToEntry(lines: seq<string>, k: nat)
    requires k < |lines| && IsEntry(lines[k])
    ensures Strip(lines[k]) in Entries(lines)
    decreases |lines|
  {
    var init := lines[..|lines| - 1];
    if k < |init| {
      assert init[k] == lines[k];
      LineToEntry(init, k);
      EntryKept(lines, Strip(lines[k]));
    } else {
      LastLineEntry(lines);
    }
  }

  lemma EntryKept(lines: seq<string>, e: string)
    requires lines != [] && e in Entries(lines[..|lines| - 1])
    ensures e in Entries(lines)
  {
    EntriesSnoc(lines);
  }

  lemma LastLineEntry(lines: seq<string>)
    requires lines != [] && IsEntry(lines[|lines| - 1])
    ensures Strip(lines[|lines| - 1]) in Entries(lines)
  {
    EntriesSnoc(lines);
  }

  lemma EntriesSnoc(lines: seq<string>)
    requires lines != []
    ensures Entries(lines) == Entries(lines[..|lines| - 1]) +
              (if IsEntry(lines[|lines| - 1]) then [Strip(lines[|lines| - 1])] else [])
  {
  }

  // ---------------------------------------------------------------- makefile generation

  /** The parameters of one entry: repetitions, custom seed and extra command. */
  datatype Params = Params(runCount: int, seed: Option<int>, commandAdd: Option<string>)

  const DefaultParams := Params(1, None, None)

  /** `part.split('=')[1]` */
  function FirstValue(part: string): string
    requires '=' in part
  {
    Split(part, '=')[1]
  }

  /** `part.split('=', 1)[1]` */
  function RestValue(part: string): string
    requires '=' in part
  {
    part[IndexOf(part, '=') + 1..]
  }

  /** The effect of one token after the test name. An invalid or non-positive `run_cnt` falls
      back to 1, an invalid or out-of-range seed to none, an empty `command_add` to none;
      other tokens are ignored. */
  function ApplyToken(p: Params, part: string): (q: Params)
    ensures p.runCount >= 1 ==> q.runCount >= 1
    ensures q.seed.Some? ==> 0 <= q.seed.value <= MaxSeed || q.seed == p.seed
    ensures q.commandAdd.Some? ==> q.commandAdd.value != [] || q.commandAdd == p.commandAdd
    ensures StartsWith(part, "run_cnt=") ==>
      '=' in part && q == p.(runCount := var n := ParseInt(FirstValue(part)); if n.Some? && n.value >= 1 then n.value else 1)
    ensures !StartsWith(part, "run_cnt=") && StartsWith(part, "seed=") ==>
      '=' in part && q == p.(seed := var n := ParseInt(FirstValue(part)); if n.Some? && 0 <= n.value <= MaxSeed then n else None)
    ensures !StartsWith(part, "run_cnt=") && !StartsWith(part, "seed=") && StartsWith(part, "command_add=") ==>
      '=' in part && q == p.(commandAdd := if RestValue(part) == [] then None else Some(RestValue(part)))
    ensures !StartsWith(part, "run_cnt=") && !StartsWith(part, "seed=") && !StartsWith(part, "command_add=") ==>
      q == p
  {
    if StartsWith(part, "run_cnt=") then
      assert part[7] == '=';
      match ParseInt(FirstValue(part))
      case Some(n) => p.(runCount := if n < 1 then 1 else n)
      case None => p.(runCount := 1)
    else if StartsWith(part, "seed=") then
      assert part[4] == '=';
      match ParseInt(FirstValue(part))
      case Some(n) => p.(seed := if 0 <= n <= MaxSeed then Some(n) else None)
      case None => p.(seed := None)
    else if StartsWith(part, "command_add=") then
      assert part[11] == '=';
      var v := RestValue(part);
      p.(commandAdd := if v == [] then None else Some(v))
    else
      p
  }

  /** The parameters after all tokens, applied left to right (later tokens win). */
  function ParamsOf(tokens: seq<string>): Params
    decreases |tokens|
  {
    if tokens == [] then DefaultParams
    else ApplyToken(ParamsOf(tokens[..|tokens| - 1]), tokens[|tokens| - 1])
  }

  /** Whatever the tokens, the parameters are usable: at least one run, a seed in range,
      a non-empty extra command. */
  lemma {:induction false} ParamsValid(tokens: seq<string>)
    ensures ParamsOf(tokens).runCount >= 1
    ensures ParamsOf(tokens).seed.Some? ==> 0 <= ParamsOf(tokens).seed.value <= MaxSeed
    ensures ParamsOf(tokens).commandAdd.Some? ==> ParamsOf(tokens).commandAdd.value != []
    decreases |tokens|
  {
    if tokens != [] {
      ParamsValid(tokens[..|tokens| - 1]);
    }
  }

  /** `key=value` splits on its only `=` into the key and the value. */
  lemma SplitToken(key: string, v: string)
    requires '=' !in key && '=' !in v
    ensures Split(key + "=" + v, '=') == [key, v]
  {
    assert Join([key, v], "=") == key + "=" + v;
    SplitJoin([key, v], '=');
  }

  /** A `run_cnt=N` token sets N runs when N >= 1, and one run when N <= 0. */
  lemma RunCountToken(p: Params, n: int)
    ensures ApplyToken(p, "run_cnt=" + IntToString(n)).runCount == if n < 1 then 1 else n
  {
    var part := "run_cnt=" + IntToString(n);
    assert '=' !in IntToString(n);
    assert part == "run_cnt" + "=" + IntToString(n);
    SplitToken("run_cnt", IntToString(n));
    assert StartsWith(part, "run_cnt=");
    ParseIntOfIntToString(n);
  }

  /** A `run_cnt=` token whose value holds no digit is not a number and sets one run. */
  lemma RunCountNotNumber(p: Params, v: string)
    requires '=' !in v && forall k | 0 <= k < |v| :: !IsDigit(v[k])
    ensures ApplyToken(p, "run_cnt=" + v).runCount == 1
  {
    var part := "run_cnt=" + v;
    assert part == "run_cnt" + "=" + v;
    SplitToken("run_cnt", v);
    assert StartsWith(part, "run_cnt=");
  }

  /** A `seed=S` token sets the seed S when S is in range and no seed otherwise. */
  lemma SeedToken(p: Params, s: int)
    ensures ApplyToken(p, "seed=" + IntToString(s)).seed == if 0 <= s <= MaxSeed then Some(s) else None
  {
    var part := "seed=" + IntToString(s);
    assert '=' !in IntToString(s);
    assert part == "seed" + "=" + IntToString(s);
    SplitToken("seed", IntToString(s));
    assert StartsWith(part, "seed=");
    assert !StartsWith(part, "run_cnt=") by { assert part[1] != "run_cnt="[1]; }
    ParseIntOfIntToString(s);
  }

  /** A `seed=` token whose value holds no digit clears the seed. */
  lemma SeedNotNumber(p: Params, v: string)
    requires '=' !in v && forall k | 0 <= k < |v| :: !IsDigit(v[k])
    ensures ApplyToken(p, "seed=" + v).seed == None
  {
    var part := "seed=" + v;
    assert part == "seed" + "=" + v;
    SplitToken("seed", v);
    assert StartsWith(part, "seed=");
    assert !StartsWith(part, "run_cnt=") by { assert part[1] != "run_cnt="[1]; }
  }

  /** A `command_add=` token keeps everything after its first `=`, `=` signs included, and
      an empty one clears the extra command. */
  lemma CommandAddToken(p: Params, v: string)
    ensures ApplyToken(p, "command_add=" + v).commandAdd == if v == [] then None else Some(v)
  {
    var part := "command_add=" + v;
    IndexOfIs(part, '=', 11);
    assert StartsWith(part, "command_add=");
    assert !StartsWith(part, "run_cnt=") by { assert part[0] != "run_cnt="[0]; }
    assert !StartsWith(part, "seed=") by { assert part[0] != "seed="[0]; }
    assert part[12..] == v;
  }

  /** Tokens that are not `run_cnt=` leave the repetition count alone, so the last
      `run_cnt=` token decides it. */
  lemma {:induction false} LaterTokensKeepRunCount(tokens: seq<string>, rest: seq<string>)
    requires forall k | 0 <= k < |rest| :: !StartsWith(rest[k], "run_cnt=")
    ensures ParamsOf(tokens + rest).runCount == ParamsOf(tokens).runCount
    decreases |rest|
  {
    if rest == [] {
      assert tokens + rest == tokens;
    } else {
      var init := rest[..|rest| - 1];
      assert (tokens + rest)[..|tokens + rest| - 1] == tokens + init;
      LaterTokensKeepRunCount(tokens, init);
    }
  }

  /** The run name of repetition `i` of test `name`. */
  function RunName(name: string, i: nat): string {
    name + "_" + NatToString(i)
  }

  /** The runs one entry expands into: `name_1` .. `name_N` when N > 1, else `name` itself. */
  function Expand(name: string, p: Params): seq<TestSpec> {
    if p.runCount > 1 then
      seq(p.runCount, i requires 0 <= i < p.runCount =>
        TestSpec(RunName(name, i + 1), name, i + 1, p.seed, p.commandAdd))
    else
      [TestSpec(name, name, 1, p.seed, p.commandAdd)]
  }

  /** The runs of one entry line; a line without words yields none. */
  function ExpandEntry(entry: string): seq<TestSpec> {
    var parts := Words(entry);
    if parts == [] then [] else Expand(parts[0], ParamsOf(parts[1..]))
  }

  function ExpandAll(entries: seq<string>): seq<TestSpec>
    decreases |entries|
  {
    if entries == [] then []
    else ExpandAll(entries[..|entries| - 1]) + ExpandEntry(entries[|entries| - 1])
  }

  /** The token loop of one entry: `parts[1:]` applied in order. */
  method ParseParams(parts: seq<string>) returns (params: Params)
    requires parts != []
    ensures params == ParamsOf(parts[1..])
  {
    params := DefaultParams;
    var j := 1;
    while j < |parts|
      invariant 1 <= j <= |parts|
      invariant params == ParamsOf(parts[1..j])
    {
      ParamsOfStep(parts, j);
      params := ApplyToken(params, parts[j]);
      j := j + 1;
    }
    assert parts[1..] == parts[1..|parts|];
  }

  lemma ParamsOfStep(parts: seq<string>, j: nat)
    requires 1 <= j < |parts|
    ensures ParamsOf(parts[1..j + 1]) == ApplyToken(ParamsOf(parts[1..j]), parts[j])
  {
    PrefixSlices(parts, j);
  }

  lemma PrefixSlices(parts: seq<string>, j: nat)
    requires 1 <= j < |parts|
    ensures parts[1..j + 1][..j - 1] == parts[1..j] && parts[1..j + 1][j - 1] == parts[j]
  {
  }

  /** The expansion of one entry into its runs. */
  method ExpandRuns(name: string, params: Params) returns (runs: seq<TestSpec>)
    ensures runs == Expand(name, params)
  {
    if params.runCount > 1 {
      runs := [];
      var i := 1;
      while i <= params.runCount
        invariant 1 <= i <= params.runCount + 1
        invariant runs == Expand(name, params)[..i - 1]
      {
        assert Expand(name, params)[..i] == Expand(name, params)[..i - 1] + [Expand(name, params)[i - 1]];
        runs := runs + [TestSpec(RunName(name, i), name, i, params.seed, params.commandAdd)];
        i := i + 1;
      }
      assert Expand(name, params)[..params.runCount] == Expand(name, params);
    } else {
      runs := [TestSpec(name, name, 1, params.seed, params.commandAdd)];
    }
  }

  /** The makefile loader: a missing file and a file without entries are errors; otherwise
      every entry is parsed and expanded, in file order. */
  method LoadTestList(path: string, file: Option<seq<string>>) returns (r: Result<seq<TestSpec>>)
    ensures file.None? ==> r == Err("Test list file not found: " + path)
    ensures file.Some? && Entries(file.value) == [] ==>
              r == Err("Error reading test list file: No tests found in " + path)
    ensures file.Some? && Entries(file.value) != [] ==> r == Ok(ExpandAll(Entries(file.value)))
  {
    if file.None? {
      return Err("Test list file not found: " + path);
    }
    var entries := ReadEntries(file.value);
    if entries == [] {
      return Err("Error reading test list file: No tests found in " + path);
    }
    var expanded: seq<TestSpec> := [];
    var k := 0;
    while k < |entries|
      invariant 0 <= k <= |entries|
      invariant expanded == ExpandAll(entries[..k])
    {
      ExpandAllStep(entries, k);
      var parts := Words(entries[k]);
      if parts != [] {
        var params := ParseParams(parts);
        var runs := ExpandRuns(parts[0], params);
        expanded := expanded + runs;
      }
      k := k + 1;
    }
    assert entries[..|entries|] == entries;
    r := Ok(expanded);
  }

  lemma ExpandAllStep(entries: seq<string>, k: nat)
    requires k < |entries|
    ensures ExpandAll(entries[..k + 1]) == ExpandAll(entries[..k]) + ExpandEntry(entries[k])
  {
    assert entries[..k + 1][..k] == entries[..k];
  }

  /** Each entry line expands into N runs when its last `run_cnt` is N > 1, else into one. */
  lemma ExpandSize(name: string, p: Params)
    ensures |Expand(name, p)| == if p.runCount > 1 then p.runCount else 1
  {
  }

  /** Every run of an entry keeps the listed name as its base name and the entry's seed and
      extra command; repetition `i` is named `name_i` and numbered `i`. */
  lemma ExpandedRuns(name: string, p: Params, k: nat)
    requires k < |Expand(name, p)|
    ensures Expand(name, p)[k].baseName == name
    ensures Expand(name, p)[k].seed == p.seed && Expand(name, p)[k].commandAdd == p.commandAdd
    ensures Expand(name, p)[k].runNumber == k + 1
    ensures Expand(name, p)[k].name == if p.runCount > 1 then RunName(name, k + 1) else name
  {
  }

  /** The repetitions of one entry have pairwise distinct names. */
  lemma ExpandNamesDistinct(name: string, p: Params, i: nat, j: nat)
    requires i < j < |Expand(name, p)|
    ensures Expand(name, p)[i].name != Expand(name, p)[j].name
  {
    var a := NatToString(i + 1);
    var b := NatToString(j + 1);
    IntToStringInjective(i + 1, j + 1);
    assert RunName(name, i + 1)[|name| + 1..] == a;
    assert RunName(name, j + 1)[|name| + 1..] == b;
  }

  // ---------------------------------------------------------------- v1 generation

  /** The v1 loader: the entry lines themselves are the test names, no parameters. */
  method LoadTestNames(path: string, file: Option<seq<string>>) returns (r: Result<seq<string>>)
    ensures file.None? ==> r == Err("Test list file not found: " + path)
    ensures file.Some? && Entries(file.value) == [] ==>
              r == Err("Error reading test list file: No tests found in " + path)
    ensures file.Some? && Entries(file.value) != [] ==> r == Ok(Entries(file.value))
  {
    if file.None? {
      return Err("Test list file not found: " + path);
    }
    var entries := ReadEntries(file.value);
    if entries == [] {
      return Err("Error reading test list file: No tests found in " + path);
    }
    r := Ok(entries);
  }

  // ---------------------------------------------------------------- run-folder generation

  /** One run of the run-folder generation; the seed is kept as the listed text. */
  datatype RunSpec = RunSpec(
    name: string,
    baseName: string,
    seed: Option<string>,
    commandAdd: Option<string>,
    folderId: nat)

  /** A parsed entry before expansion. */
  datatype ListedTest = ListedTest(name: string, runCount: int, seed: Option<string>, commandAdd: Option<string>)

  /** The run-folder generation's token handling: no validation, and a `run_cnt` that is not
      an integer aborts loading. */
  function ApplyTokenUnchecked(t: ListedTest, part: string): Result<ListedTest> {
    if StartsWith(part, "run_cnt=") then
      assert part[7] == '=';
      match ParseInt(FirstValue(part))
      case Some(n) => Ok(t.(runCount := n))
      case None => Err("invalid literal for int() with base 10")
    else if StartsWith(part, "seed=") then
      assert part[4] == '=';
      Ok(t.(seed := Some(FirstValue(part))))
    else if StartsWith(part, "command_add=") then
      assert part[11] == '=';
      Ok(t.(commandAdd := Some(RestValue(part))))
    else
      Ok(t)
  }

  function ParseTokens(t: ListedTest, tokens: seq<string>): Result<ListedTest>
    decreases |tokens|
  {
    if tokens == [] then Ok(t)
    else match ParseTokens(t, tokens[..|tokens| - 1])
      case Err(e) => Err(e)
      case Ok(u) => ApplyTokenUnchecked(u, tokens[|tokens| - 1])
  }

  /** One line of the list: None for a blank or comment line, else the parsed entry. */
  function ParseLine(line: string): Option<Result<ListedTest>> {
    var parts := Words(Strip(line));
    if !IsEntry(line) || parts == [] then None
    else Some(ParseTokens(ListedTest(parts[0], 1, None, None), parts[1..]))
  }

  /** The tests listed by the lines seen so far, or the error that stopped the parse. */
  function ParseListed(lines: seq<string>): Result<seq<ListedTest>>
    decreases |lines|
  {
    if lines == [] then Ok([])
    else match ParseListed(lines[..|lines| - 1])
      case Err(e) => Err(e)
      case Ok(ts) =>
        match ParseLine(lines[|lines| - 1])
        case None => Ok(ts)
        case Some(Err(e)) => Err(e)
        case Some(Ok(t)) => Ok(ts + [t])
  }

  /** A line is read as an entry exactly when its stripped text is a non-comment with a word. */
  lemma ParseLineCases(line: string)
    ensures var t := Strip(line); var parts := Words(t);
      ParseLine(line) ==
        if t != [] && t[0] != '#' && parts != []
        then Some(ParseTokens(ListedTest(parts[0], 1, None, None), parts[1..]))
        else None
  {
  }

  lemma ParseListedSnoc(lines: seq<string>, i: nat, ts: seq<ListedTest>, p: Option<Result<ListedTest>>)
    requires i < |lines| && ParseListed(lines[..i]) == Ok(ts) && ParseLine(lines[i]) == p
    requires p.None? || p.value.Ok?
    ensures ParseListed(lines[..i + 1]) == if p.None? then Ok(ts) else Ok(ts + [p.value.value])
  {
    assert lines[..i + 1][..i] == lines[..i];
  }

  /** The runs of one listed test: `range(run_cnt)`, so none when the count is not positive;
      folders numbered on from `firstFolder`. */
  function ExpandListed(t: ListedTest, firstFolder: nat): seq<RunSpec> {
    var n := if t.runCount > 0 then t.runCount else 0;
    seq(n, i requires 0 <= i < n =>
      RunSpec(if t.runCount > 1 then RunName(t.name, i + 1) else t.name, t.name, t.seed, t.commandAdd, firstFolder + i))
  }

  function ExpandListedAll(ts: seq<ListedTest>): seq<RunSpec>
    decreases |ts|
  {
    if ts == [] then []
    else
      var init := ExpandListedAll(ts[..|ts| - 1]);
      init + ExpandListed(ts[|ts| - 1], |init|)
  }

  /** The token loop of one run-folder entry; the first bad `run_cnt` ends it. */
  method ParseEntry(parts: seq<string>) returns (r: Result<ListedTest>)
    requires parts != []
    ensures r == ParseTokens(ListedTest(parts[0], 1, None, None), parts[1..])
  {
    var first := ListedTest(parts[0], 1, None, None);
    var tokens := parts[1..];
    var t := first;
    var j := 0;
    while j < |tokens|
      invariant 0 <= j <= |tokens|
      invariant ParseTokens(first, tokens[..j]) == Ok(t)
    {
      var next := ApplyTokenUnchecked(t, tokens[j]);
      ParseTokensSnoc(first, tokens, j);
      if next.Err? {
        ParseTokensStops(first, tokens, j + 1);
        return next;
      }
      t := next.value;
      j := j + 1;
    }
    assert tokens[..|tokens|] == tokens;
    r := Ok(t);
  }

  lemma ParseTokensSnoc(t: ListedTest, tokens: seq<string>, j: nat)
    requires j < |tokens|
    ensures ParseTokens(t, tokens[..j + 1]) == match ParseTokens(t, tokens[..j])
                                               case Err(e) => Err(e)
                                               case Ok(u) => ApplyTokenUnchecked(u, tokens[j])
  {
    assert tokens[..j + 1][..j] == tokens[..j];
  }

  /** The line loop of the run-folder loader. */
  method ParseRunList(lines: seq<string>) returns (r: Result<seq<ListedTest>>)
    ensures r == ParseListed(lines)
  {
    var tests: seq<ListedTest> := [];
    var i := 0;
    while i < |lines|
      invariant 0 <= i <= |lines|
      invariant ParseListed(lines[..i]) == Ok(tests)
    {
      var line := Strip(lines[i]);
      var parts := Words(line);
      ParseLineCases(lines[i]);
      if line != [] && line[0] != '#' && parts != [] {
        var t := ParseEntry(parts);
        if t.Err? {
          ParseListedStops(lines, i + 1, t.error);
          return Err(t.error);
        }
        ParseListedSnoc(lines, i, tests, Some(t));
        tests := tests + [t.value];
      } else {
        ParseListedSnoc(lines, i, tests, None);
      }
      i := i + 1;
    }
    assert lines[..|lines|] == lines;
    r := Ok(tests);
  }

  /** `for i in range(run_cnt)` for one listed test, folders numbered on from `first`. */
  method ExpandListedRuns(t: ListedTest, first: nat) returns (runs: seq<RunSpec>)
    ensures runs == ExpandListed(t, first)
  {
    runs := [];
    var folderId := first;
    var n := 0;
    ghost var count := |ExpandListed(t, first)|;
    while n < t.runCount
      invariant 0 <= n <= count
      invariant runs == ExpandListed(t, first)[..n] && folderId == first + n
    {
      assert ExpandListed(t, first)[..n + 1] == ExpandListed(t, first)[..n] + [ExpandListed(t, first)[n]];
      var name := if t.runCount > 1 then RunName(t.name, n + 1) else t.name;
      runs := runs + [RunSpec(name, t.name, t.seed, t.commandAdd, folderId)];
      folderId := folderId + 1;
      n := n + 1;
    }
    assert ExpandListed(t, first)[..n] == ExpandListed(t, first);
  }

  lemma ExpandListedAllSnoc(ts: seq<ListedTest>, k: nat)
    requires k < |ts|
    ensures ExpandListedAll(ts[..k + 1]) == ExpandListedAll(ts[..k]) + ExpandListed(ts[k], |ExpandListedAll(ts[..k])|)
  {
    assert ts[..k + 1][..k] == ts[..k];
  }

  /** The run-folder loader: an absent file yields no runs; a bad `run_cnt` is an error;
      otherwise every listed test is expanded with one folder per run. */
  method LoadRunList(file: Option<seq<string>>) returns (r: Result<seq<RunSpec>>)
    ensures file.None? ==> r == Ok([])
    ensures file.Some? ==> r == match ParseListed(file.value)
                                case Err(e) => Err(e)
                                case Ok(ts) => Ok(ExpandListedAll(ts))
  {
    if file.None? {
      return Ok([]);
    }
    var parsed := ParseRunList(file.value);
    if parsed.Err? {
      return Err(parsed.error);
    }
    var tests := parsed.value;
    var expanded: seq<RunSpec> := [];
    var k := 0;
    while k < |tests|
      invariant 0 <= k <= |tests|
      invariant expanded == ExpandListedAll(tests[..k])
    {
      ExpandListedAllSnoc(tests, k);
      var runs := ExpandListedRuns(tests[k], |expanded|);
      expanded := expanded + runs;
      k := k + 1;
    }
    assert tests[..|tests|] == tests;
    r := Ok(expanded);
  }

  /** Once a token fails to parse, the remaining tokens are not looked at. */
  lemma {:induction false} ParseTokensStops(t: ListedTest, tokens: seq<string>, n: nat)
    requires n <= |tokens| && ParseTokens(t, tokens[..n]).Err?
    ensures ParseTokens(t, tokens) == ParseTokens(t, tokens[..n])
    decreases |tokens|
  {
    if n < |tokens| {
      assert tokens[..|tokens| - 1][..n] == tokens[..n];
      ParseTokensStops(t, tokens[..|tokens| - 1], n);
    } else {
      assert tokens[..n] == tokens;
    }
  }

  /** Once a line fails to parse, the whole list fails with that error. */
  lemma {:induction false} ParseListedStops(lines: seq<string>, n: nat, e: string)
    requires 0 < n <= |lines|
    requires ParseListed(lines[..n - 1]).Ok?
    requires ParseLine(lines[n - 1]) == Some(Err(e))
    ensures ParseListed(lines) == Err(e)
    decreases |lines|
  {
    var init := lines[..|lines| - 1];
    if n == |lines| {
      assert init == lines[..n - 1];
      ParseListedLastFails(lines, e);
    } else {
      assert init[..n - 1] == lines[..n - 1];
      assert init[n - 1] == lines[n - 1];
      ParseListedStops(init, n, e);
      ParseListedErrKept(lines);
    }
  }

  lemma ParseListedLastFails(lines: seq<string>, e: string)
    requires lines != [] && ParseListed(lines[..|lines| - 1]).Ok?
    requires ParseLine(lines[|lines| - 1]) == Some(Err(e))
    ensures ParseListed(lines) == Err(e)
  {
  }

  lemma ParseListedErrKept(lines: seq<string>)
    requires lines != [] && ParseListed(lines[..|lines| - 1]).Err?
    ensures ParseListed(lines) == ParseListed(lines[..|lines| - 1])
  {
  }

  /** The runs are numbered by folder in load order: run `k` owns folder `k`. */
  lemma {:induction false} FolderIdsInOrder(ts: seq<ListedTest>, k: nat)
    requires k < |ExpandListedAll(ts)|
    ensures ExpandListedAll(ts)[k].folderId == k
    decreases |ts|
  {
    var init := ExpandListedAll(ts[..|ts| - 1]);
    if k < |init| {
      FolderIdsInOrder(ts[..|ts| - 1], k);
    }
  }

  /** A listed test with a non-positive `run_cnt` contributes no runs; otherwise one per count. */
  lemma ExpandListedSize(t: ListedTest, first: nat)
    ensures |ExpandListed(t, first)| == if t.runCount > 0 then t.runCount else 0
  {
  }
}
