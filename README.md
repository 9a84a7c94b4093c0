# AXI4 VIP regression runners, modelled in Dafny

The AXI4 verification IP ships three generations of a Python regression runner and two small
helpers around them:

- `axi4_regression.py` (v1) runs a list of UVM test names.
- `axi4_regression_makefile.py` runs each test through `make run_test` and accepts `run_cnt=N`,
  `seed=S` and `command_add=...` after a name.
- `axi4_regression_makefile_runfolder.py` runs from numbered `run_folder_NN` directories and
  writes pass, no-pass and running lists.
- `extract_failed_tests.py` reads a detailed results file back into a test list of the failed
  runs.
- `generate_user_guide_html.py` turns the user guide's Markdown into HTML.

A runner does the same things in each generation:
- it loads a test list and expands repeated tests into numbered runs;
- it hands out execution folders and builds the `make` command or the batch (LSF) job script;
- it either runs the tests locally or submits them to the batch scheduler and polls them;
- it decides each run's status (PASS, FAIL, TIMEOUT, ERROR) from the console output and the log;
- it counts the results, writes the reports and returns the exit code.

The model follows the source's own shape:
- Pure steps are functions on values.
- Loops become methods proved against those functions.
- State the runners update in place becomes classes with `modifies` frames:
  - the result list with its counters (`Session.Tally`);
  - the folder queue (`Slots.SlotPool`, `Slots.LocalRun`);
  - the two job tables (`Lsf.Tracker`, `Lsf.FolderTracker`).

Modules, one file each:

| module | what it holds |
|---|---|
| `Common` | `Option` and `Result` |
| `Text` | the Python string primitives the scripts use: `strip`, `split`, `int()`, `str()`, slicing, `lower` |
| `TestList` | the three test-list loaders |
| `Classifier` | the status cascades |
| `Session` | result grouping, counters and the exit code |
| `Reports` | the report files |
| `Slots` | execution folders and the local scheduler |
| `Lsf` | job-id parsing, the two monitoring loops and completion handling |
| `Commands` | the `make` variables, the base-name rule, the batch script line and argument checks |
| `FailedList` | the extractor |
| `Markdown` | the HTML converter |

Two things enter as parameters:
- Regular expressions other than `@\s*\d+:`, `^(.+)_(\d+)$` and `Job <(\d+)>` are decided by an
  `Engine` value: whether a pattern is found, and the first captured count.
- Clocks, random numbers, process outcomes, file contents and scheduler replies are plain values
  or functions.

## Model

| member | source | states |
|---|---|---|
| Text.ContainsAt | sim/synopsys_sim/axi4_regression_makefile.py:959 | an occurrence of `t` at some offset of `s` makes Python's `t in s` true |
| Text.ContainsWitness | sim/synopsys_sim/axi4_regression_makefile.py:959 | conversely, `t in s` yields an offset where `t` occurs |
| Text.StripContained | sim/synopsys_sim/axi4_regression_makefile.py:188 | the stripped line occurs inside the line read |
| Text.WordsContained | sim/synopsys_sim/axi4_regression_makefile.py:198 | every word of `split()` occurs in the text |
| Text.SplitContained | sim/synopsys_sim/axi4_regression_makefile.py:213 | every piece of `split(sep)` occurs in the text |
| Text.TrimLeft | sim/synopsys_sim/axi4_regression_makefile.py:188 | the result is a suffix, everything dropped is whitespace, and the result does not start with whitespace |
| Text.TrimRight | sim/synopsys_sim/axi4_regression_makefile.py:188 | the result is a prefix, everything dropped is whitespace, and the result does not end with whitespace |
| Text.Strip | sim/synopsys_sim/axi4_regression_makefile_runfolder.py:660 | `strip()` leaves no whitespace at either end and never grows the text |
| Text.StripUnchanged | sim/synopsys_sim/axi4_regression_makefile_runfolder.py:660 | text without whitespace at its ends strips to itself |
| Text.StripTrailingNewline | sim/synopsys_sim/axi4_regression_makefile_runfolder.py:660 | a line written with its newline strips back to the text written |
| Text.Words | sim/synopsys_sim/axi4_regression_makefile_runfolder.py:664 | `split()` yields only non-empty words without whitespace |
| Text.WordsSkipSpaces | sim/synopsys_sim/axi4_regression_makefile_runfolder.py:664 | leading whitespace does not change the words |
| Text.WordsLeadingWord | sim/synopsys_sim/axi4_regression_makefile_runfolder.py:664 | a word followed by whitespace (or by nothing) is the first word, in front of the words of the rest |
| Text.IndexOf | sim/synopsys_sim/axi4_regression_makefile.py:231 | the position of the first occurrence of a character present in the text |
| Text.Split | sim/synopsys_sim/axi4_regression_makefile.py:213 | `split(sep)` yields at least one piece and no piece holds the separator |
| Text.JoinSplit | sim/synopsys_sim/axi4_regression_makefile.py:213 | joining the pieces of a split with the separator gives the text back |
| Text.SplitJoin | sim/synopsys_sim/axi4_regression_makefile.py:213 | splitting a join of separator-free pieces gives the pieces back |
| Text.SplitCount | sim/synopsys_sim/axi4_regression_makefile.py:953 | a split yields one more piece than there are separators |
| Text.LinesConcat | sim/synopsys_sim/extract_failed_tests.py:26-28 | the text of lines written one after another is the concatenation of the parts |
| Text.LinesAsJoin | sim/synopsys_sim/extract_failed_tests.py:26-28 | a file written line by line is the newline join of its lines plus a final empty piece |
| Text.SplitLines | sim/synopsys_sim/extract_failed_tests.py:10 | `content.split('\n')` of a file written line by line gives its lines and one final empty piece |
| Text.NatToString | sim/synopsys_sim/axi4_regression_makefile.py:243 | `str(n)` is a non-empty digit string without a leading zero |
| Text.ParseInt | sim/synopsys_sim/axi4_regression_makefile.py:213 | `int()` succeeds only on text holding a digit |
| Text.ParseIntOfIntToString | sim/synopsys_sim/axi4_regression_makefile.py:213 | `int(str(i)) == i` for every integer |
| Text.ParseIntDecimal | sim/synopsys_sim/axi4_regression_makefile.py:213 | a decimal digit string (underscores only between digits) parses to its value |
| Text.ParseIntNegative | sim/synopsys_sim/axi4_regression_makefile.py:222 | a minus sign before a decimal string parses to the negated value |
| Text.IntToStringInjective | sim/synopsys_sim/axi4_regression_makefile.py:243 | distinct integers render as distinct text |
| Text.Take | sim/synopsys_sim/axi4_regression_makefile.py:1015 | `s[:n]` is the prefix of length `min(n, len(s))` |
| Text.TakeLast | sim/synopsys_sim/axi4_regression.py:509 | `s[-n:]` is the suffix of length `min(n, len(s))` |
| Text.ToLower | sim/synopsys_sim/axi4_regression.py:510 | on ASCII text, `lower()` maps `A`-`Z` to `a`-`z` one character for one and keeps every other character |
| TestList.ReadEntries | sim/synopsys_sim/axi4_regression_makefile.py:186-191 | the line loop collects exactly the stripped lines that are neither blank nor `#` comments, in file order |
| TestList.EntriesConcat | sim/synopsys_sim/axi4_regression.py:120-125 | the entries of two consecutive parts of a file are the entries of each, in order |
| TestList.EntryFromLine | sim/synopsys_sim/axi4_regression.py:120-125 | every entry is the stripped form of some entry line of the file |
| TestList.LineToEntry | sim/synopsys_sim/axi4_regression.py:120-125 | every entry line of the file is kept |
| TestList.ApplyToken | sim/synopsys_sim/axi4_regression_makefile.py:210-237 | a `run_cnt` token sets the run count `int()` reads, or 1 when that is below 1 or not a number; a `seed` token sets the seed when it reads in 0..2^31-1 and clears it otherwise; a `command_add` token sets the options, or none when empty; any other token changes nothing |
| TestList.ParamsValid | sim/synopsys_sim/axi4_regression_makefile.py:210-237 | whatever the tokens: at least one run, a seed in range if any, non-empty options if any |
| TestList.SplitToken | sim/synopsys_sim/axi4_regression_makefile.py:213 | `key=value` without another `=` splits into the key and the value |
| TestList.RunCountToken | sim/synopsys_sim/axi4_regression_makefile.py:211-218 | `run_cnt=N` sets N runs, and 1 run when N < 1 |
| TestList.RunCountNotNumber | sim/synopsys_sim/axi4_regression_makefile.py:214-218 | `run_cnt=` followed by text without a digit falls back to 1 run |
| TestList.SeedToken | sim/synopsys_sim/axi4_regression_makefile.py:220-227 | `seed=S` sets the seed S when S is in 0..2^31-1, and no seed otherwise |
| TestList.SeedNotNumber | sim/synopsys_sim/axi4_regression_makefile.py:223-227 | `seed=` followed by text without a digit sets no seed |
| TestList.CommandAddToken | sim/synopsys_sim/axi4_regression_makefile.py:229-236 | `command_add=` keeps everything after its first `=`, later `=` signs included, and an empty value sets no options |
| TestList.LaterTokensKeepRunCount | sim/synopsys_sim/axi4_regression_makefile.py:210-237 | tokens that are not `run_cnt=` leave the count alone, so the last valid `run_cnt` wins |
| TestList.ParseParams | sim/synopsys_sim/axi4_regression_makefile.py:210-237 | the token loop yields the parameters of all tokens applied left to right |
| TestList.ExpandRuns | sim/synopsys_sim/axi4_regression_makefile.py:239-266 | the expansion loop yields the entry's runs |
| TestList.LoadTestList | sim/synopsys_sim/axi4_regression_makefile.py:173-286 | a missing file and a file without entries give their errors; otherwise every entry expands, in file order |
| TestList.ExpandAllStep | sim/synopsys_sim/axi4_regression_makefile.py:196-266 | one more entry line appends exactly its own runs |
| TestList.ExpandSize | sim/synopsys_sim/axi4_regression_makefile.py:239-266 | an entry gives N runs when its count N > 1, else one |
| TestList.ExpandedRuns | sim/synopsys_sim/axi4_regression_makefile.py:239-266 | run k keeps the listed base name, seed and options, is numbered k+1, and is named `name_{k+1}` only when N > 1 |
| TestList.ExpandNamesDistinct | sim/synopsys_sim/axi4_regression_makefile.py:241-243 | the repetitions of one entry have pairwise distinct names |
| TestList.LoadTestNames | sim/synopsys_sim/axi4_regression.py:116-137 | the v1 loader: a missing file or a file without entries is an error; otherwise the entries themselves are the names |
| TestList.ParseEntry | sim/synopsys_sim/axi4_regression_makefile_runfolder.py:668-686 | the run-folder token loop is the unchecked token parse, which stops at the first bad `run_cnt` |
| TestList.ParseRunList | sim/synopsys_sim/axi4_regression_makefile_runfolder.py:658-686 | the line loop is the list parse, and the first failing line fails it |
| TestList.ExpandListedRuns | sim/synopsys_sim/axi4_regression_makefile_runfolder.py:694-703 | `range(run_cnt)` gives the test's runs, folders numbered on |
| TestList.LoadRunList | sim/synopsys_sim/axi4_regression_makefile_runfolder.py:649-705 | an absent file gives no runs; a bad `run_cnt` is an error; otherwise the listed tests expand in order |
| TestList.ParseTokensStops | sim/synopsys_sim/axi4_regression_makefile_runfolder.py:674-675 | once a token fails to parse, later tokens are not looked at |
| TestList.ParseListedStops | sim/synopsys_sim/axi4_regression_makefile_runfolder.py:658-686 | once a line fails to parse, the whole list fails with that error |
| TestList.FolderIdsInOrder | sim/synopsys_sim/axi4_regression_makefile_runfolder.py:689-703 | run k of the expanded list owns folder k |
| TestList.ExpandListedSize | sim/synopsys_sim/axi4_regression_makefile_runfolder.py:694 | a non-positive `run_cnt` gives no runs; otherwise one run per count |
| Classifier.StatusText | sim/synopsys_sim/axi4_regression_makefile.py:1229-1232 | each status is written as one of PASS, FAIL, TIMEOUT, ERROR |
| Classifier.StatusTextInjective | sim/synopsys_sim/axi4_regression_makefile.py:1229-1232 | distinct statuses are written differently |
| Classifier.FirstMatch | sim/synopsys_sim/axi4_regression_makefile.py:946-949 | the pattern found matches the text and is listed; none is found exactly when no listed pattern matches |
| Classifier.FirstMatchIsFirst | sim/synopsys_sim/axi4_regression_makefile.py:945-948 | the pattern found is the first listed pattern that matches: every pattern before it fails |
| Classifier.NormalizeConcat | sim/synopsys_sim/axi4_regression_makefile.py:961 | `re.sub` on a text cut just before an `@` rewrites each part on its own |
| Classifier.NormalizeStamp | sim/synopsys_sim/axi4_regression_makefile.py:961 | a timestamp `@ <spaces> <digits>:` becomes `@TIME:` |
| Classifier.TimestampIgnored | sim/synopsys_sim/axi4_regression_makefile.py:961 | two messages that differ only in their simulation time normalise alike |
| Classifier.CountInfoLines | sim/synopsys_sim/axi4_regression_makefile.py:957-962 | the dictionary holds exactly the normalised UVM_INFO messages of the window, each with its number of occurrences |
| Classifier.AnyCountAbove | sim/synopsys_sim/axi4_regression_makefile.py:965-967 | found exactly when some count exceeds the limit |
| Classifier.DetectRepetition | sim/synopsys_sim/axi4_regression_makefile.py:953-967 | stuck exactly when the output has over 1000 lines and its last 100 repeat one UVM_INFO message (timestamps ignored) over 20 times |
| Classifier.InfoCountWitness | sim/synopsys_sim/axi4_regression_makefile.py:957-962 | a positive count has a UVM_INFO line of the window behind it |
| Classifier.InfoCountPositive | sim/synopsys_sim/axi4_regression_makefile.py:957-962 | every UVM_INFO line of the window is counted |
| Classifier.ShortOutputNotRepetitive | sim/synopsys_sim/axi4_regression_makefile.py:954 | an output of at most 1000 lines is never judged repetitive |
| Classifier.FirstMatchingLine | sim/synopsys_sim/axi4_regression_makefile.py:1009-1012 | the line found is the first on which the pattern matches; none is found only when no line matches |
| Classifier.FailureMessage | sim/synopsys_sim/axi4_regression_makefile.py:1008-1017 | the message is at most 200 characters, or names the pattern |
| Classifier.FailureMessageFirstLine | sim/synopsys_sim/axi4_regression_makefile.py:1009-1015 | when line k is the first line the pattern matches, the message is that line stripped and cut to 200 characters |
| Classifier.FailureMessageNoLine | sim/synopsys_sim/axi4_regression_makefile.py:1016-1017 | when no line matches on its own, the message names the pattern |
| Classifier.Evidence | sim/synopsys_sim/axi4_regression_makefile.py:970-1036 | the rules after the hang checks never say TIMEOUT; PASS exactly when there is no message; counts appear only on a failing status |
| Classifier.Cascade | sim/synopsys_sim/axi4_regression_makefile.py:946-1036 | PASS exactly when there is no message; nonzero counts only on a failure |
| Classifier.ClassifyRun | sim/synopsys_sim/axi4_regression_makefile.py:888-1039 | the makefile verdict: PASS exactly when there is no message; nonzero counts only on a failure |
| Classifier.CascadeTimeout | sim/synopsys_sim/axi4_regression_makefile.py:946-967 | TIMEOUT exactly on a hang marker or the repetition rule |
| Classifier.EvidencePass | sim/synopsys_sim/axi4_regression_makefile.py:970-1001 | the rules give PASS exactly on a pass marker, a clean completed summary, or a completion marker with neither summary failures nor failure markers |
| Classifier.EvidenceError | sim/synopsys_sim/axi4_regression_makefile.py:1019-1036 | the rules give ERROR exactly when the log is missing and there is no pass marker, clean summary, summary failure, failure marker or completion marker |
| Classifier.CascadePass | sim/synopsys_sim/axi4_regression_makefile.py:946-1001 | PASS exactly when nothing hangs and a pass rule applies |
| Classifier.CascadeError | sim/synopsys_sim/axi4_regression_makefile.py:946-1036 | ERROR exactly when nothing hangs, nothing passes or fails, and the log is missing |
| Classifier.ClassifyRunTimeout | sim/synopsys_sim/axi4_regression_makefile.py:888-967 | TIMEOUT exactly when the log could be read and a hang marker or the repetition rule applies |
| Classifier.ClassifyRunPass | sim/synopsys_sim/axi4_regression_makefile.py:888-1001 | PASS exactly when the log could be read, nothing hangs, and a pass rule applies |
| Classifier.ClassifyRunError | sim/synopsys_sim/axi4_regression_makefile.py:888-1039 | ERROR exactly when the log cannot be read, or it is missing and no earlier rule decided |
| Classifier.ClassifyRunFailureLine | sim/synopsys_sim/axi4_regression_makefile.py:1003-1017 | a failure found by pattern reports that pattern's first matching line, stripped and cut to 200 characters |
| Classifier.CascadeV1 | sim/synopsys_sim/axi4_regression.py:597-676 | the v1 cascade never says ERROR, and says PASS exactly when there is no message |
| Classifier.ClassifyRunV1 | sim/synopsys_sim/axi4_regression.py:547-679 | v1: ERROR exactly when reading the log raised; PASS exactly when there is no message |
| Classifier.CascadeV1Pass | sim/synopsys_sim/axi4_regression.py:597-653 | v1 PASS exactly when nothing hangs and a pass marker, a clean completed summary, or completion without failure markers is found |
| Classifier.ClassifyRunV1Cases | sim/synopsys_sim/axi4_regression.py:547-679 | v1: TIMEOUT exactly on a readable log with a hang; PASS exactly when nothing hangs and a pass marker, a clean summary or a completion marker without failure markers is found, so summary counts alone decide nothing |
| Classifier.CascadesAgree | sim/synopsys_sim/axi4_regression.py:632-649 | when any summary counts no failures and the log exists, the v1 and makefile cascades give the same status and message |
| Classifier.GenerationsAgree | sim/synopsys_sim/axi4_regression.py:547-679 | the two generations classify alike every run whose log exists and whose summary (if any) counts no failures |
| Classifier.TimeoutMessageV1 | sim/synopsys_sim/axi4_regression.py:503-513 | with a log: the Ultrasim/Ultrathink message when the lower-cased last 10000 characters name either; otherwise the hang message when that tail (case as written) says `excessive repetition` or `simulation stuck`; otherwise the plain timeout message. Without a log: the plain message |
| Classifier.TimeoutMessageReadsTail | sim/synopsys_sim/axi4_regression.py:509 | only the last 10000 characters of the log decide the message |
| Classifier.UltraTimeoutFirst | sim/synopsys_sim/axi4_regression.py:509-511 | a tail naming ultrasim or ultrathink in any case gets the Ultrasim message, whatever else it says |
| Classifier.PlainTimeout | sim/synopsys_sim/axi4_regression.py:509-513 | a short log holding neither name nor either hang phrase gets the plain timeout message |
| Classifier.HangPhraseCaseSensitive | sim/synopsys_sim/axi4_regression.py:512 | the hang phrases are matched case-sensitively: `Simulation Stuck` gets the plain message |
| Classifier.ClassifyRunFolder | sim/synopsys_sim/axi4_regression_makefile_runfolder.py:489-557 | the run-folder verdict is PASS or FAIL; PASS exactly on a pass marker; counts exactly when there is no pass marker and a count is positive |
| Classifier.RunVerdict | sim/synopsys_sim/axi4_regression_makefile.py:796-886 | a local run: an overrun is TIMEOUT with the timeout message; a raised start is ERROR with the reason; otherwise the output is classified |
| Classifier.RunOutcomeV1 | sim/synopsys_sim/axi4_regression.py:451-542 | the v1 local run: an overrun takes the tail-dependent timeout message; otherwise as in the makefile generation |
| Classifier.RunFolderVerdict | sim/synopsys_sim/axi4_regression_makefile_runfolder.py:193-258 | a run-folder local run: TIMEOUT after the limit, ERROR with the raised reason, otherwise the run-folder verdict |
| Session.Select | sim/synopsys_sim/axi4_regression_makefile.py:1172 | the list comprehension keeps only results of a wanted status and never grows |
| Session.SelectEnumerates | sim/synopsys_sim/axi4_regression_makefile.py:1172 | a selection is the wanted results at increasing positions of the list, leaving none out |
| Session.SelectMembers | sim/synopsys_sim/axi4_regression_makefile.py:1229-1232 | a result is selected exactly when it is listed and its status is wanted |
| Session.SelectSplit | sim/synopsys_sim/axi4_regression_makefile.py:1229-1232 | selections by disjoint status sets together are the selection by their union |
| Session.SelectAll | sim/synopsys_sim/axi4_regression_makefile.py:1229-1232 | selecting every status present keeps the whole list |
| Session.PassSplit | sim/synopsys_sim/axi4_regression_makefile_runfolder.py:718-737 | PASS and non-PASS selections split the results, as a multiset and in number |
| Session.GroupsPartition | sim/synopsys_sim/axi4_regression_makefile.py:1229-1232 | the detailed report's TIMEOUT, FAIL/ERROR and PASS groups together hold every result once |
| Session.GroupsExclusive | sim/synopsys_sim/axi4_regression.py:832-835 | each result lands in the group of its status and in no other |
| Session.NoPassNames | sim/synopsys_sim/axi4_regression.py:778-788 | `no_pass_list` has one name per run that did not pass: the names of all such runs, taken at increasing positions, so in result order |
| Session.NoPassNamesExact | sim/synopsys_sim/axi4_regression.py:778-788 | a name is on the no-pass list exactly when some run of that name did not pass |
| Session.ExitCode | sim/synopsys_sim/axi4_regression_makefile.py:1208-1214 | the exit code is 1 exactly when some test failed, and 0 otherwise |
| Session.NotPassCounted | sim/synopsys_sim/axi4_regression_makefile.py:1172-1174 | some run is counted among the failures exactly when some run did not pass |
| Session.Tally.constructor | sim/synopsys_sim/axi4_regression_makefile.py:57-105 | a session starts with no results and all counters zero |
| Session.Tally.Record | sim/synopsys_sim/axi4_regression_makefile.py:1041-1053 | a result is appended and counted once, as passed or as failed, keeping the counters equal to the list's tallies |
| Session.Tally.Exit | sim/synopsys_sim/axi4_regression_makefile.py:1208-1214 | the exit code is 1 exactly when some recorded run did not pass |
| Session.PassRate | sim/synopsys_sim/axi4_regression_makefile_runfolder.py:778 | 0 for an empty regression, within 0..100, and 100 when all passed |
| Reports.PassList | sim/synopsys_sim/axi4_regression_makefile_runfolder.py:712-728 | `pass_list` is four comment lines, the count line giving the number of runs listed, a `#` line, then the parameter line of each passing run in result order |
| Reports.NoPassList | sim/synopsys_sim/axi4_regression_makefile_runfolder.py:731-747 | `no_pass_list` is the same header, counting failed runs, then the parameter line of each run that did not pass, in result order |
| Reports.PassListExact | sim/synopsys_sim/axi4_regression_makefile_runfolder.py:718-728 | the lines after the header are exactly the parameter lines of the passing runs |
| Reports.NoPassListExact | sim/synopsys_sim/axi4_regression_makefile_runfolder.py:737-747 | the lines after the header are exactly the parameter lines of the runs that did not pass |
| Reports.RunningList | sim/synopsys_sim/axi4_regression_makefile_runfolder.py:750-762 | `running_list` is a four-line header counting every run, then one line per run, in result order, with its PASS/FAIL tag |
| Reports.RateTenths | sim/synopsys_sim/axi4_regression_makefile.py:1227 | the pass rate in tenths of a percent is the nearest to passed/total*1000, a tie going to the even value, and at most 1000 when passed <= total |
| Reports.NearestEven | sim/synopsys_sim/axi4_regression_makefile.py:1227 | round-half-even division lands within half a step of the exact quotient, and on a tie at the even neighbour |
| Reports.Heading | sim/synopsys_sim/axi4_regression_makefile.py:1219-1227 | the results file starts with ten lines: the title and the timestamp, then, below the rule and `Summary:`, the total, passed and failed counts and the pass rate |
| Reports.DetailedResults | sim/synopsys_sim/axi4_regression_makefile.py:1216-1274 | the detailed results file starts with the heading |
| Reports.DetailedShowsRun | sim/synopsys_sim/axi4_regression_makefile.py:1229-1274 | every run appears below the heading: under the header of its status group, which counts the group, as its block of lines (FAIL and ERROR under FAILED) |
| Reports.ListsPartitionRunning | sim/synopsys_sim/axi4_regression_makefile_runfolder.py:750-762 | the pass and no-pass lists together list every run of the running list once |
| Reports.RunningLineTag | sim/synopsys_sim/axi4_regression_makefile_runfolder.py:758-759 | a running-list line is tagged `[PASS]` exactly when the run is on the pass list, and `[FAIL]` exactly when it is on the no-pass list |
| Reports.NotPassIsFail | sim/synopsys_sim/axi4_regression_makefile_runfolder.py:758 | TIMEOUT and ERROR are tagged FAIL, and only PASS is tagged PASS |
| Reports.ReloadParamLine | sim/synopsys_sim/axi4_regression_makefile_runfolder.py:722-728 | a pass-list or no-pass-list line loads back as one run with the same name, seed and options |
| Reports.LineUnstripped | sim/synopsys_sim/axi4_regression_makefile_runfolder.py:722-728 | such a line is an entry line that stripping keeps |
| Reports.LineWords | sim/synopsys_sim/axi4_regression_makefile_runfolder.py:722-728 | its words are the name, then the seed token, then the options token |
| Reports.SeedTokenRead | sim/synopsys_sim/axi4_regression_makefile_runfolder.py:677 | the written `seed=` token sets the seed it came from |
| Reports.CommandTokenRead | sim/synopsys_sim/axi4_regression_makefile_runfolder.py:679 | the written `command_add=` token sets the options it came from |
| Reports.TokensRead | sim/synopsys_sim/axi4_regression_makefile_runfolder.py:673-679 | the seed and options tokens fill in a fresh entry's fields |
| Reports.FailureSummary | sim/synopsys_sim/axi4_regression_makefile_runfolder.py:830-836 | the console summary shows the first ten runs that did not pass, in result order, each line in full as `   - name: ` then its message or, when it has none or an empty one, its status word; plus one line counting the rest when there are more than ten |
| Slots.Pad2 | sim/synopsys_sim/axi4_regression_makefile.py:343 | `{i:02d}` has at least two digits and reads back as `i` |
| Slots.SlotNameInjective | sim/synopsys_sim/axi4_regression_makefile.py:343 | distinct folders get distinct `run_folder_NN` names |
| Slots.SlotCount | sim/synopsys_sim/axi4_regression_makefile.py:338-341 | `min(max_parallel, total)` folders: never more than either, equal to one of them, none for a negative width |
| Slots.RoundRobin | sim/synopsys_sim/axi4_regression.py:1019 | test i goes to a folder that exists, and to folder i when i < K |
| Slots.RoundRobinShares | sim/synopsys_sim/axi4_regression_makefile.py:1405 | round robin gives no exclusivity: tests i and i+K share a folder |
| Slots.SlotPool.constructor | sim/synopsys_sim/axi4_regression_makefile.py:1531-1534 | all folders start free and queued in order |
| Slots.SlotPool.Take | sim/synopsys_sim/axi4_regression_makefile.py:1554 | `get()` hands out the front folder, which was not in use, and marks it in use |
| Slots.SlotPool.Release | sim/synopsys_sim/axi4_regression_makefile.py:1605 | `put()` moves a folder in use to the back of the queue |
| Slots.RunNames | sim/synopsys_sim/axi4_regression_makefile.py:1537-1538 | the names of running tests, in order |
| Slots.Held | sim/synopsys_sim/axi4_regression_makefile.py:1537-1538 | the folders held by running tests, in order |
| Slots.StartKeepsExclusive | sim/synopsys_sim/axi4_regression_makefile.py:1554-1560 | starting a test on a free folder keeps folders exclusive |
| Slots.StartKeepsAccounted | sim/synopsys_sim/axi4_regression_makefile.py:1546-1560 | starting the next pending test keeps list order and accounts for every test |
| Slots.StartKeepsFree | sim/synopsys_sim/axi4_regression_makefile.py:1554-1560 | starting a test below the width on a folder no running test holds extends the start history by the tests then running, which are exactly the tests started before it less those finished so far |
| Slots.FinishKeepsFree | sim/synopsys_sim/axi4_regression_makefile.py:1580-1605 | a later completion leaves the start history of every test already started as it was |
| Slots.OverlapRecorded | sim/synopsys_sim/axi4_regression_makefile.py:1554-1605 | when test `b` starts while `a` runs and `b` finishes first, the history records `a` as the one running test, so the two hold different folders and the width is at least 2 |
| Slots.RoomToStart | sim/synopsys_sim/axi4_regression_makefile.py:1554 | while tests wait and fewer than the width run, a folder is free, so `get()` does not block |
| Slots.FinishKeepsExclusive | sim/synopsys_sim/axi4_regression_makefile.py:1605 | a finished test's folder returns to the queue and exclusivity holds |
| Slots.FinishKeepsAccounted | sim/synopsys_sim/axi4_regression_makefile.py:1580-1605 | a finished test moves from running to finished |
| Slots.LocalRun.constructor | sim/synopsys_sim/axi4_regression_makefile.py:1531-1539 | the parallel branch starts with every test pending and every folder free |
| Slots.LocalRun.StartNext | sim/synopsys_sim/axi4_regression_makefile.py:1543-1569 | the next pending test starts on the front folder of the queue, which none of the running tests holds; the running tests and the number of finished tests at that moment are recorded |
| Slots.LocalRun.FinishOne | sim/synopsys_sim/axi4_regression_makefile.py:1580-1608 | a finished test's result is recorded, then its folder goes to the back of the queue |
| Slots.RunSequential | sim/synopsys_sim/axi4_regression_makefile.py:1499-1525 | with one worker, every test runs in folder 0, in list order, and each result is recorded |
| Slots.RunParallel | sim/synopsys_sim/axi4_regression_makefile.py:1527-1609 | every test starts once, in list order, and finishes; results are recorded in finishing order, each from a folder below `min(width, total)`; for the k-th test started, `doneAt[k]` tests (a count that never decreases from one start to the next) had finished, the tests then running `others[k]` are exactly the tests started before it less those `doneAt[k]` finished ones (as a multiset), fewer than `width` of them ran, and none held the k-th test's folder |
| Slots.RunLocal | sim/synopsys_sim/axi4_regression_makefile.py:1494-1616 | every test runs once and its result is recorded; the same start history as `RunParallel`: at each start, the running tests are exactly those started and not yet finished, fewer than `width`, and none holds the new test's folder; with width 1, in list order and in folder 0 |
| Lsf.DigitRunOf | sim/synopsys_sim/axi4_regression_makefile.py:445 | the digits captured by `(\d+)` stop at the first non-digit |
| Lsf.FindJobId | sim/synopsys_sim/axi4_regression_makefile_runfolder.py:342 | an id found is a non-empty digit string, and `Job <id>` occurs in the reply |
| Lsf.FindJobIdLeading | sim/synopsys_sim/axi4_regression_makefile.py:445 | a reply starting `Job <digits>` yields exactly those digits |
| Lsf.FindJobIdNone | sim/synopsys_sim/axi4_regression_makefile.py:445-446 | when nothing is found, no `Job <digits>` occurs anywhere in the reply |
| Lsf.SubmittedIdRead | sim/synopsys_sim/axi4_regression_makefile.py:447 | a reply naming job n yields the digits of n, which read back as n |
| Lsf.WallMinutes | sim/synopsys_sim/axi4_regression_makefile_runfolder.py:307 | `int(timeout / 60)` is the whole minutes, truncated toward zero |
| Lsf.PollJob | sim/synopsys_sim/axi4_regression_makefile.py:518-559 | a completed job is skipped; a job is reported exactly when this poll completes it; identity fields never change |
| Lsf.PollStarts | sim/synopsys_sim/axi4_regression_makefile.py:527-530 | a pending job seen running moves from the pending to the running count and starts its clock |
| Lsf.PollTimesOut | sim/synopsys_sim/axi4_regression_makefile.py:547-557 | a running job past the limit completes as TIMEOUT when the kill succeeds, and stays running otherwise |
| Lsf.CountersDrift | sim/synopsys_sim/axi4_regression_makefile.py:526-544 | the pending and running counters are not conserved: a job going PEND, RUN, DONE over two polls is reported done and leaves the pending count one below and the running count one above its start, although the job no longer runs |
| Lsf.SweepJobs | sim/synopsys_sim/axi4_regression.py:338-379 | one monitoring pass keeps the table's keys and reports only listed jobs |
| Lsf.SweepEffect | sim/synopsys_sim/axi4_regression_makefile.py:518-559 | with distinct ids, each job is polled once against its entry from before the pass, and nothing is reported twice |
| Lsf.SweepReportsCompletions | sim/synopsys_sim/axi4_regression_makefile.py:518-559 | a pass reports exactly the jobs it completes |
| Lsf.ReportedOnce | sim/synopsys_sim/axi4_regression_makefile.py:519-520 | a job reported by one pass is not reported by the next |
| Lsf.Tracker.constructor | sim/synopsys_sim/axi4_regression_makefile.py:57-105 | the job table starts empty with zero counters |
| Lsf.Tracker.Submit | sim/synopsys_sim/axi4_regression_makefile.py:372-467 | a failed bsub or a reply without a job id is an error and changes nothing; otherwise the job is entered as PEND and counted pending |
| Lsf.Tracker.PollEntry | sim/synopsys_sim/axi4_regression_makefile.py:518-559 | the loop body updates the one job and the counters as one poll does |
| Lsf.Tracker.Poll | sim/synopsys_sim/axi4_regression_makefile.py:514-560 | the monitoring loop leaves the table and counters as one pass does, and returns the jobs it completed |
| Lsf.CompletionVerdict | sim/synopsys_sim/axi4_regression_makefile.py:1448-1468 | TIMEOUT and EXIT decide the status; otherwise a present log gives exactly the classifier's verdict on it, a missing log is ERROR with `Log file not found`, and an unreadable log is an error |
| Lsf.CompletionOutcomeV1 | sim/synopsys_sim/axi4_regression.py:970-984 | the same mapping with the v1 classifier: its verdict on a present log, ERROR with `Log file not found` on a missing one |
| Lsf.ReportedJobVerdict | sim/synopsys_sim/axi4_regression_makefile.py:1448-1468 | a job killed at the limit is recorded as TIMEOUT and an EXIT as FAIL; a DONE job with a log gets the classifier's verdict, never ERROR, and TIMEOUT exactly when the log shows a hang |
| Lsf.SubmissionOutcome | sim/synopsys_sim/axi4_regression.py:931-941 | a submission that raises is recorded at once as ERROR with `LSF submission error:` and the exception's text; a submitted job records nothing yet |
| Lsf.Rows | sim/synopsys_sim/axi4_regression_makefile_runfolder.py:380-382 | the rows are the lines after the header of the stripped reply |
| Lsf.RowOf | sim/synopsys_sim/axi4_regression_makefile_runfolder.py:383-386 | a line with at least three fields names its first field, with the third as status |
| Lsf.ApplyRow | sim/synopsys_sim/axi4_regression_makefile_runfolder.py:388-394 | a row naming a tracked job overwrites its status, and a move into DONE or EXIT reports it |
| Lsf.ApplyRows | sim/synopsys_sim/axi4_regression_makefile_runfolder.py:382-394 | the table pass applies every row, in order |
| Lsf.VanishOne | sim/synopsys_sim/axi4_regression_makefile_runfolder.py:397-412 | an unfinished job whose id is absent from the reply becomes DONE when it left output, else EXIT, and is reported |
| Lsf.Vanish | sim/synopsys_sim/axi4_regression_makefile_runfolder.py:397-412 | the disappearance pass over the table's ids, in order |
| Lsf.Monitored | sim/synopsys_sim/axi4_regression_makefile_runfolder.py:362-422 | nothing happens without tracked jobs; otherwise the table pass, then the disappearance pass |
| Lsf.ApplyRowsEffect | sim/synopsys_sim/axi4_regression_makefile_runfolder.py:382-394 | a job named by no row is untouched; one named by one row takes its status and is reported exactly when it becomes finished |
| Lsf.ApplyRowsDistinct | sim/synopsys_sim/axi4_regression_makefile_runfolder.py:382-394 | when no tracked job is named twice, each job is reported at most once |
| Lsf.MentionedContained | sim/synopsys_sim/axi4_regression_makefile_runfolder.py:398 | a row naming a job puts its id into the reply text |
| Lsf.VanishEffect | sim/synopsys_sim/axi4_regression_makefile_runfolder.py:397-412 | with distinct ids, the pass changes and reports exactly the unfinished jobs whose id is absent from the reply |
| Lsf.MonitorReportsTransitions | sim/synopsys_sim/axi4_regression_makefile_runfolder.py:362-422 | if no tracked job is named by two rows, a pass reports a job exactly when it moves from unfinished to finished |
| Lsf.FolderReportedOnce | sim/synopsys_sim/axi4_regression_makefile_runfolder.py:362-422 | a job reported by one pass is not reported by the next |
| Lsf.RowOfFields | sim/synopsys_sim/axi4_regression_makefile_runfolder.py:383-386 | a row `id user status ...` names its first field with its third as status |
| Lsf.SubstringHidesJob | sim/synopsys_sim/axi4_regression_makefile_runfolder.py:398 | a job whose id occurs inside another listed id is never found vanished |
| Lsf.RepeatedRowsReportTwice | sim/synopsys_sim/axi4_regression_makefile_runfolder.py:388-394 | rows DONE, RUN, DONE for one job report it twice in one pass |
| Lsf.FolderTracker.constructor | sim/synopsys_sim/axi4_regression_makefile_runfolder.py:39-73 | the run-folder job table starts empty |
| Lsf.FolderTracker.Submit | sim/synopsys_sim/axi4_regression_makefile_runfolder.py:294-360 | a failed bsub or a reply without an id records nothing; otherwise the job is entered under its id text as PEND |
| Lsf.FolderTracker.ReadRow | sim/synopsys_sim/axi4_regression_makefile_runfolder.py:383-394 | the loop body does what one row does |
| Lsf.FolderTracker.ReadRows | sim/synopsys_sim/axi4_regression_makefile_runfolder.py:383-394 | the row loop over the rows after the header keeps the job ids and order and leaves the table and the finished list as the table pass does |
| Lsf.FolderTracker.ReadTable | sim/synopsys_sim/axi4_regression_makefile_runfolder.py:380-394 | reading a bjobs reply keeps the tracker well formed and leaves the table as the table pass over the reply's rows does |
| Lsf.FolderTracker.SweepMissing | sim/synopsys_sim/axi4_regression_makefile_runfolder.py:397-412 | the id loop leaves the table as the disappearance pass does |
| Lsf.FolderTracker.Monitor | sim/synopsys_sim/axi4_regression_makefile_runfolder.py:362-422 | the monitor leaves the table as `Monitored` does and returns its reports |
| Lsf.ExitMessage | sim/synopsys_sim/axi4_regression_makefile_runfolder.py:450-462 | the message starts `LSF job exited with error`, carries at most 200 characters of the error file, and is bare exactly when that file is absent or empty |
| Lsf.FolderCompletion | sim/synopsys_sim/axi4_regression_makefile_runfolder.py:424-487 | nothing for an unknown id; an EXIT without a log is FAIL with the scheduler message; anything else is classified and is PASS or FAIL |
| Lsf.VanishedWithoutTraceFails | sim/synopsys_sim/axi4_regression_makefile_runfolder.py:397-462 | a job that vanished leaving neither log nor scheduler output is reported and recorded as FAIL |
| Lsf.VanishedWithoutTrace | sim/synopsys_sim/axi4_regression_makefile_runfolder.py:397-412 | such a job is reported in that pass, with status EXIT |
| Lsf.NotMentioned | sim/synopsys_sim/axi4_regression_makefile_runfolder.py:398 | a job whose id is absent from the reply is named by no row |
| Commands.LastIndexOf | sim/synopsys_sim/axi4_regression_makefile.py:140 | the last occurrence of a character, or none exactly when it is absent |
| Commands.SplitsAtLast | sim/synopsys_sim/axi4_regression_makefile.py:140 | `^(.+)_(\d+)$` can only split at the last underscore |
| Commands.BaseTestName | sim/synopsys_sim/axi4_regression_makefile.py:130-144 | a name that `^(.+)_(\d+)$` matches loses its `_<digits>` tail; any other name is kept |
| Commands.BaseNamePrefix | sim/synopsys_sim/axi4_regression_makefile.py:130-144 | the base name is the whole name or a prefix followed by `_` |
| Commands.BaseOfRunName | sim/synopsys_sim/axi4_regression_makefile.py:130-144 | the base name of repetition `name_k` is `name` |
| Commands.VariablesAppend | sim/synopsys_sim/axi4_regression_makefile.py:786-794 | a further `VAR=value` argument sets that variable and keeps the others |
| Commands.GeneratedSeed | sim/synopsys_sim/axi4_regression_makefile.py:766-769 | a generated seed lies in 0..2^31-1 |
| Commands.FixedVariables | sim/synopsys_sim/axi4_regression_makefile.py:753-757 | the first three arguments give make TEST_NAME, LOG_FILE and RUN_DIR |
| Commands.MakeVariables | sim/synopsys_sim/axi4_regression_makefile.py:753-794 | the arguments give make exactly the dictionary `_run_single_test` builds, in its insertion order |
| Commands.MapReads | sim/synopsys_sim/axi4_regression_makefile.py:753-794 | that dictionary holds the test, log, folder and seed, and holds the optional variables exactly when enabled |
| Commands.MakeReadsBack | sim/synopsys_sim/axi4_regression_makefile.py:753-794 | make sees the test, the run's own log and folder, the seed (reading back as the same number), and each option exactly when enabled |
| Commands.IntendedTestName | sim/synopsys_sim/axi4_regression_makefile.py:740 | the corrected command names the listed test for every loaded run |
| Commands.RepeatedRunsNamed | sim/synopsys_sim/axi4_regression_makefile.py:740 | as written, every repetition of a test listed with `run_cnt` > 1 runs the listed test |
| Commands.SingleRunLosesSuffix | sim/synopsys_sim/axi4_regression_makefile.py:740 | as written, a test listed once as `prefix_<digits>` runs UVM test `prefix` |
| Commands.RepetitionsAlike | sim/synopsys_sim/axi4_regression_makefile_runfolder.py:177-187 | all repetitions of one listed test run the same command and expect the same log name |
| Commands.ScriptRunsLocalCommand | sim/synopsys_sim/axi4_regression_makefile_runfolder.py:317-328 | splitting the job script's command line at blanks and double quotes gives exactly the local command's arguments, when no field holds a blank or a double quote |
| Commands.CheckArgs | sim/synopsys_sim/axi4_regression_makefile.py:1684-1696 | the arguments are accepted exactly when any `--max-parallel` is in 1..50, the timeout is at least 60 and the list exists |
| Commands.AcceptedArgsGiveFolders | sim/synopsys_sim/axi4_regression_makefile.py:1359-1361 | accepted arguments and a non-empty list give between 1 and `total` folders |
| FailedList.Prepend | sim/synopsys_sim/extract_failed_tests.py:23 | names found earlier go in front of what the rest of the scan gives, and errors pass through |
| FailedList.PrependAssoc | sim/synopsys_sim/extract_failed_tests.py:23 | prepending twice is prepending the concatenation |
| FailedList.ScanFindsWords | sim/synopsys_sim/extract_failed_tests.py:22 | every collected name is one non-empty word |
| FailedList.ReloadExtracted | sim/synopsys_sim/extract_failed_tests.py:26-28 | the list written loads back as the same names, in order |
| FailedList.ExtractFailed | sim/synopsys_sim/extract_failed_tests.py:9-23 | the extraction loop yields the scan's names, or its error |
| FailedList.ScanStep | sim/synopsys_sim/extract_failed_tests.py:13-23 | a line without markers or `Test:` is passed over |
| FailedList.ScanStopsAtPassed | sim/synopsys_sim/extract_failed_tests.py:17-19 | a `PASSED Tests` line without `FAILED Tests` ends the scan: what follows it cannot change the result |
| FailedList.ScanBeforeFailed | sim/synopsys_sim/extract_failed_tests.py:13-23 | lines before the `FAILED Tests` header that carry neither header contribute nothing |
| FailedList.ScanWithoutFailed | sim/synopsys_sim/extract_failed_tests.py:13-23 | a file with no `FAILED Tests` line yields no names |
| FailedList.ScanPassed | sim/synopsys_sim/extract_failed_tests.py:17-19 | the PASSED group ends the scan, adding nothing |
| FailedList.HeaderStopsScan | sim/synopsys_sim/extract_failed_tests.py:17-19 | a `PASSED Tests` header stops the scan |
| FailedList.HeaderOpensSection | sim/synopsys_sim/extract_failed_tests.py:14-16 | a `FAILED Tests` header opens the section |
| FailedList.ScanFailed | sim/synopsys_sim/extract_failed_tests.py:13-23 | the FAILED group yields its runs' names, in order |
| FailedList.ScanDetailed | sim/synopsys_sim/axi4_regression_makefile.py:1216-1274 | the scan over a whole detailed results file yields the FAIL/ERROR group's names |
| FailedList.ScanBack | sim/synopsys_sim/axi4_regression.py:819-870 | the FAILED then PASSED sections scan back to the FAIL/ERROR names |
| FailedList.ExtractDetailedResults | sim/synopsys_sim/extract_failed_tests.py:9-23 | extraction of a written detailed results file gives the names of the FAIL/ERROR runs, in result order (TIMEOUT runs are not extracted) |
| Markdown.Marker | doc/generate_user_guide_html.py:13-16 | the heading marker is `level` hashes and a blank |
| Markdown.LevelsKeep | doc/generate_user_guide_html.py:13-16 | a line not starting with `#` passes the heading rewrites unchanged |
| Markdown.LevelsFrom | doc/generate_user_guide_html.py:13-16 | a level-n heading becomes `<hn>` once the rewrite for its level runs, and later rewrites leave it alone |
| Markdown.HeadingOf | doc/generate_user_guide_html.py:13-16 | `# `, `## `, `### ` and `#### ` lines become h1..h4 around the rest of the line |
| Markdown.LevelsNone | doc/generate_user_guide_html.py:13-16 | a line starting with none of the remaining markers is kept |
| Markdown.NotHeading | doc/generate_user_guide_html.py:13-16 | any line that is not a heading is left alone |
| Markdown.LeadingDigits | doc/generate_user_guide_html.py:28 | the number of leading digits of a list item |
| Markdown.ListItems | doc/generate_user_guide_html.py:27-28 | `- x` becomes `<li>x</li>`, `N. x` becomes `<li>N. x</li>`, and any other line is kept |
| Markdown.CellCount | doc/generate_user_guide_html.py:44 | a line with k bars gives k-1 cells, each the stripped piece between two bars |
| Markdown.RenderSnoc | doc/generate_user_guide_html.py:35-54 | emitting one more item appends its rendering |
| Markdown.TablePass | doc/generate_user_guide_html.py:30-54 | the table loop emits the rendering of the loop's output items |
| Markdown.NestingAppend | doc/generate_user_guide_html.py:37-54 | how one emitted item changes the table nesting |
| Markdown.PassNesting | doc/generate_user_guide_html.py:35-51 | the emitted items' nesting agrees with the loop's `in_table` |
| Markdown.TablesBalanced | doc/generate_user_guide_html.py:35-54 | tables open and close alternately, never nest, and none is left open |
| Markdown.TextsAppend | doc/generate_user_guide_html.py:48-51 | one more text item extends the kept text |
| Markdown.PassTexts | doc/generate_user_guide_html.py:35-51 | the loop keeps the non-table lines, in order |
| Markdown.TextKept | doc/generate_user_guide_html.py:30-54 | every line that is not a table line comes through unchanged and in order |
| Markdown.RowsAppend | doc/generate_user_guide_html.py:44-46 | one more row item extends the rows |
| Markdown.PassRows | doc/generate_user_guide_html.py:41-46 | the loop emits one row per table line without `---` |
| Markdown.RowsKept | doc/generate_user_guide_html.py:41-46 | each table line without `---` gives one row of its cells, in order; `---` lines give none |
| Markdown.NewlineRun | doc/generate_user_guide_html.py:58 | the run of newlines a text starts with |
| Markdown.Collapse | doc/generate_user_guide_html.py:58 | `re.sub(r'\n\n+', ...)` leaves no blank line, keeps the first character and keeps the text empty exactly when it was |
| Markdown.CollapseQuiet | doc/generate_user_guide_html.py:58 | a text without blank lines is kept as it is |
| Markdown.CollapseBreak | doc/generate_user_guide_html.py:58 | a run of two or more newlines, after text with no blank line and before text not starting with a newline, becomes one paragraph break, and the rest is collapsed on its own |
| Markdown.Paragraphs | doc/generate_user_guide_html.py:57-59 | the HTML is the collapsed text inside `<p>` and `</p>` |
| Markdown.MarkdownToHtml | doc/generate_user_guide_html.py:8-61 | the converter's result is one paragraph-wrapped text of the rewritten lines |

## Left out

- Processes, threads and signals are not modelled.
  - Left out: `subprocess`, process groups, `ThreadPoolExecutor`, the locks and `stop_all`.
  - Signal handling and `KeyboardInterrupt` are left out.
  - A process ends as a `ProcessEnd` value: exited with output, timed out, or raised.
- Sleeping, the polling cadence and the waits between scheduler queries are left out.
  - The monitoring loops are modelled pass by pass.
- Wall-clock time is a parameter and durations are given in tenths of a second.
  - Left out: `timedelta`, ETA/progress printing and all console output.
  - Float formatting beyond tenths is not modelled.
- Filesystem effects are left out: folder creation and cleanup, log copying, gzip, coverage
  collection and merging. File contents enter as `Option`/`LogFile` values.
- The regex engine is a parameter, except `@\s*\d+:`, `^(.+)_(\d+)$`, `Job <(\d+)>` and the
  Markdown line anchors, which are written out. Python's `\d` also accepts non-ASCII digits; the
  model accepts ASCII digits only.
- `random.randint`, `time.time()` and `hash(test_name)` for seeds are parameters of
  `GeneratedSeed`.
- The bjobs query (`_check_lsf_job_status`) is not modelled; its reply is a parameter.
- `bkill` is modelled only as whether the kill succeeded.
- `max_parallel` defaulting to `min(8, cpu_count or 4)` in the run-folder generation depends on the
  machine and is not modelled.
- Report texts left out:
  - the makefile `_save_regression_summary`;
  - the run-folder `regression_summary` text of `_generate_reports`;
  - `_display_lsf_status`.
- The run-folder bjobs `CalledProcessError` branch is dead code, since `subprocess.run` there does
  not pass `check=True`; it is not modelled.
- A run-folder submission that fails records no job. The completed count can then never reach the
  total, and the wait loop never ends. This is not modelled.
- The makefile generation's batch mode assigns folders round robin (`i % len(folders)`) like v1,
  rather than one folder per test; `Slots.RoundRobin` covers both.
- The Markdown code, bold and italic rewrites (lines 19-24 of the converter) are one `inline`
  parameter. The HTML page template of `create_html_guide` is left out.
- The PDF documentation generators, `axi4_regression_patch.py` and the test drivers are not part
  of this model.
- Text.ParseInt: its own contract says only that a parsed token holds a digit. What `int()` yields
  is stated by `Text.ParseIntDecimal`, `Text.ParseIntNegative` and `Text.ParseIntOfIntToString`.
  It reads ASCII digits only: Python's `int()` also accepts other Unicode decimal digits, and it
  raises `ValueError` on a string of more than 4300 digits. Neither is modelled.
- Text.ToLower: it lowers ASCII letters only. Python's `lower()` also lowers other letters, and
  not always one for one: `İ` (U+0130) becomes two characters, and the Kelvin sign (U+212A)
  becomes `k`. So a log naming "ULTRASİM" or similar is not modelled.
- Slots.RunParallel: the order in which concurrent runs finish is a `pick` parameter (which
  running test completes next) rather than real timing.
- Commands.ScriptRunsLocalCommand: `Commands.ShellWords` models only how a shell splits at blanks
  and strips double quotes. Expansion is not modelled: `$`, backquotes and backslashes (also
  inside double quotes), globs, `~`, and the operators `;`, `|`, `&`, `<`, `>`. A field holding
  any of them can run differently in the job script than in the local command.
- Reports.RateTenths: it rounds the exact ratio, ties to even. Python's `:.1f` rounds the double
  nearest to `passed/total*100`, so a tie that is not exact in binary can round the other way.
  For 1 of 2000, the model writes 0.0 and Python writes 0.1. Exact binary ties agree: 1 of 16 is
  6.2 in both.
- Classifier.GenerationsAgree: it requires that the log exists and that no summary counts
  failures. Outside those runs the generations can disagree, and no lemma states how. For
  example, on `UVM Report Summary`, `UVM_ERROR : 1`, `CPU TIME` the makefile generation answers
  FAIL with the counts, while v1 can answer PASS from its `CPU TIME` completion marker.
- Classifier.ClassifyRunFolder: an exception while analysing becomes ERROR in the source. Reading
  the log cannot raise there, since that error is swallowed. `int()` on a matched count can raise,
  on a count of more than 4300 digits; the model reads every count and never answers ERROR.
- Lsf.Tracker.PollEntry: in the DONE/EXIT branch the source decrements the counters only when the
  new status is RUN or PEND, which cannot hold there. The method omits those decrements; `Lsf.PollJob`
  keeps them and proves they never fire.
- FailedList.ExtractDetailedResults: the round trip assumes the title, timestamp, messages and log
  paths hold no newline and neither group marker, and that names are single words.

## Findings

| source | as written | input that shows it | evidently intended | confidence | as-written member | corrected member |
|---|---|---|---|---|---|---|
| sim/synopsys_sim/axi4_regression_makefile.py:740 | `TEST_NAME` is `_extract_base_test_name(run name)`, which strips any `_<digits>` tail | a test listed once as `axi4_burst_16` (no `run_cnt`) runs UVM test `axi4_burst` | `TEST_NAME` is the listed test name, which the loader keeps as `base_name` | medium, not executed | Commands.SingleRunLosesSuffix | Commands.IntendedTestName |
