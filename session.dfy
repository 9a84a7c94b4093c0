// A regression session's bookkeeping: the list of finished runs and the counters kept beside
// it, the grouping of results by status that every report uses, and the exit code.

module Session {
  import opened Common
  import opened Text
  import opened Classifier

  /** One finished run. `tenths` is its wall time in tenths of a second; `seed` and
      `commandAdd` are the run-folder generation's extra fields (none elsewhere). */
  datatype JobResult = JobResult(
    name: string,
    status: Status,
    tenths: nat,
    logFile: string,
    message: Option<string>,
    folderId: nat,
    uvmErrors: nat,
    uvmFatals: nat,
    seed: Option<string>,
    commandAdd: Option<string>)

  /** Python truthiness of an optional string field: present and non-empty. */
  predicate Given(s: Option<string>) {
    s.Some? && s.value != []
  }

  const NotPass: set<Status> := {Fail, Timeout, Error}

  // ---------------------------------------------------------------- selecting by status

  /** `[r for r in results if r.status in wanted]` */
  function Select(rs: seq<JobResult>, wanted: set<Status>): (sel: seq<JobResult>)
    ensures |sel| <= |rs|
    ensures forall k | 0 <= k < |sel| :: sel[k].status in wanted
    decreases |rs|
  {
    if rs == [] then []
    else
      var last := rs[|rs| - 1];
      Select(rs[..|rs| - 1], wanted) + (if last.status in wanted then [last] else [])
  }

  /** The selection keeps exactly the results whose status is wanted. */
  lemma {:induction false} SelectMembers(rs: seq<JobResult>, wanted: set<Status>, r: JobResult)
    ensures r in Select(rs, wanted) <==> r in rs && r.status in wanted
    decreases |rs|
  {
    if rs != [] {
      var init := rs[..|rs| - 1];
      SelectMembers(init, wanted, r);
      assert rs == init + [rs[|rs| - 1]];
    }
  }

  /** Selections by disjoint status sets together hold what the selection by their union
      holds, counting repetitions. */
  lemma {:induction false} SelectSplit(rs: seq<JobResult>, a: set<Status>, b: set<Status>)
    requires a !! b
    ensures multiset(Select(rs, a)) + multiset(Select(rs, b)) == multiset(Select(rs, a + b))
    decreases |rs|
  {
    if rs != [] {
      SelectSplit(rs[..|rs| - 1], a, b);
    }
  }

  /** Selecting every status present keeps the whole list. */
  lemma {:induction false} SelectAll(rs: seq<JobResult>, wanted: set<Status>)
    requires forall k | 0 <= k < |rs| :: rs[k].status in wanted
    ensures Select(rs, wanted) == rs
    decreases |rs|
  {
    if rs != [] {
      SelectAll(rs[..|rs| - 1], wanted);
    }
  }

  lemma StatusesCovered(rs: seq<JobResult>)
    ensures forall k | 0 <= k < |rs| :: rs[k].status in {Pass} + NotPass
  {
    forall k | 0 <= k < |rs|
      ensures rs[k].status in {Pass} + NotPass
    {
      match rs[k].status
      case Pass =>
      case Fail =>
      case Timeout =>
      case Error =>
    }
  }

  /** PASS and non-PASS selections split the results. */
  lemma PassSplit(rs: seq<JobResult>)
    ensures multiset(Select(rs, {Pass})) + multiset(Select(rs, NotPass)) == multiset(rs)
    ensures |Select(rs, {Pass})| + |Select(rs, NotPass)| == |rs|
  {
    SelectSplit(rs, {Pass}, NotPass);
    StatusesCovered(rs);
    SelectAll(rs, {Pass} + NotPass);
    assert |multiset(Select(rs, {Pass}))| + |multiset(Select(rs, NotPass))| == |multiset(rs)|;
  }

  // ---------------------------------------------------------------- the report groups

  function TimeoutGroup(rs: seq<JobResult>): seq<JobResult> {
    Select(rs, {Timeout})
  }

  function FailGroup(rs: seq<JobResult>): seq<JobResult> {
    Select(rs, {Fail, Error})
  }

  function PassGroup(rs: seq<JobResult>): seq<JobResult> {
    Select(rs, {Pass})
  }

  /** The detailed report's TIMEOUT, FAIL/ERROR and PASS groups partition the results,
      counting repetitions; each group keeps result order (by `Select`). */
  lemma GroupsPartition(rs: seq<JobResult>)
    ensures multiset(TimeoutGroup(rs) + FailGroup(rs) + PassGroup(rs)) == multiset(rs)
    ensures |TimeoutGroup(rs)| + |FailGroup(rs)| + |PassGroup(rs)| == |rs|
  {
    var failing: set<Status> := {Timeout} + {Fail, Error};
    SelectSplit(rs, {Timeout}, {Fail, Error});
    SelectSplit(rs, failing, {Pass});
    assert failing + {Pass} == {Pass} + NotPass;
    StatusesCovered(rs);
    SelectAll(rs, {Pass} + NotPass);
    assert |multiset(TimeoutGroup(rs) + FailGroup(rs) + PassGroup(rs))| == |multiset(rs)|;
  }

  /** Each result lands in the group of its status, and so in exactly one group. */
  lemma GroupsExclusive(rs: seq<JobResult>, r: JobResult)
    requires r in rs
    ensures r in TimeoutGroup(rs) <==> r.status == Timeout
    ensures r in FailGroup(rs) <==> r.status == Fail || r.status == Error
    ensures r in PassGroup(rs) <==> r.status == Pass
  {
    SelectMembers(rs, {Timeout}, r);
    SelectMembers(rs, {Fail, Error}, r);
    SelectMembers(rs, {Pass}, r);
  }

  /** The names of a list of results, in order. */
  function Names(rs: seq<JobResult>): seq<string> {
    seq(|rs|, k requires 0 <= k < |rs| => rs[k].name)
  }

  /** `idx` lists, in increasing order, exactly the positions of `rs` whose status is wanted. */
  predicate Enumerates(rs: seq<JobResult>, idx: seq<nat>, wanted: set<Status>) {
    (forall j | 0 <= j < |idx| :: idx[j] < |rs| && rs[idx[j]].status in wanted) &&
    (forall i, j | 0 <= i < j < |idx| :: idx[i] < idx[j]) &&
    (forall k | 0 <= k < |rs| && rs[k].status in wanted :: k in idx)
  }

  /** The results at the given positions, in that order. */
  function At(rs: seq<JobResult>, idx: seq<nat>): seq<JobResult>
    requires forall j | 0 <= j < |idx| :: idx[j] < |rs|
  {
    seq(|idx|, j requires 0 <= j < |idx| => rs[idx[j]])
  }

  /** A selection is the list of wanted results in their original order, none left out. */
  lemma {:induction false} SelectEnumerates(rs: seq<JobResult>, wanted: set<Status>) returns (idx: seq<nat>)
    ensures Enumerates(rs, idx, wanted) && Select(rs, wanted) == At(rs, idx)
    decreases |rs|
  {
    if rs == [] {
      idx := [];
    } else {
      var prev := SelectEnumerates(rs[..|rs| - 1], wanted);
      idx := EnumeratesSnoc(rs, prev, wanted);
    }
  }

  lemma EnumeratesSnoc(rs: seq<JobResult>, prev: seq<nat>, wanted: set<Status>) returns (idx: seq<nat>)
    requires rs != [] && Enumerates(rs[..|rs| - 1], prev, wanted)
    ensures Enumerates(rs, idx, wanted)
    ensures At(rs, idx) == At(rs[..|rs| - 1], prev) + (if rs[|rs| - 1].status in wanted then [rs[|rs| - 1]] else [])
  {
    var last := |rs| - 1;
    idx := if rs[last].status in wanted then prev + [last] else prev;
    AtSnoc(rs, prev);
    CompleteSnoc(rs, prev, idx, wanted);
    assert forall j | 0 <= j < |prev| :: idx[j] == prev[j] && rs[prev[j]] == rs[..last][prev[j]];
  }

  lemma AtSnoc(rs: seq<JobResult>, prev: seq<nat>)
    requires rs != [] && forall j | 0 <= j < |prev| :: prev[j] < |rs| - 1
    ensures At(rs, prev) == At(rs[..|rs| - 1], prev)
    ensures At(rs, prev + [|rs| - 1]) == At(rs[..|rs| - 1], prev) + [rs[|rs| - 1]]
  {
    var init := rs[..|rs| - 1];
    assert forall j | 0 <= j < |prev| :: rs[prev[j]] == init[prev[j]];
    var idx := prev + [|rs| - 1];
    var lhs, rhs := At(rs, idx), At(init, prev) + [rs[|rs| - 1]];
    assert forall j | 0 <= j < |lhs| :: lhs[j] == rhs[j];
  }

  lemma CompleteSnoc(rs: seq<JobResult>, prev: seq<nat>, idx: seq<nat>, wanted: set<Status>)
    requires rs != [] && forall k | 0 <= k < |rs| - 1 && rs[k].status in wanted :: k in prev
    requires idx == if rs[|rs| - 1].status in wanted then prev + [|rs| - 1] else prev
    ensures forall k | 0 <= k < |rs| && rs[k].status in wanted :: k in idx
  {
  }

  lemma SelectInOrder(rs: seq<JobResult>, wanted: set<Status>)
    ensures exists idx :: Enumerates(rs, idx, wanted) && Select(rs, wanted) == At(rs, idx)
  {
    var idx := SelectEnumerates(rs, wanted);
  }

  /** `no_pass_list`: the names of the runs that did not pass, in result order, one a line. */
  function NoPassNames(rs: seq<JobResult>): (ns: seq<string>)
    ensures |ns| == |rs| - |Select(rs, {Pass})|
    ensures exists idx :: Enumerates(rs, idx, NotPass) && ns == Names(At(rs, idx))
  {
    PassSplit(rs);
    SelectInOrder(rs, NotPass);
    Names(Select(rs, NotPass))
  }

  /** Every run that did not pass is named in the list, and only those runs are. */
  lemma NoPassNamesExact(rs: seq<JobResult>, n: string)
    ensures n in NoPassNames(rs) <==> exists k | 0 <= k < |rs| :: rs[k].name == n && rs[k].status != Pass
  {
    var ns := NoPassNames(rs);
    var idx :| Enumerates(rs, idx, NotPass) && ns == Names(At(rs, idx));
    if n in ns {
      var j :| 0 <= j < |ns| && ns[j] == n;
      NameAt(rs, idx, j);
    }
    if k :| 0 <= k < |rs| && rs[k].name == n && rs[k].status != Pass {
      assert rs[k].status in NotPass;
      assert k in idx;
      var j :| 0 <= j < |idx| && idx[j] == k;
      NameAt(rs, idx, j);
    }
  }

  lemma NameAt(rs: seq<JobResult>, idx: seq<nat>, j: nat)
    requires (forall i | 0 <= i < |idx| :: idx[i] < |rs|) && j < |idx|
    ensures |Names(At(rs, idx))| == |idx| && Names(At(rs, idx))[j] == rs[idx[j]].name
  {
  }

  /** The exit code: 1 exactly when some test failed. */
  function ExitCode(failed: nat): (code: int)
    ensures code == 0 || code == 1
    ensures code == 1 <==> failed > 0
  {
    if failed > 0 then 1 else 0
  }

  /** A run that did not pass is counted among the failures. */
  lemma NotPassCounted(rs: seq<JobResult>)
    ensures |Select(rs, NotPass)| > 0 <==> exists k | 0 <= k < |rs| :: rs[k].status != Pass
  {
    var failed := Select(rs, NotPass);
    if |failed| > 0 {
      SelectMembers(rs, NotPass, failed[0]);
    }
    if k :| 0 <= k < |rs| && rs[k].status != Pass {
      SelectMembers(rs, NotPass, rs[k]);
    }
  }

  // ---------------------------------------------------------------- the session object

  /** The counters and result list a runner keeps while the regression runs. */
  class Tally {
    var results: seq<JobResult>
    var total: nat
    var completed: nat
    var passed: nat
    var failed: nat

    /** Every result is counted once, as passed or as failed (TIMEOUT and ERROR are failures). */
    predicate Valid()
      reads this
    {
      completed == |results| &&
      passed == |Select(results, {Pass})| &&
      failed == |Select(results, NotPass)| &&
      passed + failed == completed
    }

    constructor(total: nat)
      ensures Valid()
      ensures this.total == total && results == [] && completed == 0 && passed == 0 && failed == 0
    {
      this.total := total;
      results := [];
      completed := 0;
      passed := 0;
      failed := 0;
    }

    /** `_update_progress` / `_process_result`: append the result and count it. */
    method Record(r: JobResult)
      requires Valid()
      modifies this
      ensures Valid()
      ensures results == old(results) + [r] && total == old(total)
      ensures completed == old(completed) + 1
      ensures passed == old(passed) + (if r.status == Pass then 1 else 0)
      ensures failed == old(failed) + (if r.status == Pass then 0 else 1)
    {
      PassSplit(results + [r]);
      assert (results + [r])[..|results|] == results;
      results := results + [r];
      completed := completed + 1;
      if r.status == Pass {
        passed := passed + 1;
      } else {
        failed := failed + 1;
      }
    }

    /** `_print_summary`'s return value. */
    function Exit(): (code: int)
      reads this
      requires Valid()
      ensures code == 1 <==> exists k | 0 <= k < |results| :: results[k].status != Pass
      ensures code == 0 || code == 1
    {
      NotPassCounted(results);
      ExitCode(failed)
    }
  }

  /** Pass rate in percent; the run-folder generation reports 0 for an empty regression. */
  function PassRate(passed: nat, total: nat): (rate: real)
    ensures total == 0 ==> rate == 0.0
    ensures passed <= total ==> 0.0 <= rate <= 100.0
    ensures total > 0 && passed == total ==> rate == 100.0
  {
    if total > 0 then (passed as real) / (total as real) * 100.0 else 0.0
  }
}
