/** Execution folders: their `run_folder_NN` names, how many there are, the makefile
    generation's queue of free folders for local runs, and the round-robin assignment of the
    v1 generation and of batch mode. The thread pool is modelled one completion at a time;
    which running test finishes next is an input. */
module Slots {
  import opened Common
  import opened Text
  import opened Session

  // ---------------------------------------------------------------- names and count

  /** `f"{i:02d}"`: at least two digits, zero-padded, reading back as `i`. */
  function Pad2(i: nat): (s: string)
    ensures |s| >= 2 && AllDigits(s) && DigitsValue(s) == i
  {
    if i < 10 then
      var s := "0" + NatToString(i);
      assert s[..|s| - 1] == "0" && s[|s| - 1] == DigitChar(i);
      assert "0"[..0] == [];
      s
    else
      DigitsValueOfNatToString(i);
      NatToString(i)
  }

  /** The name of execution folder `i`. */
  function SlotName(i: nat): string {
    "run_folder_" + Pad2(i)
  }

  /** Distinct folders have distinct names. */
  lemma SlotNameInjective(i: nat, j: nat)
    requires SlotName(i) == SlotName(j)
    ensures i == j
  {
    var p := "run_folder_";
    assert SlotName(i)[|p|..] == Pad2(i);
    assert SlotName(j)[|p|..] == Pad2(j);
  }

  /** `min(max_parallel, total_tests)` folders; `range` of a negative count is empty. */
  function SlotCount(maxParallel: int, total: nat): (n: nat)
    ensures n <= total && (maxParallel < 0 ==> n == 0)
    ensures maxParallel >= 0 ==> n <= maxParallel && (n == total || n == maxParallel)
  {
    if maxParallel < total then (if maxParallel < 0 then 0 else maxParallel) else total
  }

  /** Round-robin: the v1 generation (local and batch) and the makefile generation's batch
      mode put the `i`-th test in folder `i mod K`. */
  function RoundRobin(i: nat, folders: nat): (f: nat)
    requires folders > 0
    ensures f < folders && (i < folders ==> f == i)
  {
    i % folders
  }

  /** Round-robin gives no exclusivity: with fewer folders than tests, tests `i` and `i + K`
      share a folder. */
  lemma RoundRobinShares(i: nat, folders: nat)
    requires folders > 0
    ensures RoundRobin(i, folders) == RoundRobin(i + folders, folders)
  {
    var q := i / folders;
    var r := i % folders;
    assert i == q * folders + r;
    assert i + folders == (q + 1) * folders + r;
    ModOf(i + folders, folders, q + 1, r);
  }

  lemma ModOf(a: nat, d: nat, q: nat, r: nat)
    requires 0 <= r < d && a == q * d + r
    ensures a % d == r
  {
    var q' := a / d;
    var r' := a % d;
    assert a == q' * d + r';
    if q' < q {
      MulLe(q' + 1, q, d);
      assert false;
    } else if q' > q {
      MulLe(q + 1, q', d);
      assert false;
    }
  }

  lemma MulLe(x: nat, y: nat, d: nat)
    requires x <= y
    ensures x * d <= y * d
  {
    assert y * d == x * d + (y - x) * d;
  }


  // ---------------------------------------------------------------- the pool of free folders

  /** The makefile generation's queue of free folders, plus the folders in use. */
  class SlotPool {
    const size: nat
    var free: seq<nat>
    var busy: set<nat>

    /** Each folder is either queued once or in use, never both. */
    ghost predicate Valid()
      reads this
    {
      Distinct(free) &&
      (forall k | 0 <= k < |free| :: free[k] < size && free[k] !in busy) &&
      (forall s | s in busy :: s < size) &&
      |free| + |busy| == size
    }

    /** All folders start free, in order. */
    constructor (size: nat)
      ensures Valid() && this.size == size && busy == {}
      ensures |free| == size && forall k | 0 <= k < size :: free[k] == k
    {
      this.size := size;
      free := seq(size, k => k);
      busy := {};
    }

    /** `available_folders.get()`: the folder at the front of the queue. */
    method Take() returns (slot: nat)
      requires Valid() && free != []
      modifies this
      ensures Valid()
      ensures slot == old(free)[0] && slot !in old(busy)
      ensures free == old(free)[1..] && busy == old(busy) + {slot}
    {
      slot := free[0];
      free := free[1..];
      busy := busy + {slot};
    }

    /** `available_folders.put(...)`: a folder in use goes to the back of the queue. */
    method Release(slot: nat)
      requires Valid() && slot in busy
      modifies this
      ensures Valid()
      ensures free == old(free) + [slot] && busy == old(busy) - {slot}
    {
      free := free + [slot];
      busy := busy - {slot};
    }
  }

  /** A test and the folder it runs in. */
  datatype Running = Running(name: string, slot: nat)

  function RunNames(rs: seq<Running>): (ns: seq<string>)
    ensures |ns| == |rs| && forall k | 0 <= k < |rs| :: ns[k] == rs[k].name
  {
    seq(|rs|, k requires 0 <= k < |rs| => rs[k].name)
  }

  function Held(rs: seq<Running>): (ss: seq<nat>)
    ensures |ss| == |rs| && forall k | 0 <= k < |rs| :: ss[k] == rs[k].slot
  {
    seq(|rs|, k requires 0 <= k < |rs| => rs[k].slot)
  }

  // ---------------------------------------------------------------- parallel local runs

  /** No two running tests share a folder, each holds a folder in use, and as many folders
      are in use as tests run. */
  ghost predicate Exclusive(active: seq<Running>, busy: set<nat>) {
    Distinct(Held(active)) && |busy| == |active| &&
    forall k | 0 <= k < |active| :: active[k].slot in busy
  }

  /** Tests start in list order, and every started test is running or finished. */
  ghost predicate Accounted(tests: seq<string>, started: seq<Running>, pending: seq<string>,
                            finished: seq<Running>, active: seq<Running>) {
    RunNames(started) + pending == tests &&
    multiset(started) == multiset(finished) + multiset(active)
  }

  /** The results are the finished runs' results, in finishing order, each from a folder of
      the pool. */
  ghost predicate Recorded(finished: seq<Running>, results: seq<JobResult>,
                           run: (string, nat) -> JobResult, size: nat) {
    |results| == |finished| &&
    forall k | 0 <= k < |finished| ::
      finished[k].slot < size && results[k] == run(finished[k].name, finished[k].slot)
  }

  lemma StartKeepsExclusive(active: seq<Running>, busy: set<nat>, r: Running)
    requires Exclusive(active, busy) && r.slot !in busy
    ensures Exclusive(active + [r], busy + {r.slot})
  {
    assert forall k | 0 <= k < |active| :: active[k].slot != r.slot;
  }

  /** The start history: when the `k`-th test started, the first `doneAt[k]` finishing tests
      had finished, so the tests then running were exactly `others[k]`, the tests started
      before it less those; fewer than `width` of them ran, and none held its folder. */
  ghost predicate FreeAtStart(started: seq<Running>, finished: seq<Running>, others: seq<seq<Running>>,
                              doneAt: seq<nat>, width: nat) {
    |others| == |started| && |doneAt| == |started| &&
    (forall k | 0 <= k < |started| ::
       doneAt[k] <= |finished| && |others[k]| < width && started[k].slot !in Held(others[k]) &&
       multiset(others[k]) + multiset(finished[..doneAt[k]]) == multiset(started[..k])) &&
    forall j, k | 0 <= j < k < |started| :: doneAt[j] <= doneAt[k]
  }

  /** Starting a test on a folder no running test holds, below the width, extends the history
      by the running tests and the finishing count of that moment. */
  lemma StartKeepsFree(started: seq<Running>, finished: seq<Running>, others: seq<seq<Running>>,
                       doneAt: seq<nat>, width: nat, active: seq<Running>, r: Running)
    requires FreeAtStart(started, finished, others, doneAt, width)
    requires r.slot !in Held(active) && |active| < width
    requires multiset(started) == multiset(finished) + multiset(active)
    ensures FreeAtStart(started + [r], finished, others + [active], doneAt + [|finished|], width)
  {
    var s := started + [r];
    assert s[..|started|] == started;
    assert finished[..|finished|] == finished;
    forall k | 0 <= k < |started|
      ensures s[..k] == started[..k]
    {
    }
  }

  /** A test finishing later leaves the history as it was. */
  lemma FinishKeepsFree(started: seq<Running>, finished: seq<Running>, others: seq<seq<Running>>,
                        doneAt: seq<nat>, width: nat, r: Running)
    requires FreeAtStart(started, finished, others, doneAt, width)
    ensures FreeAtStart(started, finished + [r], others, doneAt, width)
  {
    var f := finished + [r];
    forall k | 0 <= k < |started|
      ensures f[..doneAt[k]] == finished[..doneAt[k]]
    {
    }
  }

  /** The history pins the running tests down: when `b` starts while `a` runs and finishes
      after it, `a` is recorded as running, so the two hold different folders. */
  lemma OverlapRecorded(a: Running, b: Running, others: seq<seq<Running>>, doneAt: seq<nat>, width: nat)
    requires a != b && FreeAtStart([a, b], [b, a], others, doneAt, width)
    ensures others[1] == [a] && a.slot != b.slot && width >= 2
  {
    var f := [b, a];
    var d := doneAt[1];
    assert multiset(others[1]) + multiset(f[..d]) == multiset([a]);
    if d != 0 {
      assert false;
    }
    assert f[..0] == [];
    assert multiset(others[1]) == multiset{a};
    assert |others[1]| == 1;
    assert others[1][0] in multiset(others[1]);
    assert others[1] == [a];
    assert Held(others[1])[0] == a.slot;
  }

  lemma StartKeepsAccounted(tests: seq<string>, started: seq<Running>, pending: seq<string>,
                            finished: seq<Running>, active: seq<Running>, r: Running)
    requires Accounted(tests, started, pending, finished, active) && pending != [] && r.name == pending[0]
    ensures Accounted(tests, started + [r], pending[1..], finished, active + [r])
  {
    assert RunNames(started + [r]) == RunNames(started) + [r.name];
  }

  /** While tests wait and fewer than `width` run, fewer than `min(width, |tests|)` run. */
  lemma RoomToStart(tests: seq<string>, started: seq<Running>, pending: seq<string>,
                    finished: seq<Running>, active: seq<Running>, width: nat)
    requires Accounted(tests, started, pending, finished, active) && pending != [] && |active| < width
    ensures |active| < SlotCount(width, |tests|)
  {
    assert |multiset(started)| == |started| == |finished| + |active|;
    assert |RunNames(started) + pending| == |tests|;
  }

  lemma FinishKeepsExclusive(active: seq<Running>, busy: set<nat>, i: nat)
    requires Exclusive(active, busy) && i < |active|
    ensures Exclusive(active[..i] + active[i + 1..], busy - {active[i].slot})
  {
    var rest := active[..i] + active[i + 1..];
    var slot := active[i].slot;
    forall k | 0 <= k < |rest|
      ensures rest[k].slot in busy - {slot}
    {
      if k < i {
        assert rest[k] == active[k];
      } else {
        assert rest[k] == active[k + 1];
      }
    }
    forall a, b | 0 <= a < b < |rest|
      ensures Held(rest)[a] != Held(rest)[b]
    {
      var a' := if a < i then a else a + 1;
      var b' := if b < i then b else b + 1;
      assert rest[a] == active[a'] && rest[b] == active[b'];
    }
  }

  lemma FinishKeepsRecorded(finished: seq<Running>, results: seq<JobResult>,
                            run: (string, nat) -> JobResult, size: nat, r: Running)
    requires Recorded(finished, results, run, size) && r.slot < size
    ensures Recorded(finished + [r], results + [run(r.name, r.slot)], run, size)
  {
  }

  lemma FinishKeepsAccounted(tests: seq<string>, started: seq<Running>, pending: seq<string>,
                             finished: seq<Running>, active: seq<Running>, i: nat)
    requires Accounted(tests, started, pending, finished, active) && i < |active|
    ensures Accounted(tests, started, pending, finished + [active[i]], active[..i] + active[i + 1..])
  {
    assert active == active[..i] + [active[i]] + active[i + 1..];
  }

  /** The state of `_run_local_regression`'s parallel branch: the tests not yet started, the
      running tests with their folders, the pool and the results. `run(name, slot)` is the
      result of running test `name` in folder `slot`. */
  class LocalRun {
    const tests: seq<string>
    const width: nat
    const run: (string, nat) -> JobResult
    const pool: SlotPool
    const tally: Tally
    var pending: seq<string>
    var active: seq<Running>
    ghost var started: seq<Running>
    ghost var finished: seq<Running>
    /** For each started test, the tests that were running when it started, and how many
        tests had finished by then. */
    ghost var others: seq<seq<Running>>
    ghost var doneAt: seq<nat>

    ghost predicate Valid()
      reads this, pool, tally
    {
      pool.Valid() && tally.Valid() && pool.size == SlotCount(width, |tests|) &&
      Exclusive(active, pool.busy) && FreeAtStart(started, finished, others, doneAt, width) &&
      Accounted(tests, started, pending, finished, active) &&
      Recorded(finished, tally.results, run, pool.size)
    }

    constructor (tests: seq<string>, width: nat, run: (string, nat) -> JobResult)
      ensures Valid() && fresh(pool) && fresh(tally)
      ensures this.tests == tests && this.width == width && this.run == run
      ensures pending == tests && active == [] && started == [] && finished == []
    {
      this.tests := tests;
      this.width := width;
      this.run := run;
      pool := new SlotPool(SlotCount(width, |tests|));
      tally := new Tally(|tests|);
      pending := tests;
      active := [];
      started := [];
      finished := [];
      others := [];
      doneAt := [];
      assert RunNames([]) + tests == tests;
    }

    /** `submit_test_when_folder_available`: the next test takes the folder at the front of
        the queue. Below the parallelism limit with tests left, the queue is never empty, so
        the source's blocking `get` never waits. */
    method StartNext()
      requires Valid() && pending != [] && |active| < width
      modifies this, pool
      ensures Valid() && unchanged(tally)
      ensures old(pool.free) != [] && active == old(active) + [Running(old(pending)[0], old(pool.free)[0])]
      ensures pending == old(pending)[1..] && finished == old(finished)
      ensures others == old(others) + [old(active)] && doneAt == old(doneAt) + [|old(finished)|]
      ensures old(pool.free)[0] !in Held(old(active))
    {
      RoomToStart(tests, started, pending, finished, active, width);
      var slot := pool.Take();
      var r := Running(pending[0], slot);
      StartKeepsExclusive(active, old(pool.busy), r);
      StartKeepsAccounted(tests, started, pending, finished, active, r);
      assert r.slot !in Held(active);
      StartKeepsFree(started, finished, others, doneAt, width, active, r);
      others := others + [active];
      doneAt := doneAt + [|finished|];
      active := active + [r];
      started := started + [r];
      pending := pending[1..];
    }

    /** One completion: the `i`-th running test's result is recorded, then its folder goes
        back to the queue. */
    method FinishOne(i: nat)
      requires Valid() && i < |active|
      modifies this, pool, tally
      ensures Valid()
      ensures active == old(active[..i] + active[i + 1..]) && pending == old(pending)
      ensures finished == old(finished) + [old(active[i])] && others == old(others) && doneAt == old(doneAt)
      ensures tally.results == old(tally.results) + [run(old(active[i]).name, old(active[i]).slot)]
      ensures pool.free == old(pool.free) + [old(active[i]).slot]
    {
      var r := active[i];
      FinishKeepsExclusive(active, pool.busy, i);
      FinishKeepsAccounted(tests, started, pending, finished, active, i);
      FinishKeepsFree(started, finished, others, doneAt, width, r);
      FinishKeepsRecorded(finished, tally.results, run, pool.size, r);
      tally.Record(run(r.name, r.slot));
      pool.Release(r.slot);
      active := active[..i] + active[i + 1..];
      finished := finished + [r];
    }
  }

  /** The sequential branch of `_run_local_regression`: every test runs in folder 0, in list
      order. */
  method RunSequential(tests: seq<string>, run: (string, nat) -> JobResult) returns (results: seq<JobResult>)
    ensures |results| == |tests| && forall k | 0 <= k < |tests| :: results[k] == run(tests[k], 0)
  {
    var tally := new Tally(|tests|);
    var k := 0;
    while k < |tests|
      invariant 0 <= k <= |tests| && tally.Valid()
      invariant |tally.results| == k && forall j | 0 <= j < k :: tally.results[j] == run(tests[j], 0)
    {
      tally.Record(run(tests[k], 0));
      k := k + 1;
    }
    results := tally.results;
  }

  /** The parallel branch of `_run_local_regression`: the first tests start while folders
      and workers are free; each completion (the `pick`-chosen running test) records its
      result, returns its folder and starts the next test. Every test is started once, in
      list order, and finishes once; `finished` lists the runs in finishing order. */
  method RunParallel(tests: seq<string>, width: nat, run: (string, nat) -> JobResult, pick: nat -> nat)
      returns (results: seq<JobResult>, ghost started: seq<Running>, ghost finished: seq<Running>,
               ghost others: seq<seq<Running>>, ghost doneAt: seq<nat>)
    requires 1 <= width
    ensures RunNames(started) == tests && multiset(finished) == multiset(started)
    ensures Recorded(finished, results, run, SlotCount(width, |tests|))
    ensures FreeAtStart(started, finished, others, doneAt, width)
  {
    var state := new LocalRun(tests, width, run);
    while |state.active| < width && state.pending != []
      invariant state.Valid() && |state.active| <= width
      invariant fresh(state.pool) && fresh(state.tally)
      decreases |state.pending|
    {
      state.StartNext();
    }
    var step := 0;
    while state.active != []
      invariant state.Valid() && |state.active| <= width
      invariant fresh(state.pool) && fresh(state.tally)
      invariant state.pending != [] ==> state.active != []
      decreases |state.pending| + |state.active|
    {
      var i := pick(step) % |state.active|;
      state.FinishOne(i);
      if state.pending != [] {
        state.StartNext();
      }
      step := step + 1;
    }
    assert RunNames(state.started) + [] == RunNames(state.started);
    results := state.tally.results;
    started := state.started;
    finished := state.finished;
    others := state.others;
    doneAt := state.doneAt;
  }

  /** `_run_local_regression`: every test runs once and its result is recorded when it
      finishes, from one of `min(max_parallel, total)` folders; one worker runs the tests in
      list order in the first folder. */
  method RunLocal(tests: seq<string>, width: nat, run: (string, nat) -> JobResult, pick: nat -> nat)
      returns (results: seq<JobResult>, ghost started: seq<Running>, ghost finished: seq<Running>,
               ghost others: seq<seq<Running>>, ghost doneAt: seq<nat>)
    requires 1 <= width
    ensures RunNames(started) == tests && multiset(finished) == multiset(started)
    ensures Recorded(finished, results, run, SlotCount(width, |tests|))
    ensures FreeAtStart(started, finished, others, doneAt, width)
    ensures width == 1 ==> finished == started && forall k | 0 <= k < |tests| :: finished[k].slot == 0
  {
    if width == 1 {
      results := RunSequential(tests, run);
      started := seq(|tests|, k requires 0 <= k < |tests| => Running(tests[k], 0));
      finished := started;
      others := seq(|tests|, k requires 0 <= k < |tests| => []);
      doneAt := seq(|tests|, k requires 0 <= k < |tests| => k);
    } else {
      results, started, finished, others, doneAt := RunParallel(tests, width, run, pick);
    }
  }
}
