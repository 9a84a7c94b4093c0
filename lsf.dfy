/** The batch-scheduler (LSF) side of the regression runners: reading the job id from
    `bsub`'s reply, the polling state machine of the v1 and makefile generations (a job table
    plus pending/running counters), the run-folder generation's `bjobs` table reader with its
    disappearance rule, and the mapping from a finished job to a verdict. The scheduler's
    replies, the outcome of `bkill` and the files a job leaves behind are inputs. */
module Lsf {
  import opened Common
  import opened Text
  import opened Classifier

  // ---------------------------------------------------------------- submission

  /** Length of the run of ASCII digits that starts `s`. */
  function DigitRun(s: string): (n: nat)
    ensures n <= |s| && AllDigits(s[..n])
    ensures n < |s| ==> !IsDigit(s[n])
    decreases |s|
  {
    if s != [] && IsDigit(s[0]) then 1 + DigitRun(s[1..]) else 0
  }

  lemma {:induction false} DigitRunOf(d: string, rest: string)
    requires AllDigits(d) && (rest == [] || !IsDigit(rest[0]))
    ensures DigitRun(d + rest) == |d|
    decreases |d|
  {
    if d != [] {
      assert (d + rest)[1..] == d[1..] + rest;
      DigitRunOf(d[1..], rest);
    } else {
      assert d + rest == rest;
    }
  }

  /** The digits of a `Job <digits>` occurrence that begins exactly at the front of `s`. */
  function JobIdAt(s: string): Option<string> {
    if StartsWith(s, "Job <") then
      var n := DigitRun(s[5..]);
      if n > 0 && 5 + n < |s| && s[5 + n] == '>' then Some(s[5..5 + n]) else None
    else
      None
  }

  /** `re.search(r'Job <(\d+)>', out)`: the digits of the leftmost occurrence. */
  function FindJobId(out: string): (id: Option<string>)
    ensures id.Some? ==> id.value != [] && AllDigits(id.value) && Contains(out, "Job <" + id.value + ">")
    decreases |out|
  {
    var here := JobIdAt(out);
    if here.Some? then
      var n := DigitRun(out[5..]);
      assert here.value == out[5..][..n] == out[5..5 + n];
      assert |"Job <" + here.value + ">"| == 5 + n + 1;
      assert out[0..5 + n + 1] == "Job <" + here.value + ">";
      ContainsAt(out, "Job <" + here.value + ">", 0);
      here
    else if out == [] then None
    else FindJobId(out[1..])
  }

  /** A reply that starts with `Job <digits>` yields exactly those digits. */
  lemma FindJobIdLeading(d: string, rest: string)
    requires d != [] && AllDigits(d)
    ensures FindJobId("Job <" + d + ">" + rest) == Some(d)
  {
    var s := "Job <" + d + ">" + rest;
    assert s[5..] == d + (">" + rest);
    DigitRunOf(d, ">" + rest);
    assert s[..5] == "Job <";
    assert s[5..5 + |d|] == d;
  }

  /** ... and when the search finds nothing, no `Job <digits>` occurs anywhere. */
  lemma {:induction false} FindJobIdNone(out: string, d: string)
    requires FindJobId(out).None? && d != [] && AllDigits(d)
    ensures !Contains(out, "Job <" + d + ">")
    decreases |out|
  {
    var t := "Job <" + d + ">";
    if StartsWith(out, t) {
      var rest := out[|t|..];
      assert out == t + rest;
      FindJobIdLeading(d, rest);
    } else if out != [] {
      FindJobIdNone(out[1..], d);
    }
  }

  /** The makefile generation keeps the id as a number (`int(...)`); a reply naming job `n`
      gives `n` back. */
  lemma SubmittedIdRead(n: nat, rest: string)
    ensures FindJobId("Job <" + NatToString(n) + ">" + rest) == Some(NatToString(n))
    ensures DigitsValue(NatToString(n)) == n
  {
    FindJobIdLeading(NatToString(n), rest);
    DigitsValueOfNatToString(n);
  }

  /** `int(timeout / 60)`: the wall-clock limit in whole minutes, truncated toward zero. */
  function WallMinutes(timeout: int): (m: int)
    ensures timeout >= 0 ==> 0 <= m && m * 60 <= timeout < m * 60 + 60
    ensures timeout < 0 ==> m <= 0 && m * 60 - 60 < timeout <= m * 60
  {
    if timeout >= 0 then timeout / 60 else -((-timeout) / 60)
  }

  /** The `#BSUB -W` line of the run-folder job script. */
  function WallLimitLine(timeout: int): string {
    "#BSUB -W " + IntToString(WallMinutes(timeout)) + ":00"
  }

  // ---------------------------------------------------------------- v1 / makefile tracker

  /** The scheduler states in which a job has finished. */
  predicate Terminal(status: string) {
    status == "DONE" || status == "EXIT"
  }

  /** One entry of the job table of the v1 and makefile generations. */
  datatype Job = Job(testName: string, folderId: nat, submitTime: int, status: string,
                     completed: bool, startTime: Option<int>, endTime: Option<int>)

  /** What one poll does to one job: its new entry, the changes to the pending and running
      counters, and whether the job is reported finished. */
  datatype Step = Step(job: Job, pendingDelta: int, runningDelta: int, reported: bool)

  /** One pass of the monitoring loop over one job, given the scheduler's `reply`, the clock
      `now` and whether `bkill` succeeds. Completed jobs are skipped; a PEND job seen running
      moves from the pending to the running counter; DONE and EXIT complete the job (the
      counter decrements in that branch test the reply, which is DONE or EXIT there, so they
      never fire); a RUN job past the timeout completes as TIMEOUT only if the kill succeeds. */
  function PollJob(j: Job, reply: string, now: int, timeout: int, killed: bool): (s: Step)
    ensures j.completed ==> s == Step(j, 0, 0, false)
    ensures s.reported <==> !j.completed && s.job.completed
    ensures !j.completed && Terminal(reply) ==>
              s.reported && s.job.status == reply && s.job.endTime == Some(now)
    ensures !j.completed && s.reported && !Terminal(reply) ==>
              reply == "RUN" && killed && s.job.status == "TIMEOUT" && s.job.endTime == Some(now)
    ensures !j.completed && !s.reported ==> s.job.status == reply && s.job.endTime == j.endTime
    ensures s.job.testName == j.testName && s.job.folderId == j.folderId && s.job.submitTime == j.submitTime
  {
    if j.completed then Step(j, 0, 0, false)
    else
      var started := reply != j.status && reply == "RUN" && j.status == "PEND";
      var pd := if started then -1 else 0;
      var rd := if started then 1 else 0;
      var j1 := j.(status := reply, startTime := if started then Some(now) else j.startTime);
      if Terminal(reply) then
        var rd' := if reply == "RUN" then rd - 1 else rd;
        var pd' := if reply != "RUN" && reply == "PEND" then pd - 1 else pd;
        Step(j1.(completed := true, endTime := Some(now)), pd', rd', true)
      else if reply == "RUN" && j1.startTime.Some? && now - j1.startTime.value > timeout then
        if killed then
          Step(j1.(completed := true, status := "TIMEOUT", endTime := Some(now)), pd, rd - 1, true)
        else
          Step(j1, pd, rd, false)
      else
        Step(j1, pd, rd, false)
  }

  /** A pending job seen running moves from the pending to the running count and starts its
      clock (with a non-negative timeout it cannot time out in the same pass). */
  lemma PollStarts(j: Job, now: int, timeout: int, killed: bool)
    requires !j.completed && j.status == "PEND" && timeout >= 0
    ensures var s := PollJob(j, "RUN", now, timeout, killed);
      s.pendingDelta == -1 && s.runningDelta == 1 && s.job.startTime == Some(now) && !s.reported
  {
  }

  /** A running job past the timeout: a successful kill completes it as TIMEOUT and leaves the
      running count; a failed kill leaves it exactly as it was. */
  lemma PollTimesOut(j: Job, now: int, timeout: int, killed: bool, start: int)
    requires !j.completed && j.status == "RUN" && j.startTime == Some(start) && now - start > timeout
    ensures var s := PollJob(j, "RUN", now, timeout, killed);
      (killed ==> s.reported && s.job.status == "TIMEOUT" && s.runningDelta == -1 && s.pendingDelta == 0) &&
      (!killed ==> s == Step(j, 0, 0, false))
  {
  }

  /** The counters are not conserved: a job that goes PEND, RUN, DONE over two polls leaves
      the running count one higher than before, although it no longer runs. */
  lemma CountersDrift(j: Job, t1: int, t2: int, timeout: int, killed: bool)
    requires !j.completed && j.status == "PEND" && timeout >= 0 && t2 - t1 <= timeout
    ensures var s1 := PollJob(j, "RUN", t1, timeout, killed);
            var s2 := PollJob(s1.job, "DONE", t2, timeout, killed);
      s2.reported && s1.pendingDelta + s2.pendingDelta == -1 && s1.runningDelta + s2.runningDelta == 1
  {
  }

  /** The result of one monitoring pass over a list of job ids. */
  datatype Sweep = Sweep(jobs: map<nat, Job>, done: seq<nat>, pendingDelta: int, runningDelta: int)

  /** One monitoring pass over `ids` (the table's keys in insertion order). */
  function SweepJobs(jobs: map<nat, Job>, ids: seq<nat>, replies: nat -> string, now: int,
                     timeout: int, kills: nat -> bool): (w: Sweep)
    requires forall k | 0 <= k < |ids| :: ids[k] in jobs
    ensures w.jobs.Keys == jobs.Keys
    ensures forall k | 0 <= k < |w.done| :: w.done[k] in ids
    decreases |ids|
  {
    if ids == [] then Sweep(jobs, [], 0, 0)
    else
      var w0 := SweepJobs(jobs, ids[..|ids| - 1], replies, now, timeout, kills);
      var id := ids[|ids| - 1];
      var s := PollJob(w0.jobs[id], replies(id), now, timeout, kills(id));
      Sweep(w0.jobs[id := s.job], w0.done + (if s.reported then [id] else []),
            w0.pendingDelta + s.pendingDelta, w0.runningDelta + s.runningDelta)
  }

  lemma SweepJobsSnoc(jobs: map<nat, Job>, ids: seq<nat>, i: nat, replies: nat -> string, now: int,
                      timeout: int, kills: nat -> bool)
    requires i < |ids| && forall k | 0 <= k < |ids| :: ids[k] in jobs
    ensures var w0 := SweepJobs(jobs, ids[..i], replies, now, timeout, kills);
      var s := PollJob(w0.jobs[ids[i]], replies(ids[i]), now, timeout, kills(ids[i]));
      SweepJobs(jobs, ids[..i + 1], replies, now, timeout, kills) ==
        Sweep(w0.jobs[ids[i] := s.job], w0.done + (if s.reported then [ids[i]] else []),
              w0.pendingDelta + s.pendingDelta, w0.runningDelta + s.runningDelta)
  {
    assert ids[..i + 1][..i] == ids[..i];
  }

  /** With distinct ids, a pass polls each listed job once, against its entry from before the
      pass, leaves other jobs alone and reports each job at most once. */
  lemma {:induction false} SweepEffect(jobs: map<nat, Job>, ids: seq<nat>, replies: nat -> string,
                                       now: int, timeout: int, kills: nat -> bool, id: nat)
    requires forall k | 0 <= k < |ids| :: ids[k] in jobs
    requires Distinct(ids) && id in jobs
    ensures var w := SweepJobs(jobs, ids, replies, now, timeout, kills);
            var s := PollJob(jobs[id], replies(id), now, timeout, kills(id));
      (id in ids ==> w.jobs[id] == s.job && (id in w.done <==> s.reported)) &&
      (id !in ids ==> w.jobs[id] == jobs[id] && id !in w.done)
    ensures Distinct(SweepJobs(jobs, ids, replies, now, timeout, kills).done)
    decreases |ids|
  {
    if ids != [] {
      var front := ids[..|ids| - 1];
      var last := ids[|ids| - 1];
      assert forall k | 0 <= k < |front| :: front[k] != last;
      SweepEffect(jobs, front, replies, now, timeout, kills, id);
      SweepEffect(jobs, front, replies, now, timeout, kills, last);
      if id != last {
        assert id in ids <==> id in front;
      }
    }
  }

  /** A pass reports exactly the jobs it completes, so a job is reported in at most one pass. */
  lemma SweepReportsCompletions(jobs: map<nat, Job>, ids: seq<nat>, replies: nat -> string,
                                now: int, timeout: int, kills: nat -> bool, id: nat)
    requires forall k | 0 <= k < |ids| :: ids[k] in jobs
    requires Distinct(ids) && id in jobs
    ensures var w := SweepJobs(jobs, ids, replies, now, timeout, kills);
      id in w.done <==> !jobs[id].completed && w.jobs[id].completed
  {
    SweepEffect(jobs, ids, replies, now, timeout, kills, id);
  }

  /** A job reported by one pass is not reported by the next. */
  lemma ReportedOnce(jobs: map<nat, Job>, ids: seq<nat>, r1: nat -> string, r2: nat -> string,
                     t1: int, t2: int, timeout: int, k1: nat -> bool, k2: nat -> bool, id: nat)
    requires forall k | 0 <= k < |ids| :: ids[k] in jobs
    requires Distinct(ids) && id in jobs
    requires id in SweepJobs(jobs, ids, r1, t1, timeout, k1).done
    ensures id !in SweepJobs(SweepJobs(jobs, ids, r1, t1, timeout, k1).jobs, ids, r2, t2, timeout, k2).done
  {
    var w1 := SweepJobs(jobs, ids, r1, t1, timeout, k1);
    SweepReportsCompletions(jobs, ids, r1, t1, timeout, k1, id);
    SweepReportsCompletions(w1.jobs, ids, r2, t2, timeout, k2, id);
  }

  /** The job table of the v1 and makefile generations, keyed by numeric job id. `order` is
      the dictionary's insertion order, which the monitoring loop follows. */
  class Tracker {
    var jobs: map<nat, Job>
    var order: seq<nat>
    var pending: int
    var running: int

    ghost predicate Valid()
      reads this
    {
      Distinct(order) && forall id :: id in jobs <==> id in order
    }

    constructor ()
      ensures Valid() && jobs == map[] && order == [] && pending == 0 && running == 0
    {
      jobs := map[];
      order := [];
      pending := 0;
      running := 0;
    }

    /** `_submit_lsf_job`: `reply` is bsub's output, or its error text when bsub failed.
        A job id in the reply records a PEND job under that id (an existing entry keeps its
        place) and counts it pending; anything else is an error and changes nothing. */
    method Submit(reply: Result<string>, testName: string, folderId: nat, now: int) returns (r: Result<nat>)
      requires Valid()
      modifies this
      ensures Valid()
      ensures reply.Err? ==> r == Err("Failed to submit LSF job: " + reply.error)
      ensures reply.Ok? && FindJobId(reply.value).None? ==>
                r == Err("Could not extract job ID from bsub output: " + reply.value)
      ensures r.Err? ==> jobs == old(jobs) && order == old(order) && pending == old(pending) && running == old(running)
      ensures reply.Ok? && FindJobId(reply.value).Some? ==>
                r == Ok(DigitsValue(FindJobId(reply.value).value)) &&
                jobs == old(jobs)[r.value := Job(testName, folderId, now, "PEND", false, None, None)] &&
                order == (if r.value in old(jobs) then old(order) else old(order) + [r.value]) &&
                pending == old(pending) + 1 && running == old(running)
    {
      match reply
      case Err(msg) =>
        r := Err("Failed to submit LSF job: " + msg);
      case Ok(out) =>
        var found := FindJobId(out);
        if found.None? {
          r := Err("Could not extract job ID from bsub output: " + out);
        } else {
          var id := DigitsValue(found.value);
          if id !in jobs {
            order := order + [id];
          }
          jobs := jobs[id := Job(testName, folderId, now, "PEND", false, None, None)];
          pending := pending + 1;
          r := Ok(id);
        }
    }

    /** The body of the monitoring loop for one job `id`: skip it when completed, else
        apply the scheduler's `reply` as `PollJob` describes. */
    method PollEntry(id: nat, reply: string, now: int, timeout: int, killed: bool) returns (reported: bool)
      requires Valid() && id in jobs
      modifies this
      ensures Valid() && order == old(order)
      ensures var s := PollJob(old(jobs)[id], reply, now, timeout, killed);
        jobs == old(jobs)[id := s.job] && reported == s.reported &&
        pending == old(pending) + s.pendingDelta && running == old(running) + s.runningDelta
    {
      var j := jobs[id];
      reported := false;
      if !j.completed {
        var status := reply;
        if j.status != status {
          if status == "RUN" && j.status == "PEND" {
            pending := pending - 1;
            running := running + 1;
            j := j.(startTime := Some(now));
          }
          j := j.(status := status);
        }
        if status == "DONE" || status == "EXIT" {
          // the source's counter decrements here test for RUN and PEND, which cannot hold
          j := j.(completed := true, endTime := Some(now));
          reported := true;
        } else if status == "RUN" && j.startTime.Some? {
          if now - j.startTime.value > timeout && killed {
            j := j.(completed := true, status := "TIMEOUT", endTime := Some(now));
            running := running - 1;
            reported := true;
          }
        }
      }
      jobs := jobs[id := j];
    }

    /** `_monitor_lsf_jobs`: one pass over the table in insertion order. `replies` is the
        scheduler's answer for each job, `kills` whether `bkill` succeeds on it. Returns the
        ids of the jobs that finished in this pass. */
    method Poll(replies: nat -> string, now: int, timeout: int, kills: nat -> bool) returns (done: seq<nat>)
      requires Valid()
      modifies this
      ensures Valid() && order == old(order)
      ensures var w := SweepJobs(old(jobs), old(order), replies, now, timeout, kills);
        jobs == w.jobs && done == w.done &&
        pending == old(pending) + w.pendingDelta && running == old(running) + w.runningDelta
    {
      done := [];
      var i := 0;
      while i < |order|
        invariant 0 <= i <= |order| && Valid() && order == old(order)
        invariant forall k | 0 <= k < |order| :: order[k] in old(jobs)
        invariant var w := SweepJobs(old(jobs), order[..i], replies, now, timeout, kills);
          jobs == w.jobs && done == w.done &&
          pending == old(pending) + w.pendingDelta && running == old(running) + w.runningDelta
      {
        SweepJobsSnoc(old(jobs), order, i, replies, now, timeout, kills);
        var id := order[i];
        var reported := PollEntry(id, replies(id), now, timeout, kills(id));
        if reported {
          done := done + [id];
        }
        i := i + 1;
      }
      assert order[..|order|] == order;
    }
  }

  /** The submission loop of both LSF generations: when `_submit_lsf_job` raises, the test is
      recorded at once as an ERROR result carrying the exception's text; a job that was
      submitted records nothing until it completes. */
  function SubmissionOutcome(submitted: Result<nat>): (o: Option<Outcome>)
    ensures o.Some? <==> submitted.Err?
    ensures o.Some? ==>
              o.value.status == Error && o.value.message.Some? &&
              o.value.message.value == "LSF submission error: " + submitted.error
  {
    match submitted
    case Err(msg) => Some(Outcome(Error, Some("LSF submission error: " + msg)))
    case Ok(_) => None
  }

  /** The makefile generation's verdict for a reported job: TIMEOUT and EXIT decide it
      outright; otherwise the log is read and classified (the log's text is passed as the
      console output too), a missing log is an ERROR, and a log that cannot be read aborts
      the regression (`Err`). */
  function CompletionVerdict(e: Engine, job: Job, log: LogFile, logPath: string, timeout: int): (r: Result<Verdict>)
    ensures job.status == "TIMEOUT" ==>
              r == Ok(Verdict(Timeout, Some("LSF job timed out after " + IntToString(timeout) + "s"), 0, 0))
    ensures job.status == "EXIT" ==> r == Ok(Verdict(Fail, Some("LSF job exited with error"), 0, 0))
    ensures r.Err? <==> job.status != "TIMEOUT" && job.status != "EXIT" && log.Unreadable?
    ensures r.Ok? && r.value.status == Error ==>
              log.Missing? && r.value.message == Some("Log file not found")
    ensures job.status != "TIMEOUT" && job.status != "EXIT" && log.Present? ==>
              r == Ok(ClassifyRun(e, log.content, log, logPath))
    ensures job.status != "TIMEOUT" && job.status != "EXIT" && log.Missing? ==>
              r == Ok(Verdict(Error, Some("Log file not found"), 0, 0))
  {
    if job.status == "TIMEOUT" then
      Ok(Verdict(Timeout, Some("LSF job timed out after " + IntToString(timeout) + "s"), 0, 0))
    else if job.status == "EXIT" then
      Ok(Verdict(Fail, Some("LSF job exited with error"), 0, 0))
    else
      match log
      case Present(content) =>
        var v := ClassifyRun(e, content, Present(content), logPath);
        ClassifyRunError(e, content, Present(content), logPath);
        Ok(v)
      case Missing => Ok(Verdict(Error, Some("Log file not found"), 0, 0))
      case Unreadable(reason) => Err(reason)
  }

  /** The v1 generation's outcome for a reported job: the same mapping, with the v1
      classifier. */
  function CompletionOutcomeV1(e: Engine, job: Job, log: LogFile, timeout: int): (r: Result<Outcome>)
    ensures job.status == "TIMEOUT" ==>
              r == Ok(Outcome(Timeout, Some("LSF job timed out after " + IntToString(timeout) + "s")))
    ensures job.status == "EXIT" ==> r == Ok(Outcome(Fail, Some("LSF job exited with error")))
    ensures r.Err? <==> job.status != "TIMEOUT" && job.status != "EXIT" && log.Unreadable?
    ensures r.Ok? && r.value.status == Error ==>
              log.Missing? && r.value.message == Some("Log file not found")
    ensures job.status != "TIMEOUT" && job.status != "EXIT" && log.Present? ==>
              r == Ok(ClassifyRunV1(e, log.content, log))
    ensures job.status != "TIMEOUT" && job.status != "EXIT" && log.Missing? ==>
              r == Ok(Outcome(Error, Some("Log file not found")))
  {
    if job.status == "TIMEOUT" then
      Ok(Outcome(Timeout, Some("LSF job timed out after " + IntToString(timeout) + "s")))
    else if job.status == "EXIT" then
      Ok(Outcome(Fail, Some("LSF job exited with error")))
    else
      match log
      case Present(content) => Ok(ClassifyRunV1(e, content, Present(content)))
      case Missing => Ok(Outcome(Error, Some("Log file not found")))
      case Unreadable(reason) => Err(reason)
  }

  /** What a reported job is recorded as: killed jobs as TIMEOUT, EXIT as FAIL, and a DONE
      job from its log, never as TIMEOUT unless the log itself shows a hang. */
  lemma ReportedJobVerdict(e: Engine, j: Job, reply: string, now: int, timeout: int, killed: bool,
                           log: LogFile, logPath: string)
    requires PollJob(j, reply, now, timeout, killed).reported
    ensures var r := CompletionVerdict(e, PollJob(j, reply, now, timeout, killed).job, log, logPath, timeout);
      (!Terminal(reply) ==> r.Ok? && r.value.status == Timeout) &&
      (reply == "EXIT" ==> r == Ok(Verdict(Fail, Some("LSF job exited with error"), 0, 0))) &&
      (reply == "DONE" && log.Missing? ==> r == Ok(Verdict(Error, Some("Log file not found"), 0, 0))) &&
      (reply == "DONE" && log.Present? ==>
         r == Ok(ClassifyRun(e, log.content, log, logPath)) && r.value.status != Error &&
         (r.value.status == Timeout <==> Hung(e, Combined(log.content, log)) ))
  {
    if reply == "DONE" && log.Present? {
      ClassifyRunTimeout(e, log.content, log, logPath);
    }
  }

  // ---------------------------------------------------------------- run-folder tracker

  /** One entry of the run-folder generation's job table, keyed by the job id as text. */
  datatype FolderJob = FolderJob(testName: string, baseName: string, folderId: nat, submitTime: int,
                                 status: string, endTime: Option<int>,
                                 seed: Option<string>, commandAdd: Option<string>)

  /** A row of the `bjobs` table that names a job: its first and third fields. */
  datatype Row = Row(id: string, status: string)

  /** The rows of a `bjobs` reply: every line after the header of the stripped output. */
  function Rows(out: string): (rows: seq<string>)
    ensures forall k | 0 <= k < |rows| :: Contains(out, rows[k])
  {
    var lines := Split(Strip(out), '\n');
    forall k | 1 <= k < |lines|
      ensures Contains(out, lines[k])
    {
      SplitContained(Strip(out), '\n', k);
      StripContained(out);
      ContainsTrans(out, Strip(out), lines[k]);
    }
    if |lines| > 1 then lines[1..] else []
  }

  /** A line with at least three whitespace-separated fields names a job and its status. */
  function RowOf(line: string): (r: Option<Row>)
    ensures r.Some? ==> Contains(line, r.value.id)
  {
    var parts := Words(line);
    if |parts| >= 3 then
      WordsContained(line, 0);
      Some(Row(parts[0], parts[2]))
    else
      None
  }

  /** A job table together with the ids reported finished. */
  datatype Table = Table(jobs: map<string, FolderJob>, done: seq<string>)

  /** One row of the table pass: a row naming a tracked job overwrites its status; a move
      from a non-terminal status into DONE or EXIT stamps the end time and reports the job. */
  function ApplyRow(t: Table, line: string, now: int): (t': Table)
    ensures t'.jobs.Keys == t.jobs.Keys
    ensures t'.done == t.done || (|t'.done| == |t.done| + 1 && t'.done[..|t.done|] == t.done && t'.done[|t.done|] in t.jobs)
  {
    var row := RowOf(line);
    if row.Some? && row.value.id in t.jobs then
      var j := t.jobs[row.value.id];
      var finished := Terminal(row.value.status) && !Terminal(j.status);
      Table(t.jobs[row.value.id := j.(status := row.value.status,
                                       endTime := if finished then Some(now) else j.endTime)],
            t.done + (if finished then [row.value.id] else []))
    else
      t
  }

  /** The table pass over all rows, in order. */
  function ApplyRows(jobs: map<string, FolderJob>, rows: seq<string>, now: int): (t: Table)
    ensures t.jobs.Keys == jobs.Keys
    ensures forall k | 0 <= k < |t.done| :: t.done[k] in jobs
    decreases |rows|
  {
    if rows == [] then Table(jobs, [])
    else ApplyRow(ApplyRows(jobs, rows[..|rows| - 1], now), rows[|rows| - 1], now)
  }

  /** The disappearance test for one tracked job. */
  function VanishOne(t: Table, id: string, out: string, now: int, leftOutput: string -> bool): (t': Table)
    requires id in t.jobs
    ensures t'.jobs.Keys == t.jobs.Keys
    ensures t'.done == t.done || t'.done == t.done + [id]
  {
    var j := t.jobs[id];
    if !Contains(out, id) && !Terminal(j.status) then
      Table(t.jobs[id := j.(status := if leftOutput(id) then "DONE" else "EXIT", endTime := Some(now))],
            t.done + [id])
    else
      t
  }

  /** The disappearance pass over `ids` (the table's keys in insertion order): a job whose id
      does not occur anywhere in the reply text and whose status is not terminal becomes DONE
      when its log or scheduler output exists (`leftOutput`), EXIT otherwise, and is
      reported. */
  function Vanish(jobs: map<string, FolderJob>, ids: seq<string>, out: string, now: int,
                  leftOutput: string -> bool): (t: Table)
    requires forall k | 0 <= k < |ids| :: ids[k] in jobs
    ensures t.jobs.Keys == jobs.Keys
    ensures forall k | 0 <= k < |t.done| :: t.done[k] in ids
    decreases |ids|
  {
    if ids == [] then Table(jobs, [])
    else VanishOne(Vanish(jobs, ids[..|ids| - 1], out, now, leftOutput), ids[|ids| - 1], out, now, leftOutput)
  }

  /** `_monitor_lsf_jobs` of the run-folder generation: nothing when no job is tracked,
      otherwise the table pass followed by the disappearance pass. */
  function Monitored(jobs: map<string, FolderJob>, order: seq<string>, out: string, now: int,
                     leftOutput: string -> bool): (t: Table)
    requires forall k | 0 <= k < |order| :: order[k] in jobs
    ensures t.jobs.Keys == jobs.Keys
  {
    if jobs == map[] then Table(jobs, [])
    else
      var t1 := ApplyRows(jobs, Rows(out), now);
      var t2 := Vanish(t1.jobs, order, out, now, leftOutput);
      Table(t2.jobs, t1.done + t2.done)
  }

  /** How many rows name job `id`. */
  function Mentions(rows: seq<string>, id: string): nat
    decreases |rows|
  {
    if rows == [] then 0
    else
      var row := RowOf(rows[|rows| - 1]);
      Mentions(rows[..|rows| - 1], id) + (if row.Some? && row.value.id == id then 1 else 0)
  }

  /** The status the last row naming `id` gives it. */
  function Listed(rows: seq<string>, id: string): Option<string>
    decreases |rows|
  {
    if rows == [] then None
    else
      var row := RowOf(rows[|rows| - 1]);
      if row.Some? && row.value.id == id then Some(row.value.status) else Listed(rows[..|rows| - 1], id)
  }

  /** A job named by no row is untouched by the table pass; one named by exactly one row
      takes that row's status and is reported iff it moved into DONE or EXIT. */
  lemma {:induction false} ApplyRowsEffect(jobs: map<string, FolderJob>, rows: seq<string>, now: int, id: string)
    requires id in jobs && Mentions(rows, id) <= 1
    ensures var t := ApplyRows(jobs, rows, now);
      (Mentions(rows, id) == 0 ==> t.jobs[id] == jobs[id] && id !in t.done) &&
      (Mentions(rows, id) == 1 ==>
         Listed(rows, id).Some? && t.jobs[id].status == Listed(rows, id).value &&
         (id in t.done <==> Terminal(Listed(rows, id).value) && !Terminal(jobs[id].status)))
    decreases |rows|
  {
    if rows != [] {
      var front := rows[..|rows| - 1];
      var row := RowOf(rows[|rows| - 1]);
      ApplyRowsEffect(jobs, front, now, id);
      if row.Some? && row.value.id == id {
        assert Mentions(front, id) == 0;
      }
    }
  }

  /** With no tracked job named twice, the table pass reports each job at most once. */
  lemma {:induction false} ApplyRowsDistinct(jobs: map<string, FolderJob>, rows: seq<string>, now: int)
    requires forall id | id in jobs :: Mentions(rows, id) <= 1
    ensures Distinct(ApplyRows(jobs, rows, now).done)
    ensures forall k | 0 <= k < |ApplyRows(jobs, rows, now).done| ::
              Mentions(rows, ApplyRows(jobs, rows, now).done[k]) == 1
    decreases |rows|
  {
    if rows != [] {
      var front := rows[..|rows| - 1];
      var row := RowOf(rows[|rows| - 1]);
      forall id | id in jobs
        ensures Mentions(front, id) <= 1
      {
      }
      ApplyRowsDistinct(jobs, front, now);
      var t0 := ApplyRows(jobs, front, now);
      if row.Some? && row.value.id in t0.jobs {
        var id := row.value.id;
        ApplyRowsEffect(jobs, front, now, id);
        assert Mentions(front, id) == 0;
        assert id !in t0.done;
      }
      forall k | 0 <= k < |t0.done|
        ensures Mentions(rows, t0.done[k]) == 1
      {
        assert Mentions(rows, t0.done[k]) >= Mentions(front, t0.done[k]);
      }
    }
  }

  /** A row naming `id` puts `id` into the reply text. */
  lemma {:induction false} MentionedContained(rows: seq<string>, id: string, out: string)
    requires Mentions(rows, id) >= 1
    requires forall k | 0 <= k < |rows| :: Contains(out, rows[k])
    ensures Contains(out, id)
    decreases |rows|
  {
    var last := rows[|rows| - 1];
    var row := RowOf(last);
    if row.Some? && row.value.id == id {
      ContainsTrans(out, last, id);
    } else {
      MentionedContained(rows[..|rows| - 1], id, out);
    }
  }

  /** With distinct ids, the disappearance pass changes and reports exactly the listed jobs
      that are absent from the reply text and not yet terminal, each once. */
  lemma {:induction false} VanishEffect(jobs: map<string, FolderJob>, ids: seq<string>, out: string, now: int,
                                        leftOutput: string -> bool, id: string)
    requires forall k | 0 <= k < |ids| :: ids[k] in jobs
    requires Distinct(ids) && id in jobs
    ensures var t := Vanish(jobs, ids, out, now, leftOutput);
      (id in ids && !Contains(out, id) && !Terminal(jobs[id].status) ==>
         t.jobs[id] == jobs[id].(status := if leftOutput(id) then "DONE" else "EXIT", endTime := Some(now)) &&
         id in t.done) &&
      (!(id in ids && !Contains(out, id) && !Terminal(jobs[id].status)) ==>
         t.jobs[id] == jobs[id] && id !in t.done)
    ensures Distinct(Vanish(jobs, ids, out, now, leftOutput).done)
    decreases |ids|
  {
    if ids != [] {
      var front := ids[..|ids| - 1];
      var last := ids[|ids| - 1];
      assert forall k | 0 <= k < |front| :: front[k] != last;
      VanishEffect(jobs, front, out, now, leftOutput, id);
      VanishEffect(jobs, front, out, now, leftOutput, last);
      if id != last {
        assert id in ids <==> id in front;
      }
    }
  }

  lemma DistinctConcat<T>(a: seq<T>, b: seq<T>)
    requires Distinct(a) && Distinct(b)
    requires forall k | 0 <= k < |a| :: a[k] !in b
    ensures Distinct(a + b)
  {
  }

  /** If no tracked job is named by two rows, a monitoring pass reports a job exactly when it
      moves from a non-terminal status into DONE or EXIT, and reports it once. */
  lemma MonitorReportsTransitions(jobs: map<string, FolderJob>, order: seq<string>, out: string, now: int,
                                  leftOutput: string -> bool, id: string)
    requires Distinct(order) && (forall x :: x in jobs <==> x in order) && id in jobs
    requires forall x | x in jobs :: Mentions(Rows(out), x) <= 1
    ensures var t := Monitored(jobs, order, out, now, leftOutput);
      id in t.done <==> !Terminal(jobs[id].status) && Terminal(t.jobs[id].status)
    ensures Distinct(Monitored(jobs, order, out, now, leftOutput).done)
  {
    var rows := Rows(out);
    var t1 := ApplyRows(jobs, rows, now);
    var t2 := Vanish(t1.jobs, order, out, now, leftOutput);
    ApplyRowsEffect(jobs, rows, now, id);
    VanishEffect(t1.jobs, order, out, now, leftOutput, id);
    if Mentions(rows, id) == 1 {
      MentionedContained(rows, id, out);
    }
    ApplyRowsDistinct(jobs, rows, now);
    VanishEffect(t1.jobs, order, out, now, leftOutput, id);
    forall k | 0 <= k < |t1.done|
      ensures t1.done[k] !in t2.done
    {
      var x := t1.done[k];
      MentionedContained(rows, x, out);
      VanishEffect(t1.jobs, order, out, now, leftOutput, x);
    }
    DistinctConcat(t1.done, t2.done);
  }

  /** Hence a job reported by one pass is not reported by the next. */
  lemma FolderReportedOnce(jobs: map<string, FolderJob>, order: seq<string>, out1: string, out2: string,
                           t1: int, t2: int, left1: string -> bool, left2: string -> bool, id: string)
    requires Distinct(order) && (forall x :: x in jobs <==> x in order) && id in jobs
    requires forall x | x in jobs :: Mentions(Rows(out1), x) <= 1 && Mentions(Rows(out2), x) <= 1
    requires id in Monitored(jobs, order, out1, t1, left1).done
    ensures id !in Monitored(Monitored(jobs, order, out1, t1, left1).jobs, order, out2, t2, left2).done
  {
    var first := Monitored(jobs, order, out1, t1, left1);
    MonitorReportsTransitions(jobs, order, out1, t1, left1, id);
    MonitorReportsTransitions(first.jobs, order, out2, t2, left2, id);
  }

  /** A word followed by a space and more text splits off that word. */
  lemma WordThenSpace(w: string, s: string)
    requires w != [] && NoSpace(w)
    ensures Words(w + (" " + s)) == [w] + Words(s)
  {
    WordsLeadingWord(w, " " + s);
    WordsSkipSpaces(" ", s);
  }

  /** A row `id user status ...` names its first field with its third as status, whatever
      columns follow. */
  lemma RowOfFields(a: string, b: string, c: string, rest: string)
    requires a != [] && NoSpace(a) && b != [] && NoSpace(b) && c != [] && NoSpace(c)
    requires rest == [] || IsSpace(rest[0])
    ensures RowOf(a + " " + b + " " + c + rest) == Some(Row(a, c))
  {
    WordsLeadingWord(c, rest);
    WordThenSpace(b, c + rest);
    WordThenSpace(a, b + (" " + (c + rest)));
    Assoc4(a, b, c, rest);
  }

  lemma Assoc4(a: string, b: string, c: string, rest: string)
    ensures a + " " + b + " " + c + rest == a + (" " + (b + (" " + (c + rest))))
  {
  }

  /** The disappearance test looks for the id anywhere in the reply text: a running job
      that no row names is neither finished nor reported when its id occurs inside the id of
      a job that is listed (job 12 while job 123 is listed). */
  lemma SubstringHidesJob(jobs: map<string, FolderJob>, order: seq<string>, out: string, now: int,
                          leftOutput: string -> bool, id: string, other: string)
    requires Distinct(order) && (forall x :: x in jobs <==> x in order) && id in jobs
    requires Mentions(Rows(out), id) == 0 && Mentions(Rows(out), other) >= 1 && Contains(other, id)
    ensures var t := Monitored(jobs, order, out, now, leftOutput);
      t.jobs[id] == jobs[id] && id !in t.done
  {
    var rows := Rows(out);
    MentionedContained(rows, other, out);
    ContainsTrans(out, other, id);
    ApplyRowsEffect(jobs, rows, now, id);
    var t1 := ApplyRows(jobs, rows, now);
    VanishEffect(t1.jobs, order, out, now, leftOutput, id);
  }

  /** Without the one-row-per-job condition a job can be reported twice in one pass: rows
      DONE, RUN, DONE for a running job report it twice. */
  lemma RepeatedRowsReportTwice(jobs: map<string, FolderJob>, r1: string, r2: string, r3: string,
                                now: int, id: string)
    requires id in jobs && jobs[id].status == "RUN"
    requires RowOf(r1) == Some(Row(id, "DONE")) && RowOf(r2) == Some(Row(id, "RUN"))
    requires RowOf(r3) == Some(Row(id, "DONE"))
    ensures ApplyRows(jobs, [r1, r2, r3], now).done == [id, id]
  {
    var rows := [r1, r2, r3];
    assert rows[..2] == [r1, r2];
    assert rows[..2][..1] == [r1];
    assert rows[..2][..1][..0] == [];
    var t1 := ApplyRow(Table(jobs, []), r1, now);
    assert ApplyRows(jobs, [r1], now) == t1;
    assert t1.done == [id] && t1.jobs[id].status == "DONE";
    var t2 := ApplyRow(t1, r2, now);
    assert ApplyRows(jobs, [r1, r2], now) == t2;
    assert t2.done == [id] && t2.jobs[id].status == "RUN";
    assert ApplyRows(jobs, rows, now) == ApplyRow(t2, r3, now);
  }

  lemma ApplyRowsSnoc(jobs: map<string, FolderJob>, rows: seq<string>, i: nat, now: int)
    requires i < |rows|
    ensures ApplyRows(jobs, rows[..i + 1], now) == ApplyRow(ApplyRows(jobs, rows[..i], now), rows[i], now)
  {
    assert rows[..i + 1][..i] == rows[..i];
  }

  lemma VanishSnoc(jobs: map<string, FolderJob>, ids: seq<string>, k: nat, out: string, now: int,
                   leftOutput: string -> bool)
    requires k < |ids| && forall i | 0 <= i < |ids| :: ids[i] in jobs
    ensures Vanish(jobs, ids[..k + 1], out, now, leftOutput) ==
            VanishOne(Vanish(jobs, ids[..k], out, now, leftOutput), ids[k], out, now, leftOutput)
  {
    assert ids[..k + 1][..k] == ids[..k];
  }

  /** The run-folder generation's job table, keyed by the job id as text, in insertion order. */
  class FolderTracker {
    var jobs: map<string, FolderJob>
    var order: seq<string>

    ghost predicate Valid()
      reads this
    {
      Distinct(order) && forall id :: id in jobs <==> id in order
    }

    constructor ()
      ensures Valid() && jobs == map[] && order == []
    {
      jobs := map[];
      order := [];
    }

    /** `_submit_lsf_job`: `reply` is bsub's output, or its error text when bsub failed.
        Only a reply holding a job id records a PEND job; otherwise nothing is recorded and
        there is no id. */
    method Submit(reply: Result<string>, testName: string, baseName: string, folderId: nat, now: int,
                  seed: Option<string>, commandAdd: Option<string>) returns (id: Option<string>)
      requires Valid()
      modifies this
      ensures Valid()
      ensures reply.Err? || FindJobId(reply.value).None? ==>
                id == None && jobs == old(jobs) && order == old(order)
      ensures reply.Ok? && FindJobId(reply.value).Some? ==>
                id == FindJobId(reply.value) &&
                jobs == old(jobs)[id.value := FolderJob(testName, baseName, folderId, now, "PEND", None, seed, commandAdd)] &&
                order == (if id.value in old(jobs) then old(order) else old(order) + [id.value])
    {
      id := None;
      if reply.Ok? {
        var found := FindJobId(reply.value);
        if found.Some? {
          var key := found.value;
          if key !in jobs {
            order := order + [key];
          }
          jobs := jobs[key := FolderJob(testName, baseName, folderId, now, "PEND", None, seed, commandAdd)];
          id := found;
        }
      }
    }

    /** The body of the table loop for one line; `done` is the list reported so far. */
    method ReadRow(line: string, now: int, done: seq<string>) returns (done': seq<string>)
      modifies this
      ensures order == old(order)
      ensures var t := ApplyRow(Table(old(jobs), done), line, now); jobs == t.jobs && done' == t.done
    {
      done' := done;
      var parts := Words(line);
      if |parts| >= 3 {
        var id := parts[0];
        var status := parts[2];
        if id in jobs {
          var j := jobs[id];
          var oldStatus := j.status;
          j := j.(status := status);
          if Terminal(status) && !Terminal(oldStatus) {
            j := j.(endTime := Some(now));
            done' := done' + [id];
          }
          jobs := jobs[id := j];
        }
      }
    }

    /** The table loop of `_monitor_lsf_jobs` over the rows after the header. */
    method ReadRows(rows: seq<string>, now: int) returns (done: seq<string>)
      modifies this
      ensures order == old(order) && jobs.Keys == old(jobs).Keys
      ensures var t := ApplyRows(old(jobs), rows, now); jobs == t.jobs && done == t.done
    {
      done := [];
      var i := 0;
      while i < |rows|
        invariant 0 <= i <= |rows| && order == old(order)
        invariant var t := ApplyRows(old(jobs), rows[..i], now); jobs == t.jobs && done == t.done
      {
        ApplyRowsSnoc(old(jobs), rows, i, now);
        done := ReadRow(rows[i], now, done);
        i := i + 1;
      }
      assert rows[..|rows|] == rows;
    }

    /** The table pass of `_monitor_lsf_jobs` over bjobs' reply `out`. */
    method ReadTable(out: string, now: int) returns (done: seq<string>)
      requires Valid()
      modifies this
      ensures Valid() && order == old(order)
      ensures var t := ApplyRows(old(jobs), Rows(out), now); jobs == t.jobs && done == t.done
    {
      done := ReadRows(Rows(out), now);
      assert forall id :: id in jobs <==> id in old(jobs);
    }

    /** The disappearance pass of `_monitor_lsf_jobs`. */
    method SweepMissing(out: string, now: int, leftOutput: string -> bool) returns (done: seq<string>)
      requires Valid()
      modifies this
      ensures Valid() && order == old(order)
      ensures var t := Vanish(old(jobs), order, out, now, leftOutput); jobs == t.jobs && done == t.done
    {
      done := [];
      var k := 0;
      while k < |order|
        invariant 0 <= k <= |order| && order == old(order) && jobs.Keys == old(jobs).Keys
        invariant forall i | 0 <= i < |order| :: order[i] in old(jobs)
        invariant var t := Vanish(old(jobs), order[..k], out, now, leftOutput); jobs == t.jobs && done == t.done
      {
        VanishSnoc(old(jobs), order, k, out, now, leftOutput);
        var id := order[k];
        if !Contains(out, id) && !Terminal(jobs[id].status) {
          var j := jobs[id];
          j := j.(status := if leftOutput(id) then "DONE" else "EXIT");
          j := j.(endTime := Some(now));
          jobs := jobs[id := j];
          done := done + [id];
        }
        k := k + 1;
      }
      assert order[..|order|] == order;
    }

    /** `_monitor_lsf_jobs`: `out` is bjobs' reply, `leftOutput(id)` whether job `id` left a
        log or a scheduler output file. Returns the ids reported finished, in order. */
    method Monitor(out: string, now: int, leftOutput: string -> bool) returns (done: seq<string>)
      requires Valid()
      modifies this
      ensures Valid() && order == old(order)
      ensures var t := Monitored(old(jobs), old(order), out, now, leftOutput); jobs == t.jobs && done == t.done
    {
      if jobs == map[] {
        return [];
      }
      var fromTable := ReadTable(out, now);
      var missing := SweepMissing(out, now, leftOutput);
      done := fromTable + missing;
    }
  }

  /** The message of a job that exited without a log: the scheduler's error text, cut to 200
      characters, is appended when there is any. */
  function ExitMessage(lsfErr: Option<string>): (m: string)
    ensures StartsWith(m, "LSF job exited with error")
    ensures |m| <= 25 + 2 + 200
    ensures lsfErr.None? || lsfErr.value == [] <==> m == "LSF job exited with error"
  {
    match lsfErr
    case Some(text) =>
      if Take(text, 200) != [] then "LSF job exited with error" + ": " + Take(text, 200)
      else "LSF job exited with error"
    case None => "LSF job exited with error"
  }

  /** `_process_lsf_job_completion`: nothing for an unknown id; FAIL with the scheduler's
      message for an EXIT job without a log; otherwise the run-folder classifier over the
      log and the scheduler's output file (`lsfOut`, empty when absent). `lsfErr` is the
      scheduler's error file when it exists and can be read. The verdict is never TIMEOUT or
      ERROR. */
  function FolderCompletion(e: Engine, jobs: map<string, FolderJob>, id: string, log: LogFile,
                            lsfOut: Option<string>, lsfErr: Option<string>): (v: Option<Verdict>)
    ensures v.None? <==> id !in jobs
    ensures v.Some? ==> v.value.status == Pass || v.value.status == Fail
    ensures v.Some? && jobs[id].status == "EXIT" && log.Missing? ==>
              v.value == Verdict(Fail, Some(ExitMessage(lsfErr)), 0, 0)
    ensures v.Some? && !(jobs[id].status == "EXIT" && log.Missing?) ==>
              v.value == ClassifyRunFolder(e, if lsfOut.Some? then lsfOut.value else "", log)
  {
    if id !in jobs then None
    else if jobs[id].status == "EXIT" && log.Missing? then
      Some(Verdict(Fail, Some(ExitMessage(lsfErr)), 0, 0))
    else
      Some(ClassifyRunFolder(e, if lsfOut.Some? then lsfOut.value else "", log))
  }

  /** A job that vanished from bjobs leaving neither log nor scheduler output is reported in
      that pass and recorded as FAIL with the scheduler's message. */
  lemma VanishedWithoutTraceFails(e: Engine, jobs: map<string, FolderJob>, order: seq<string>, out: string,
                                  now: int, leftOutput: string -> bool, id: string, lsfErr: Option<string>)
    requires Distinct(order) && (forall x :: x in jobs <==> x in order) && id in jobs
    requires !Terminal(jobs[id].status) && !Contains(out, id) && !leftOutput(id)
    ensures var t := Monitored(jobs, order, out, now, leftOutput);
      id in t.done && t.jobs[id].status == "EXIT" &&
      FolderCompletion(e, t.jobs, id, Missing, None, lsfErr) == Some(Verdict(Fail, Some(ExitMessage(lsfErr)), 0, 0))
  {
    VanishedWithoutTrace(jobs, order, out, now, leftOutput, id);
  }

  lemma VanishedWithoutTrace(jobs: map<string, FolderJob>, order: seq<string>, out: string,
                             now: int, leftOutput: string -> bool, id: string)
    requires Distinct(order) && (forall x :: x in jobs <==> x in order) && id in jobs
    requires !Terminal(jobs[id].status) && !Contains(out, id) && !leftOutput(id)
    ensures var t := Monitored(jobs, order, out, now, leftOutput);
      id in t.done && id in t.jobs && t.jobs[id].status == "EXIT"
  {
    var rows := Rows(out);
    NotMentioned(rows, id, out);
    ApplyRowsEffect(jobs, rows, now, id);
    var t1 := ApplyRows(jobs, rows, now);
    assert t1.jobs[id] == jobs[id];
    assert forall k | 0 <= k < |order| :: order[k] in t1.jobs;
    VanishEffect(t1.jobs, order, out, now, leftOutput, id);
    var t2 := Vanish(t1.jobs, order, out, now, leftOutput);
    assert id in t2.done;
    assert Monitored(jobs, order, out, now, leftOutput) == Table(t2.jobs, t1.done + t2.done);
  }

  /** A job whose id is absent from the reply text is named by no row. */
  lemma {:induction false} NotMentioned(rows: seq<string>, id: string, out: string)
    requires !Contains(out, id)
    requires forall k | 0 <= k < |rows| :: Contains(out, rows[k])
    ensures Mentions(rows, id) == 0
    decreases |rows|
  {
    if rows != [] {
      var last := rows[|rows| - 1];
      var row := RowOf(last);
      if row.Some? && row.value.id == id {
        ContainsTrans(out, last, id);
      }
      NotMentioned(rows[..|rows| - 1], id, out);
    }
  }
}
