/** services/prefect/flows/airbyte_to_duckdb.py: trigger an Airbyte sync,
    poll the job with exponential backoff up to a wait budget, run DuckDB
    statements when the sync succeeded, and push one metrics sample. */
module AirbyteToDuckdb {
  import opened Wrappers
  import Text
  import opened Jobs

  /** The statuses that end the wait, compared after lower-casing. */
  predicate IsTerminal(status: string) {
    Text.Lower(status) in {"succeeded", "failed", "cancelled", "incomplete"}
  }

  /** The delay slept after the k-th non-terminal poll: 5 seconds, then
      doubled up to a cap of 60. */
  function DelayAt(k: nat): int {
    if k == 0 then 5 else Min(2 * DelayAt(k - 1), 60)
  }

  function Min(a: int, b: int): int { if a < b then a else b }

  /** The first k delays of the schedule, in the order they are slept. */
  function Delays(k: nat): seq<int> {
    if k == 0 then [] else Delays(k - 1) + [DelayAt(k - 1)]
  }

  /** The i-th sleep of a wait is the i-th delay of the schedule. */
  lemma {:induction false} DelaysMeaning(k: nat)
    ensures |Delays(k)| == k
    ensures forall i :: 0 <= i < k ==> Delays(k)[i] == DelayAt(i)
    decreases k
  {
    if k > 0 {
      DelaysMeaning(k - 1);
    }
  }

  /** `waited` after k sleeps: the sum of the first k delays. */
  function WaitedAfter(k: nat): int {
    if k == 0 then 0 else WaitedAfter(k - 1) + DelayAt(k - 1)
  }

  /** The backoff schedule is 5, 10, 20, 40, then 60 for ever. */
  lemma {:induction false} DelaySchedule(k: nat)
    ensures 5 <= DelayAt(k) <= 60
    ensures k == 1 ==> DelayAt(k) == 10
    ensures k == 2 ==> DelayAt(k) == 20
    ensures k == 3 ==> DelayAt(k) == 40
    ensures k >= 4 ==> DelayAt(k) == 60
    decreases k
  {
    if k > 0 {
      DelaySchedule(k - 1);
    }
  }

  /** Each sleep adds between 5 and 60 seconds to `waited`. */
  lemma {:induction false} WaitedBounds(k: nat)
    ensures 5 * k <= WaitedAfter(k) <= 60 * k
    decreases k
  {
    if k > 0 {
      WaitedBounds(k - 1);
      DelaySchedule(k - 1);
    }
  }

  /** How a wait ends, and after how many polls. */
  datatype Wait = Wait(outcome: Result<JobData, string>, polled: nat)

  /** wait_for_job from the k-th poll on, with k sleeps already taken. */
  function WaitFrom(polls: nat -> Poll, maxWait: int, k: nat): Wait
    decreases maxWait - WaitedAfter(k)
  {
    match polls(k)
    case PollError(msg) => Wait(Err(msg), k + 1)
    case PollReply(status) =>
      if IsTerminal(status) then Wait(Ok(JobData(status, false)), k + 1)
      else if WaitedAfter(k + 1) >= maxWait then Wait(Ok(JobData(status, true)), k + 1)
      else
        DelaySchedule(k);
        WaitFrom(polls, maxWait, k + 1)
  }

  /** One round of the loop: what the k-th poll decides. */
  lemma WaitStep(polls: nat -> Poll, maxWait: int, k: nat)
    ensures polls(k).PollError? ==> WaitFrom(polls, maxWait, k) == Wait(Err(polls(k).msg), k + 1)
    ensures polls(k).PollReply? && IsTerminal(polls(k).status) ==>
      WaitFrom(polls, maxWait, k) == Wait(Ok(JobData(polls(k).status, false)), k + 1)
    ensures polls(k).PollReply? && !IsTerminal(polls(k).status) && WaitedAfter(k + 1) >= maxWait ==>
      WaitFrom(polls, maxWait, k) == Wait(Ok(JobData(polls(k).status, true)), k + 1)
    ensures polls(k).PollReply? && !IsTerminal(polls(k).status) && WaitedAfter(k + 1) < maxWait ==>
      WaitFrom(polls, maxWait, k) == WaitFrom(polls, maxWait, k + 1)
  {
  }

  /** The k-th poll saw a non-terminal status and the sleep after it left
      the budget unspent, so the loop went round again. */
  predicate PollContinued(polls: nat -> Poll, maxWait: int, k: nat) {
    polls(k).PollReply? && !IsTerminal(polls(k).status) && WaitedAfter(k + 1) < maxWait
  }

  /** What a wait returns: a terminal status without the timeout flag, or a
      non-terminal one with it once the budget is spent; every poll before
      the last one saw a non-terminal status and left the budget unspent. */
  lemma {:induction false} WaitOutcome(polls: nat -> Poll, maxWait: int, k: nat)
    ensures var w := WaitFrom(polls, maxWait, k);
      w.polled > k &&
      (w.outcome.Err? ==> polls(w.polled - 1) == PollError(w.outcome.error)) &&
      (w.outcome.Ok? ==> polls(w.polled - 1) == PollReply(w.outcome.value.status)) &&
      (w.outcome.Ok? && !w.outcome.value.timedOut ==> IsTerminal(w.outcome.value.status)) &&
      (w.outcome.Ok? && w.outcome.value.timedOut ==>
         !IsTerminal(w.outcome.value.status) && WaitedAfter(w.polled) >= maxWait) &&
      (forall j :: k <= j < w.polled - 1 ==> PollContinued(polls, maxWait, j))
    decreases maxWait - WaitedAfter(k)
  {
    match polls(k)
    case PollError(_) =>
    case PollReply(status) =>
      if !IsTerminal(status) && WaitedAfter(k + 1) < maxWait {
        DelaySchedule(k);
        WaitOutcome(polls, maxWait, k + 1);
        var w := WaitFrom(polls, maxWait, k + 1);
        assert WaitFrom(polls, maxWait, k) == w;
        assert PollContinued(polls, maxWait, k);
      }
  }

  /** The loop ends: at most one poll more than max_wait / 5. */
  lemma WaitPollBound(polls: nat -> Poll, maxWait: int)
    ensures var w := WaitFrom(polls, maxWait, 0);
      w.polled == 1 || 5 * (w.polled - 1) < maxWait
  {
    var w := WaitFrom(polls, maxWait, 0);
    WaitOutcome(polls, maxWait, 0);
    if w.polled > 1 {
      WaitedBounds(w.polled - 1);
      var j := w.polled - 2;
      assert PollContinued(polls, maxWait, j);
    }
  }

  /** A job that is already done at the first poll is returned at once,
      even with a 5-second budget. */
  lemma ImmediateSuccess(polls: nat -> Poll)
    requires polls(0) == PollReply("succeeded")
    ensures WaitFrom(polls, 5, 0) == Wait(Ok(JobData("succeeded", false)), 1)
  {
    Text.LowerOfLower("succeeded");
  }

  /** wait_for_job: the `while True` loop with its `delay` and `waited`. */
  method WaitForJob(polls: nat -> Poll, maxWait: int) returns (r: Result<JobData, string>, polled: nat, sleeps: seq<int>)
    ensures Wait(r, polled) == WaitFrom(polls, maxWait, 0)
    ensures polled >= 1
    // one sleep per non-terminal poll, following the backoff schedule
    ensures sleeps == Delays(if r.Ok? && r.value.timedOut then polled else polled - 1)
  {
    var delay := 5;
    var waited := 0;
    polled := 0;
    sleeps := [];
    while true
      invariant delay == DelayAt(polled) && waited == WaitedAfter(polled)
      invariant WaitFrom(polls, maxWait, polled) == WaitFrom(polls, maxWait, 0)
      invariant sleeps == Delays(polled)
      decreases maxWait - waited
    {
      var poll := polls(polled);
      WaitStep(polls, maxWait, polled);
      DelaySchedule(polled);
      if poll.PollError? {
        r := Err(poll.msg);
        polled := polled + 1;
        return;
      }
      if IsTerminal(poll.status) {
        r := Ok(JobData(poll.status, false));
        polled := polled + 1;
        return;
      }
      sleeps := sleeps + [delay];
      waited := waited + delay;
      if waited >= maxWait {
        r := Ok(JobData(poll.status, true));
        polled := polled + 1;
        return;
      }
      delay := Min(delay * 2, 60);
      polled := polled + 1;
    }
  }

  /** The index of the first statement whose execution fails, or the
      number of statements when none does. */
  function FirstFailure(stmts: seq<string>, executeError: nat -> Option<string>, i: nat): (n: nat)
    requires i <= |stmts|
    ensures i <= n <= |stmts|
    ensures forall j :: i <= j < n ==> executeError(j).None?
    ensures n < |stmts| ==> executeError(n).Some?
    decreases |stmts| - i
  {
    if i == |stmts| then i
    else if executeError(i).Some? then i
    else FirstFailure(stmts, executeError, i + 1)
  }

  /** What run_duckdb_sql does against a scripted connection. */
  datatype Run = Run(result: Result<(), string>, trace: seq<DbOp>)

  /** The reference behaviour of run_duckdb_sql: connect (outside the
      `try`), execute the statements in order up to and including the first
      that fails, and close in the `finally`. */
  function RunSpec(dbPath: string, stmts: seq<string>, db: DbScript): Run {
    if db.connectError.Some? then Run(Err(db.connectError.value), [Connect(dbPath)])
    else
      var n := FirstFailure(stmts, db.executeError, 0);
      if n == |stmts| then Run(Ok(()), [Connect(dbPath)] + Executes(stmts) + [Close])
      else Run(Err(db.executeError(n).value), [Connect(dbPath)] + Executes(stmts[..n + 1]) + [Close])
  }

  /** Statements run in list order, each at most once; once connected the
      connection is always closed, and last; the run succeeds exactly when
      every statement does. */
  lemma RunSpecShape(dbPath: string, stmts: seq<string>, db: DbScript)
    ensures var run := RunSpec(dbPath, stmts, db);
      run.trace[0] == Connect(dbPath) &&
      (db.connectError.None? ==>
        |run.trace| >= 2 && run.trace[|run.trace| - 1] == Close &&
        (exists m :: 0 <= m <= |stmts| && run.trace == [Connect(dbPath)] + Executes(stmts[..m]) + [Close])) &&
      (run.result.Ok? <==> db.connectError.None? && forall j :: 0 <= j < |stmts| ==> db.executeError(j).None?)
  {
    var run := RunSpec(dbPath, stmts, db);
    if db.connectError.None? {
      var n := FirstFailure(stmts, db.executeError, 0);
      if n == |stmts| {
        assert stmts[..n] == stmts;
      }
    }
  }

  /** run_duckdb_sql: the `for` loop inside `try`/`finally`. */
  method RunDuckdbSql(dbPath: string, stmts: seq<string>, db: DbScript) returns (r: Result<(), string>, trace: seq<DbOp>)
    ensures Run(r, trace) == RunSpec(dbPath, stmts, db)
  {
    trace := [Connect(dbPath)];
    if db.connectError.Some? {
      r := Err(db.connectError.value);
      return;
    }
    r := Ok(());
    var i := 0;
    while i < |stmts|
      invariant 0 <= i <= |stmts|
      invariant FirstFailure(stmts, db.executeError, i) == FirstFailure(stmts, db.executeError, 0)
      invariant trace == [Connect(dbPath)] + Executes(stmts[..i])
    {
      trace := trace + [Execute(stmts[i])];
      ExecutesSnoc(stmts, i);
      if db.executeError(i).Some? {
        r := Err(db.executeError(i).value);
        break;
      }
      i := i + 1;
    }
    if i == |stmts| {
      assert stmts[..i] == stmts;
    }
    trace := trace + [Close];
  }

  /** The wait budget the flow passes (the parameter's default). */
  const MaxWait := 1800

  const DefaultSql := ["CREATE TABLE IF NOT EXISTS raw_sync_log(job_id VARCHAR, loaded_at TIMESTAMP DEFAULT now());"]

  /** `sql or [default]`: a missing or empty list runs the default. */
  function StatementsToRun(sql: Option<seq<string>>): (stmts: seq<string>)
    ensures sql.Some? && sql.value != [] ==> stmts == sql.value
    ensures sql.None? || sql.value == [] ==> stmts == DefaultSql
  {
    if sql.Some? && sql.value != [] then sql.value else DefaultSql
  }

  /** The flow's status for a job status. */
  function FlowStatus(jobStatus: string): string {
    var s := Text.Lower(jobStatus);
    if s == "succeeded" then "success" else s
  }

  /** The status reads "success" for a succeeded job, and otherwise is the
      lower-cased job status; a job status spelled "success" in any case
      would read the same. */
  lemma FlowStatusMeaning(jobStatus: string)
    ensures FlowStatus(jobStatus) == "success" <==> Text.Lower(jobStatus) in {"succeeded", "success"}
    ensures Text.Lower(jobStatus) != "succeeded" ==> FlowStatus(jobStatus) == Text.Lower(jobStatus)
    ensures forall i :: 0 <= i < |FlowStatus(jobStatus)| ==> !Text.IsAsciiUpper(FlowStatus(jobStatus)[i])
  {
  }

  /** The flow's return value, without the duration. */
  datatype FlowResult = FlowResult(status: string, jobId: string)

  /** airbyte_to_duckdb_flow. The trigger's answer is the job id or an
      error; `pushed` lists the statuses of the metrics pushes, which never
      fail here because push_metrics swallows gateway errors. */
  method AirbyteToDuckdbFlow(trigger: Result<string, string>, polls: nat -> Poll, sql: Option<seq<string>>, dbPath: string, db: DbScript)
    returns (out: Result<FlowResult, string>, pushed: seq<string>, trace: seq<DbOp>)
    // exactly one metrics push, with the returned status or "error"
    ensures out.Ok? ==> pushed == [out.value.status]
    ensures out.Err? ==> pushed == ["error"]
    ensures trigger.Err? ==> out == Err(trigger.error) && trace == []
    ensures trigger.Ok? ==>
      var w := WaitFrom(polls, MaxWait, 0);
      (w.outcome.Err? ==> out == Err(w.outcome.error) && trace == []) &&
      (w.outcome.Ok? && Text.Lower(w.outcome.value.status) != "succeeded" ==>
         out == Ok(FlowResult(Text.Lower(w.outcome.value.status), trigger.value)) && trace == []) &&
      (w.outcome.Ok? && Text.Lower(w.outcome.value.status) == "succeeded" ==>
         var run := RunSpec(dbPath, StatementsToRun(sql), db);
         trace == run.trace &&
         (run.result.Ok? ==> out == Ok(FlowResult("success", trigger.value))) &&
         (run.result.Err? ==> out == Err(run.result.error)))
  {
    trace := [];
    var stmts := StatementsToRun(sql);
    if trigger.Err? {
      out := Err(trigger.error);
      pushed := ["error"];
      return;
    }
    var jobId := trigger.value;
    var data, _, _ := WaitForJob(polls, MaxWait);
    if data.Err? {
      out := Err(data.error);
      pushed := ["error"];
      return;
    }
    var jobStatus := Text.Lower(data.value.status);
    var status;
    if jobStatus == "succeeded" {
      var ran;
      ran, trace := RunDuckdbSql(dbPath, stmts, db);
      if ran.Err? {
        out := Err(ran.error);
        pushed := ["error"];
        return;
      }
      status := "success";
    } else {
      status := jobStatus;
    }
    pushed := [status];
    out := Ok(FlowResult(status, jobId));
  }

  /** A job still running when the budget runs out ends the flow with its
      own lower-cased status, not "success" or "error", and runs no SQL. */
  lemma TimeoutReportsLastStatus(polls: nat -> Poll)
    requires forall k: nat :: polls(k) == PollReply("running")
    ensures WaitFrom(polls, MaxWait, 0).outcome == Ok(JobData("running", true))
  {
    WaitOutcome(polls, MaxWait, 0);
    var w := WaitFrom(polls, MaxWait, 0);
    Text.LowerOfLower("running");
    assert !IsTerminal("running");
  }
}
