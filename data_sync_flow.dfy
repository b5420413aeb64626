/** services/prefect/flows/data_sync_flow.py: trigger an Airbyte sync, poll
    every 10 seconds until the job reaches an exact terminal status, import
    into DuckDB when it succeeded, run a Great Expectations checkpoint, and
    push one metrics sample, pushing "error" instead when anything raises. */
module DataSyncFlow {
  import opened Wrappers
  import Text
  import opened Jobs
  import AirbyteToDuckdb

  /** The statuses that end the wait, compared exactly as Airbyte spells
      them. */
  predicate IsTerminal(status: string) {
    status in ["succeeded", "failed", "cancelled"]
  }

  /** The seconds slept between polls. */
  const PollInterval := 10

  /** How a wait over a finite script of polls ends: with the job data, with
      the exception of a failed poll, or still polling when the script runs
      out (the loop has no cap). */
  datatype SyncWait = Done(status: string) | PollFailed(msg: string) | StillPolling

  /** wait_for_sync_completion from the k-th poll on. */
  function WaitFrom(polls: seq<Poll>, k: nat): SyncWait
    requires k <= |polls|
    decreases |polls| - k
  {
    if k == |polls| then StillPolling
    else match polls[k]
      case PollError(msg) => PollFailed(msg)
      case PollReply(status) => if IsTerminal(status) then Done(status) else WaitFrom(polls, k + 1)
  }

  /** The wait returns the first poll that fails or reports an exact
      terminal status; every poll before it reported something else. */
  lemma {:induction false} WaitOutcome(polls: seq<Poll>, k: nat)
    requires k <= |polls|
    ensures var w := WaitFrom(polls, k);
      (w.Done? ==>
         IsTerminal(w.status) &&
         exists i :: k <= i < |polls| && polls[i] == PollReply(w.status) &&
           forall j :: k <= j < i ==> polls[j].PollReply? && !IsTerminal(polls[j].status)) &&
      (w.PollFailed? ==>
         exists i :: k <= i < |polls| && polls[i] == PollError(w.msg) &&
           forall j :: k <= j < i ==> polls[j].PollReply? && !IsTerminal(polls[j].status)) &&
      (w.StillPolling? <==> forall j :: k <= j < |polls| ==> polls[j].PollReply? && !IsTerminal(polls[j].status))
    decreases |polls| - k
  {
    if k < |polls| {
      WaitOutcome(polls, k + 1);
      match polls[k]
      case PollError(_) =>
      case PollReply(status) =>
        if !IsTerminal(status) {
          var w := WaitFrom(polls, k + 1);
          if w.Done? {
            var i :| k + 1 <= i < |polls| && polls[i] == PollReply(w.status) &&
              forall j :: k + 1 <= j < i ==> polls[j].PollReply? && !IsTerminal(polls[j].status);
            assert forall j :: k <= j < i ==> polls[j].PollReply? && !IsTerminal(polls[j].status);
          } else if w.PollFailed? {
            var i :| k + 1 <= i < |polls| && polls[i] == PollError(w.msg) &&
              forall j :: k + 1 <= j < i ==> polls[j].PollReply? && !IsTerminal(polls[j].status);
            assert forall j :: k <= j < i ==> polls[j].PollReply? && !IsTerminal(polls[j].status);
          }
        }
    }
  }

  /** Unlike the backoff flow, an upper-case status does not end this wait. */
  lemma CaseSensitiveUnlikeBackoffFlow()
    ensures !IsTerminal("FAILED") && AirbyteToDuckdb.IsTerminal("FAILED")
  {
    Text.LowerOfUpper("FAILED");
    assert Text.Lower("FAILED") == "failed";
  }

  /** wait_for_sync_completion: poll, return on a terminal status, sleep 10
      seconds otherwise. */
  method WaitForSyncCompletion(polls: seq<Poll>) returns (w: SyncWait, sleeps: seq<int>)
    ensures w == WaitFrom(polls, 0)
    ensures forall i :: 0 <= i < |sleeps| ==> sleeps[i] == PollInterval
    // one sleep after each non-terminal reply, none after the poll that ends the wait
    ensures forall j :: 0 <= j < |sleeps| && j < |polls| ==> polls[j].PollReply? && !IsTerminal(polls[j].status)
    ensures w.StillPolling? ==> |sleeps| == |polls|
    ensures w.Done? ==> |sleeps| < |polls| && polls[|sleeps|] == PollReply(w.status)
    ensures w.PollFailed? ==> |sleeps| < |polls| && polls[|sleeps|] == PollError(w.msg)
  {
    var k := 0;
    sleeps := [];
    while k < |polls|
      invariant 0 <= k <= |polls|
      invariant WaitFrom(polls, k) == WaitFrom(polls, 0)
      invariant |sleeps| == k
      invariant forall i :: 0 <= i < |sleeps| ==> sleeps[i] == PollInterval
      invariant forall j :: 0 <= j < k ==> polls[j].PollReply? && !IsTerminal(polls[j].status)
    {
      var poll := polls[k];
      if poll.PollError? {
        return PollFailed(poll.msg), sleeps;
      }
      if IsTerminal(poll.status) {
        return Done(poll.status), sleeps;
      }
      sleeps := sleeps + [PollInterval];
      k := k + 1;
    }
    w := StillPolling;
  }

  /** run_duckdb_import: connect, execute the script once, close. There is
      no `finally`, so a failing execute leaves the connection open. */
  function ImportSpec(dbPath: string, script: string, db: DbScript): (run: AirbyteToDuckdb.Run)
    ensures run.result.Ok? <==> db.connectError.None? && db.executeError(0).None?
    ensures run.result.Ok? ==> run.trace == [Connect(dbPath), Execute(script), Close]
    ensures run.result.Err? ==> Close !in run.trace
    ensures Execute(script) in run.trace <==> db.connectError.None?
  {
    if db.connectError.Some? then AirbyteToDuckdb.Run(Err(db.connectError.value), [Connect(dbPath)])
    else if db.executeError(0).Some? then AirbyteToDuckdb.Run(Err(db.executeError(0).value), [Connect(dbPath), Execute(script)])
    else AirbyteToDuckdb.Run(Ok(()), [Connect(dbPath), Execute(script), Close])
  }

  /** What the Great Expectations checkpoint does: a result with its success
      flag and validation ids, or an exception. The ids are the keys of the
      result's run_results, shown here by their text; `dumpError` is the
      TypeError json.dumps raises when those keys are not JSON-serialisable. */
  datatype GeRun = GeResult(success: bool, validationIds: seq<string>, dumpError: Option<string>) | GeRaised(msg: string)

  /** The summary dict run_ge_validation returns. */
  datatype GeStats = GeStats(success: bool, validationIds: Option<seq<string>>, error: Option<string>)

  /** run_ge_validation never raises: an exception is folded into a failed
      summary carrying its message. */
  function RunGeValidation(ge: GeRun): (stats: GeStats)
    ensures stats.success <==> ge.GeResult? && ge.success
    ensures ge.GeRaised? ==> stats == GeStats(false, None, Some(ge.msg))
    ensures ge.GeResult? ==> stats.validationIds == Some(ge.validationIds) && stats.error.None?
  {
    match ge
    case GeResult(success, ids, _) => GeStats(success, Some(ids), None)
    case GeRaised(msg) => GeStats(false, None, Some(msg))
  }

  /** The "GE stats" log line serialises the summary with json.dumps before
      truncating it. The summary of an exception holds only a flag and a
      message, so only a checkpoint result can make that step raise. */
  function LogStats(ge: GeRun): (err: Option<string>)
    ensures err.Some? ==> ge.GeResult? && err == ge.dumpError
    ensures ge.GeResult? ==> err == ge.dumpError
  {
    match ge
    case GeResult(_, _, dumpError) => dumpError
    case GeRaised(_) => None
  }

  /** How the flow ends: its return value, the exception it re-raises, or
      still waiting on the job. */
  datatype Outcome = Returned(status: string, jobId: string, ge: GeStats) | Raised(msg: string) | Waiting

  /** Everything one run of the flow does. `pushed` lists the statuses of
      the push attempts, `geRan` whether the checkpoint ran. */
  datatype Flow = Flow(outcome: Outcome, pushed: seq<string>, trace: seq<DbOp>, geRan: bool)

  /** The `except` branch: push "error" (the attempt numbered `attempt`) and
      re-raise; if that push itself fails its exception replaces `e`. */
  function Failure(e: string, attempt: nat, pushError: nat -> Option<string>, pushed: seq<string>, trace: seq<DbOp>, geRan: bool): Flow {
    Flow(Raised(if pushError(attempt).Some? then pushError(attempt).value else e), pushed + ["error"], trace, geRan)
  }

  /** The reference behaviour of data_sync_flow. `pushError(i)` says whether
      the i-th push to the gateway fails; push_metrics does not catch it. */
  function FlowSpec(trigger: Result<string, string>, polls: seq<Poll>, dbPath: string, script: string, db: DbScript, ge: GeRun, pushError: nat -> Option<string>): Flow {
    if trigger.Err? then Failure(trigger.error, 0, pushError, [], [], false)
    else
      match WaitFrom(polls, 0)
      case StillPolling => Flow(Waiting, [], [], false)
      case PollFailed(msg) => Failure(msg, 0, pushError, [], [], false)
      case Done(jobStatus) =>
        var run := if jobStatus == "succeeded" then ImportSpec(dbPath, script, db) else AirbyteToDuckdb.Run(Ok(()), []);
        if run.result.Err? then Failure(run.result.error, 0, pushError, [], run.trace, false)
        else
          var status := if jobStatus == "succeeded" then "success" else "failed";
          if LogStats(ge).Some? then Failure(LogStats(ge).value, 0, pushError, [], run.trace, true)
          else if pushError(0).Some? then Failure(pushError(0).value, 1, pushError, [status], run.trace, true)
          else Flow(Returned(status, trigger.value, RunGeValidation(ge)), [status], run.trace, true)
  }

  /** data_sync_flow, step by step. */
  method DataSyncFlow(trigger: Result<string, string>, polls: seq<Poll>, dbPath: string, script: string, db: DbScript, ge: GeRun, pushError: nat -> Option<string>)
    returns (outcome: Outcome, pushed: seq<string>, trace: seq<DbOp>, geRan: bool)
    ensures Flow(outcome, pushed, trace, geRan) == FlowSpec(trigger, polls, dbPath, script, db, ge, pushError)
  {
    pushed := [];
    trace := [];
    geRan := false;
    var error: Option<string> := None;
    if trigger.Err? {
      error := Some(trigger.error);
    } else {
      var jobId := trigger.value;
      var jobResult, _ := WaitForSyncCompletion(polls);
      if jobResult.StillPolling? {
        return Waiting, pushed, trace, geRan;
      } else if jobResult.PollFailed? {
        error := Some(jobResult.msg);
      } else {
        var status;
        var imported: Result<(), string> := Ok(());
        if jobResult.status == "succeeded" {
          var run := ImportSpec(dbPath, script, db);
          imported, trace := run.result, run.trace;
          status := "success";
        } else {
          status := "failed";
        }
        if imported.Err? {
          error := Some(imported.error);
        } else {
          var stats := RunGeValidation(ge);
          geRan := true;
          var logged := LogStats(ge);
          if logged.Some? {
            error := logged;
          } else {
            pushed := pushed + [status];
            if pushError(0).Some? {
              error := Some(pushError(0).value);
            } else {
              return Returned(status, jobId, stats), pushed, trace, geRan;
            }
          }
        }
      }
    }
    // except Exception as e: push "error", then re-raise
    var attempt := |pushed|;
    pushed := pushed + ["error"];
    outcome := Raised(if pushError(attempt).Some? then pushError(attempt).value else error.value);
  }

  /** A returned flow reports "success" exactly when the job's status was
      exactly "succeeded", and "failed" for every other terminal status. */
  lemma ReturnedStatus(trigger: Result<string, string>, polls: seq<Poll>, dbPath: string, script: string, db: DbScript, ge: GeRun, pushError: nat -> Option<string>)
    ensures var f := FlowSpec(trigger, polls, dbPath, script, db, ge, pushError);
      f.outcome.Returned? ==>
        WaitFrom(polls, 0).Done? &&
        (f.outcome.status == "success" <==> WaitFrom(polls, 0).status == "succeeded") &&
        (f.outcome.status == "failed" <==> WaitFrom(polls, 0).status != "succeeded")
  {
  }

  /** The import runs only for a succeeded job, executes the script exactly
      once and, when the flow returns, closed the connection. */
  lemma ImportOnlyOnSuccess(trigger: Result<string, string>, polls: seq<Poll>, dbPath: string, script: string, db: DbScript, ge: GeRun, pushError: nat -> Option<string>)
    ensures var f := FlowSpec(trigger, polls, dbPath, script, db, ge, pushError);
      (f.trace != [] ==> trigger.Ok? && WaitFrom(polls, 0) == Done("succeeded")) &&
      (f.outcome.Returned? && f.outcome.status == "success" ==> f.trace == [Connect(dbPath), Execute(script), Close])
  {
  }

  /** The checkpoint runs after a sync that failed as well as after one that
      succeeded. Its summary is returned unchanged unless logging it raises,
      which sends the flow to the `except` branch before any push. */
  lemma ValidationRunsEitherWay(trigger: Result<string, string>, polls: seq<Poll>, dbPath: string, script: string, db: DbScript, ge: GeRun, pushError: nat -> Option<string>)
    requires trigger.Ok? && WaitFrom(polls, 0).Done? && WaitFrom(polls, 0).status != "succeeded"
    ensures FlowSpec(trigger, polls, dbPath, script, db, ge, pushError).geRan
    ensures LogStats(ge).None? && pushError(0).None? ==>
      FlowSpec(trigger, polls, dbPath, script, db, ge, pushError).outcome == Returned("failed", trigger.value, RunGeValidation(ge))
    ensures LogStats(ge).Some? ==>
      var f := FlowSpec(trigger, polls, dbPath, script, db, ge, pushError);
      f.outcome.Raised? && f.pushed == ["error"] &&
      f.outcome.msg == (if pushError(0).Some? then pushError(0).value else LogStats(ge).value)
  {
  }

  /** A returned flow pushed metrics once, with its status; a raised one
      ended by pushing "error", after at most one earlier push. */
  lemma MetricsPushes(trigger: Result<string, string>, polls: seq<Poll>, dbPath: string, script: string, db: DbScript, ge: GeRun, pushError: nat -> Option<string>)
    ensures var f := FlowSpec(trigger, polls, dbPath, script, db, ge, pushError);
      (f.outcome.Returned? ==> f.pushed == [f.outcome.status]) &&
      (f.outcome.Raised? ==> 1 <= |f.pushed| <= 2 && f.pushed[|f.pushed| - 1] == "error") &&
      (f.outcome.Waiting? ==> f.pushed == [])
  {
  }
}
