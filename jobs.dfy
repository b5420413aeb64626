/** What the two Prefect flows see of the outside world: Airbyte's job API
    and a DuckDB connection, each as a script of answers, and the trace of
    operations a flow performs on the database. */
module Jobs {
  import opened Wrappers

  /** One GET of `/api/v1/jobs/{id}`: a failed request or an unparsable or
      incomplete body (`PollError`), or the job's status string. */
  datatype Poll = PollError(msg: string) | PollReply(status: string)

  /** The job data a wait returns: the status as Airbyte spelled it, and
      whether the wait gave up (`timed_out`). */
  datatype JobData = JobData(status: string, timedOut: bool)

  /** Operations on a DuckDB connection, in the order a flow performs them. */
  datatype DbOp = Connect(path: string) | Execute(sql: string) | Close

  /** A DuckDB connection's answers: whether `connect` fails (and with what
      message), and for the i-th `execute` on it whether it fails. */
  datatype DbScript = DbScript(connectError: Option<string>, executeError: nat -> Option<string>)

  /** `Execute` operations for statements, in order. */
  function Executes(stmts: seq<string>): (ops: seq<DbOp>)
    ensures |ops| == |stmts|
    ensures forall i :: 0 <= i < |stmts| ==> ops[i] == Execute(stmts[i])
  {
    if stmts == [] then [] else [Execute(stmts[0])] + Executes(stmts[1..])
  }

  /** Running one more statement appends one `Execute` to the trace. */
  lemma ExecutesSnoc(stmts: seq<string>, i: nat)
    requires i < |stmts|
    ensures Executes(stmts[..i + 1]) == Executes(stmts[..i]) + [Execute(stmts[i])]
  {
    assert Executes(stmts[..i + 1])[i] == Execute(stmts[i]);
  }
}
