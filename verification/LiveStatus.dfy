/** The hash of submissions being judged and its overlay on database rows:
    status-service/src/services/status.service.ts. */
module LiveStatus {
  import opened Options
  import opened Judging

  datatype SubmissionRow = SubmissionRow(submissionId: string, userId: string, problemId: string, status: string)

  // ---------------------------------------------------------------- the hash

  /** hSet of a running submission, hDel of any other. */
  function Apply(active: map<string, string>, msg: StatusMessage): map<string, string> {
    if msg.running then active[msg.submissionId := msg.status] else active - {msg.submissionId}
  }

  function Fold(log: seq<StatusMessage>): map<string, string> {
    if log == [] then map[] else Apply(Fold(log[..|log| - 1]), log[|log| - 1])
  }

  /** The messages about one submission, in order of arrival. */
  function Of(log: seq<StatusMessage>, id: string): seq<StatusMessage> {
    if log == [] then []
    else Of(log[..|log| - 1], id) + if log[|log| - 1].submissionId == id then [log[|log| - 1]] else []
  }

  class StatusService {
    /** The hash `active_submissions`. */
    var active: map<string, string>
    ghost var log: seq<StatusMessage>

    ghost predicate Valid() reads this {
      active == Fold(log)
    }

    constructor ()
      ensures Valid() && log == [] && active == map[]
    {
      active, log := map[], [];
    }

    /** The subscription's handler. */
    method OnMessage(msg: StatusMessage)
      requires Valid()
      modifies this
      ensures Valid() && log == old(log) + [msg] && active == Apply(old(active), msg)
    {
      if msg.running {
        active := active[msg.submissionId := msg.status];
      } else {
        active := active - {msg.submissionId};
      }
      log := log + [msg];
      assert log[..|log| - 1] == old(log);
    }
  }

  /** The hash holds exactly the submissions whose last message was running, with that message's text. */
  lemma {:induction false} ActiveIffLastRunning(log: seq<StatusMessage>, id: string)
    ensures forall i :: 0 <= i < |Of(log, id)| ==> Of(log, id)[i].submissionId == id
    ensures id in Fold(log) <==> Of(log, id) != [] && Of(log, id)[|Of(log, id)| - 1].running
    ensures id in Fold(log) ==> Fold(log)[id] == Of(log, id)[|Of(log, id)| - 1].status
  {
    if log != [] {
      ActiveIffLastRunning(log[..|log| - 1], id);
    }
  }

  /** Only the order within each submission matters, not how the submissions' messages interleave. */
  lemma InterleavingIrrelevant(a: seq<StatusMessage>, b: seq<StatusMessage>)
    requires forall id :: Of(a, id) == Of(b, id)
    ensures Fold(a) == Fold(b)
  {
    var x, y := Fold(a), Fold(b);
    forall id ensures (id in x <==> id in y) && (id in x ==> x[id] == y[id]) {
      SameEntry(a, b, id);
    }
  }

  lemma SameEntry(a: seq<StatusMessage>, b: seq<StatusMessage>, id: string)
    requires Of(a, id) == Of(b, id)
    ensures id in Fold(a) <==> id in Fold(b)
    ensures id in Fold(a) ==> Fold(a)[id] == Fold(b)[id]
  {
    ActiveIffLastRunning(a, id);
    ActiveIffLastRunning(b, id);
  }

  /** Whatever arrives of other submissions and of earlier attempts at this one: once the first update of
      a job has arrived, in publish order, the submission is live until the job's verdict arrives, and a
      job that fails leaves it live. */
  lemma LiveUntilVerdict(log: seq<StatusMessage>, id: string, earlier: seq<StatusMessage>, arrived: nat,
                         testsRun: Option<nat>, saved: Option<Verdict>)
    requires 0 < arrived <= |JobTrace(id, testsRun, saved)|
    requires Of(log, id) == earlier + JobTrace(id, testsRun, saved)[..arrived]
    ensures id in Fold(log) <==> saved.None? || arrived < |JobTrace(id, testsRun, saved)|
    ensures id in Fold(log) ==> Fold(log)[id] == JobTrace(id, testsRun, saved)[arrived - 1].status
  {
    JobTraceShape(id, testsRun, saved);
    LastOfTrace(log, id, earlier, JobTrace(id, testsRun, saved), arrived);
  }

  lemma LastOfTrace(log: seq<StatusMessage>, id: string, earlier: seq<StatusMessage>, trace: seq<StatusMessage>, arrived: nat)
    requires 0 < arrived <= |trace| && Of(log, id) == earlier + trace[..arrived]
    ensures id in Fold(log) <==> trace[arrived - 1].running
    ensures id in Fold(log) ==> Fold(log)[id] == trace[arrived - 1].status
  {
    ActiveIffLastRunning(log, id);
    assert Of(log, id)[|Of(log, id)| - 1] == trace[arrived - 1];
  }

  /** When a completed job's updates have all arrived, in any order, the submission has left the hash
      exactly if the verdict's update came last. */
  lemma GoneIffVerdictLast(log: seq<StatusMessage>, id: string, testsRun: Option<nat>, verdict: Verdict)
    requires multiset(Of(log, id)) == multiset(JobTrace(id, testsRun, Some(verdict)))
    ensures Of(log, id) != []
    ensures id !in Fold(log) <==>
            Of(log, id)[|Of(log, id)| - 1] == Update(id, Some(verdict), StatusText(verdict.status))
  {
    var own, trace := Of(log, id), JobTrace(id, testsRun, Some(verdict));
    ActiveIffLastRunning(log, id);
    JobTraceShape(id, testsRun, Some(verdict));
    assert |own| == |multiset(own)| == |multiset(trace)| == |trace|;
    var last := own[|own| - 1];
    assert last in multiset(own);
    var k :| 0 <= k < |trace| && trace[k] == last;
    assert trace[|trace| - 1] == Update(id, Some(verdict), StatusText(verdict.status));
  }

  // ---------------------------------------------------------------- the overlay

  /** `hmGet` of one field; a missing field and an empty text both count as no status. */
  function Lookup(active: map<string, string>, id: string): string {
    if id in active then active[id] else ""
  }

  ghost predicate IsFirst(rows: seq<SubmissionRow>, j: nat)
    requires j < |rows|
  {
    forall k :: 0 <= k < j ==> rows[k].submissionId != rows[j].submissionId
  }

  ghost predicate QueuedIn(rows: seq<SubmissionRow>, id: string) {
    exists k :: 0 <= k < |rows| && rows[k].submissionId == id && rows[k].status == "QUEUE"
  }

  /** What row `j` becomes, for any rows at all. */
  ghost predicate IsOverlaid(row: SubmissionRow, active: map<string, string>, rows: seq<SubmissionRow>, j: nat)
    requires j < |rows|
  {
    var id := rows[j].submissionId;
    row == if IsFirst(rows, j) && QueuedIn(rows, id) && Lookup(active, id) != ""
           then rows[j].(status := Lookup(active, id)) else rows[j]
  }

  method QueuedIds(submissions: array<SubmissionRow>) returns (ids: seq<string>)
    ensures forall id :: id in ids <==> QueuedIn(submissions[..], id)
  {
    ids := [];
    for i := 0 to submissions.Length
      invariant forall id :: id in ids <==> QueuedIn(submissions[..i], id)
    {
      assert submissions[..i + 1] == submissions[..i] + [submissions[i]];
      QueuedAppend(submissions[..i], submissions[i]);
      if submissions[i].status == "QUEUE" {
        ids := ids + [submissions[i].submissionId];
      }
    }
    assert submissions[..submissions.Length] == submissions[..];
  }

  lemma QueuedAppend(rows: seq<SubmissionRow>, row: SubmissionRow)
    ensures forall id :: QueuedIn(rows + [row], id) <==> QueuedIn(rows, id) || (row.submissionId == id && row.status == "QUEUE")
  {
    var all := rows + [row];
    assert all[|rows|] == row;
    forall id ensures QueuedIn(all, id) <==> QueuedIn(rows, id) || (row.submissionId == id && row.status == "QUEUE") {
      if QueuedIn(rows, id) {
        var k :| 0 <= k < |rows| && rows[k].submissionId == id && rows[k].status == "QUEUE";
        assert all[k] == rows[k];
      }
    }
  }

  method Find(submissions: array<SubmissionRow>, id: string) returns (at: nat)
    requires exists k :: 0 <= k < submissions.Length && submissions[k].submissionId == id
    ensures at < submissions.Length && submissions[at].submissionId == id
    ensures forall k :: 0 <= k < at ==> submissions[k].submissionId != id
  {
    at := 0;
    while submissions[at].submissionId != id
      invariant at < submissions.Length
      invariant forall k :: 0 <= k < at ==> submissions[k].submissionId != id
      decreases submissions.Length - at
    {
      at := at + 1;
    }
  }

  method AddStatusFromRedis(active: map<string, string>, submissions: array<SubmissionRow>)
    modifies submissions
    ensures forall j :: 0 <= j < submissions.Length ==> IsOverlaid(submissions[j], active, old(submissions[..]), j)
  {
    ghost var rows := submissions[..];
    var queuedSubs := QueuedIds(submissions);
    for i := 0 to |queuedSubs|
      invariant forall j :: 0 <= j < submissions.Length ==>
                  submissions[j] ==
                  if IsFirst(rows, j) && rows[j].submissionId in queuedSubs[..i] && Lookup(active, rows[j].submissionId) != ""
                  then rows[j].(status := Lookup(active, rows[j].submissionId)) else rows[j]
    {
      var id := queuedSubs[i];
      assert queuedSubs[..i + 1] == queuedSubs[..i] + [id];
      assert QueuedIn(rows, id);
      var status := Lookup(active, id);
      if status != "" {
        ghost var k: nat :| k < |rows| && rows[k].submissionId == id && rows[k].status == "QUEUE";
        assert submissions[k].submissionId == id;
        var at := Find(submissions, id);
        assert IsFirst(rows, at);
        submissions[at] := submissions[at].(status := status);
      }
    }
    assert queuedSubs[..|queuedSubs|] == queuedSubs;
  }

  ghost predicate DistinctRows(rows: seq<SubmissionRow>) {
    forall i, j :: 0 <= i < j < |rows| ==> rows[i].submissionId != rows[j].submissionId
  }

  /** On rows of distinct submissions, as the database returns them, a row whose stored status is not
      QUEUE never changes, and a queued one shows its submission's last message while that is running. */
  lemma OverlayShowsLastMessage(row: SubmissionRow, log: seq<StatusMessage>, rows: seq<SubmissionRow>, j: nat)
    requires DistinctRows(rows) && j < |rows| && IsOverlaid(row, Fold(log), rows, j)
    ensures rows[j].status != "QUEUE" ==> row == rows[j]
    ensures var own := Of(log, rows[j].submissionId);
            rows[j].status == "QUEUE" ==>
              row == if own != [] && own[|own| - 1].running && own[|own| - 1].status != ""
                     then rows[j].(status := own[|own| - 1].status) else rows[j]
  {
    ActiveIffLastRunning(log, rows[j].submissionId);
  }

  /** Over arbitrary rows, those that are not queued are all left alone exactly when none of them is the
      first of its submission's rows, shares it with a queued row, and would be given another status. */
  lemma StoredStatusesKeptIff(after: seq<SubmissionRow>, active: map<string, string>, rows: seq<SubmissionRow>)
    requires |after| == |rows| && forall j :: 0 <= j < |rows| ==> IsOverlaid(after[j], active, rows, j)
    ensures (forall j :: 0 <= j < |rows| && rows[j].status != "QUEUE" ==> after[j] == rows[j]) <==>
            (forall j :: 0 <= j < |rows| && rows[j].status != "QUEUE" && IsFirst(rows, j) && QueuedIn(rows, rows[j].submissionId)
                         ==> Lookup(active, rows[j].submissionId) in {"", rows[j].status})
  {
  }
}
