/** The engine's verdicts as the leaderboard reads them: execution-engine/worker/formatter.go against
    leaderboard-service/src/services/scoring.service.ts. */
module VerdictFlow {
  import opened Judging
  import opened Scoring

  /** The texts of different statuses differ, so an update is a job's last exactly at its own verdict. */
  lemma StatusTextsDiffer(a: Status, b: Status)
    ensures StatusText(a) == StatusText(b) ==> a == b
  {
    assert StatusText(a)[0] == StatusText(b)[0] || StatusText(a) != StatusText(b);
    assert |StatusText(a)| == |StatusText(b)| || StatusText(a) != StatusText(b);
  }

  /** Of the engine's verdicts the leaderboard counts AC as solved and charges for WA, TLE and RE alone:
      crashes by the four named signals and exits with an error code cost nothing. */
  lemma ChargedVerdicts(status: Status, x: Submission)
    requires x.status == StatusText(status)
    ensures IsAc(x) <==> status == AC
    ensures IsWrong(x) <==> status in {WA, TLE, RE}
  {
  }
}
