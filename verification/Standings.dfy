/** The contest end to end: the live board a run of the consumer leaves, against the frozen board the
    batch writes from the database rows. */
module Standings {
  import opened Seqs
  import opened LiveStore
  import opened LiveProtocol
  import opened Ranking
  import opened Freeze

  /** The rows hold exactly the published verdicts, with the same statuses and relative times. */
  ghost predicate RowsMatchQueue(rows: seq<Verdict>, s: State) {
    && NoDuplicates(rows)
    && forall v :: v in rows <==> v in s.published
  }

  /** Whatever crashes, redeliveries and reorderings a run saw: once everything is acked, and if no
      charged verdict ties with an earliest AC, every user's live record and batch record show the same
      problems, solved count, penalty and score, and the live board and any frozen board written from
      the rows show the same score at every rank. */
  lemma LiveBoardIsFrozenBoard(ss: seq<State>, i: nat, rows: seq<Verdict>, results: seq<ResultRow>)
    requires IsRun(ss) && i < |ss| && Quiescent(ss[i])
    requires RowsMatchQueue(rows, ss[i]) && NoTies(rows)
    requires IsFrozen(results, Group(rows))
    ensures forall u :: SameStanding(RecordOf(ss[i].metadata, u), RecordOf(Group(rows), u))
    ensures |RevOrder(ss[i].leaderboard)| == |results|
    ensures forall k | 0 <= k < |results| ::
              && RevOrder(ss[i].leaderboard)[k] in ss[i].leaderboard
              && ss[i].leaderboard[RevOrder(ss[i].leaderboard)[k]] == results[k].scores.score
              && results[k].rank == k + 1
  {
    var s := ss[i];
    QuiescentLeaderboardIsBatch(ss, i, rows);
    assert s.leaderboard == ScoreTable(Group(rows));
    LiveAndFrozenAgree(s.leaderboard, results, Group(rows));
    RunKeepsInv(ss, i);
    QuiescentLeaderboard(ss, i);
    DedupElements(rows);
    DeliverIsGroupOfDistinct(rows);
    forall u ensures SameStanding(RecordOf(s.metadata, u), RecordOf(Group(rows), u)) {
      DeliveryOrderIrrelevant(rows, s.applied, u);
    }
  }
}
